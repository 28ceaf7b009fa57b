/**
 The chat widget (src/components/chatbot.tsx): the selected language, the
 transcript, the input box and the loading flag, with the handlers for
 changing language, typing and sending. Message ids come from
 `Date.now().toString()`; the timestamps are opaque string arguments.
 */
module Chatbot {
  import opened Js
  import opened Http

  const Greeting := "Hello! How can I help you with your anemia-related questions today?"
  const EmptyReplyText := "Sorry, I couldn't get a response."
  const ResponseFailedText := "Failed to get response from AI"
  const NonErrorText := "An error occurred. Please try again."

  datatype Lang = En | Hi | Kn

  /** The language code sent to the chat route. */
  function Code(l: Lang): string {
    match l
    case En => "en"
    case Hi => "hi"
    case Kn => "kn"
  }

  /** `lang === "en" ? "English" : lang === "hi" ? "Hindi" : "Kannada"`. */
  function LanguageName(l: Lang): (name: string)
    ensures l == En <==> name == "English"
    ensures l == Hi <==> name == "Hindi"
    ensures l == Kn <==> name == "Kannada"
  {
    if Code(l) == "en" then "English" else if Code(l) == "hi" then "Hindi" else "Kannada"
  }

  datatype Sender = User | Bot

  /** A transcript entry; the language-change notice carries no language. */
  datatype Message = Message(id: string, text: string, sender: Sender, language: Option<Lang>)

  datatype State = State(selectedLanguage: Lang, messages: seq<Message>, inputValue: string, isLoading: bool)

  /** The widget as first rendered: English, one bot greeting, empty input. */
  function Initial(): (s: State)
    ensures s.selectedLanguage == En && s.inputValue == "" && !s.isLoading
    ensures |s.messages| == 1
    ensures s.messages[0].sender == Bot && s.messages[0].language == Some(En)
    ensures s.messages[0].text == Greeting
  {
    State(En, [Message("1", Greeting, Bot, Some(En))], "", false)
  }

  /** The single message a language change leaves in the transcript. */
  function Notice(l: Lang): Message {
    Message("lang_change", "Language changed to " + LanguageName(l) + ".", Bot, None)
  }

  /** The notice names the language, so different languages give different
      notices. */
  lemma NoticeInjective(a: Lang, b: Lang)
    ensures Notice(a) == Notice(b) <==> a == b
  {
    if Notice(a) == Notice(b) {
      var pre := "Language changed to ";
      var na, nb := LanguageName(a), LanguageName(b);
      assert Notice(a).text == pre + na + ".";
      assert |na| == |nb|;
      assert na == Notice(a).text[|pre|..|pre| + |na|];
      assert nb == Notice(b).text[|pre|..|pre| + |nb|];
    }
  }

  /** `handleLanguageChange(l)`: the transcript is replaced by one notice. */
  function ChangeLanguage(s: State, l: Lang): (r: State)
    ensures r.selectedLanguage == l
    ensures r.messages == [Notice(l)]
    ensures r.inputValue == s.inputValue && r.isLoading == s.isLoading
  {
    s.(selectedLanguage := l, messages := [Notice(l)])
  }

  /** The input box's `onChange`. */
  function TypeInput(s: State, text: string): (r: State)
    ensures r.inputValue == text
    ensures r.selectedLanguage == s.selectedLanguage && r.messages == s.messages && r.isLoading == s.isLoading
  {
    s.(inputValue := text)
  }

  /** The JSON body `handleSendMessage` posts to the chat route. */
  datatype ChatRequest = ChatRequest(message: string, language: string)

  /** `handleSendMessage`'s state once the request is on its way, and the
      request (`None` when it returned early). */
  datatype Sent = Sent(state: State, request: Option<ChatRequest>)

  /** Everything `handleSendMessage` does before its first `await`. */
  function BeginSend(s: State, sentAt: string): (r: Sent)
    ensures Blank(s.inputValue) ==> r == Sent(s, None)
    ensures !Blank(s.inputValue) ==>
      && r.request == Some(ChatRequest(s.inputValue, Code(s.selectedLanguage)))
      && r.state.isLoading && r.state.inputValue == ""
      && r.state.selectedLanguage == s.selectedLanguage
      && r.state.messages == s.messages + [Message(sentAt, s.inputValue, User, Some(s.selectedLanguage))]
  {
    if Trim(s.inputValue) == "" then Sent(s, None)
    else
      var user := Message(sentAt, s.inputValue, User, Some(s.selectedLanguage));
      Sent(s.(isLoading := true, messages := s.messages + [user], inputValue := ""),
           Some(ChatRequest(s.inputValue, Code(s.selectedLanguage))))
  }

  /** The text of the bot message the request ends with: the reply (or a
      fixed apology when the reply is falsy) on an ok response; otherwise the
      message of the error caught, which for a response that is not ok is
      the body's `error` or a fixed text. A truthy value that is not a
      string is shown as `String(value)`. */
  function BotText(reply: Reply): (t: string)
    ensures reply.Answered? && reply.ok && Truthy(Get(reply.body, "reply")) ==>
      t == ToText(Get(reply.body, "reply"))
    ensures reply.Answered? && reply.ok && Get(reply.body, "reply").Str? && Truthy(Get(reply.body, "reply")) ==>
      t == Get(reply.body, "reply").s
    ensures reply.Answered? && reply.ok && !Truthy(Get(reply.body, "reply")) ==> t == EmptyReplyText
    ensures reply.Answered? && !reply.ok && Truthy(Get(reply.body, "error")) ==>
      t == ToText(Get(reply.body, "error"))
    ensures reply.Answered? && !reply.ok && Get(reply.body, "error").Str? && Truthy(Get(reply.body, "error")) ==>
      t == Get(reply.body, "error").s
    ensures reply.Answered? && !reply.ok && !Truthy(Get(reply.body, "error")) ==> t == ResponseFailedText
    ensures reply.Rejected? && reply.e.ErrorValue? ==> t == reply.e.message
    ensures reply.Rejected? && !reply.e.ErrorValue? ==> t == NonErrorText
  {
    match reply
    case Answered(true, body) => ToText(Or(Get(body, "reply"), Str(EmptyReplyText)))
    case Answered(false, body) => ToText(Or(Get(body, "error"), Str(ResponseFailedText)))
    case Rejected(e) => if e.ErrorValue? then e.message else NonErrorText
  }

  /** The bot message's id: the time of the answer, tagged by outcome. */
  function BotId(reply: Reply, answeredAt: string): string {
    if reply.Answered? && reply.ok then answeredAt + "_bot" else answeredAt + "_error"
  }

  /** Everything after the `await`: one bot message, loading flag down. */
  function FinishSend(s: State, lang: Lang, answeredAt: string, reply: Reply): (r: State)
    ensures r.messages == s.messages + [Message(BotId(reply, answeredAt), BotText(reply), Bot, Some(lang))]
    ensures !r.isLoading
    ensures r.selectedLanguage == s.selectedLanguage && r.inputValue == s.inputValue
  {
    s.(messages := s.messages + [Message(BotId(reply, answeredAt), BotText(reply), Bot, Some(lang))], isLoading := false)
  }

  /** `handleSendMessage` run to completion. A blank input changes nothing
      and sends nothing. Otherwise it sends the exact input with the selected
      language, clears the input, and leaves the transcript it started from
      as a prefix followed by exactly the user's message and one bot
      message. */
  function Send(s: State, sentAt: string, answeredAt: string, reply: Reply): (r: Sent)
    ensures Blank(s.inputValue) ==> r == Sent(s, None)
    ensures !Blank(s.inputValue) ==>
      && r.request == Some(ChatRequest(s.inputValue, Code(s.selectedLanguage)))
      && |r.state.messages| == |s.messages| + 2
      && r.state.messages[..|s.messages|] == s.messages
      && r.state.messages[|s.messages|] == Message(sentAt, s.inputValue, User, Some(s.selectedLanguage))
      && r.state.messages[|s.messages| + 1].sender == Bot
      && r.state.messages[|s.messages| + 1].text == BotText(reply)
      && r.state.messages[|s.messages| + 1].language == Some(s.selectedLanguage)
      && r.state.inputValue == "" && !r.state.isLoading
      && r.state.selectedLanguage == s.selectedLanguage
  {
    var b := BeginSend(s, sentAt);
    if b.request.None? then b
    else
      var r := Sent(FinishSend(b.state, s.selectedLanguage, answeredAt, reply), b.request);
      assert r.state.messages == s.messages + [r.state.messages[|s.messages|], r.state.messages[|s.messages| + 1]];
      r
  }

  /** The send button is enabled with a non-blank input and no request in
      flight. */
  predicate SendEnabled(s: State) {
    !(Trim(s.inputValue) == "" || s.isLoading)
  }

  /** The Enter key calls `handleSendMessage` whenever no request is in
      flight, whatever the input. */
  predicate EnterEnabled(s: State) {
    !s.isLoading
  }

  /** The button and the Enter key agree: the button is enabled exactly when
      Enter is accepted and the send goes out, because `handleSendMessage`
      itself returns on a blank input; Enter on a blank input changes
      nothing. */
  lemma SendGuardsAgree(s: State, sentAt: string, answeredAt: string, reply: Reply)
    ensures SendEnabled(s) <==> EnterEnabled(s) && Send(s, sentAt, answeredAt, reply).request.Some?
    ensures EnterEnabled(s) && !SendEnabled(s) ==> Send(s, sentAt, answeredAt, reply).state == s
    ensures SendEnabled(s) ==>
      |Send(s, sentAt, answeredAt, reply).state.messages| == |s.messages| + 2
  {
  }

  /** A user action, with the outcome of its external effect. */
  datatype Event =
    | Type(text: string)
    | SelectLanguage(lang: Lang)
    | SendMessage(sentAt: string, answeredAt: string, reply: Reply)

  function Step(s: State, e: Event): State {
    match e
    case Type(text) => TypeInput(s, text)
    case SelectLanguage(l) => ChangeLanguage(s, l)
    case SendMessage(sentAt, answeredAt, reply) => Send(s, sentAt, answeredAt, reply).state
  }

  function Run(s: State, events: seq<Event>): State
    decreases |events|
  {
    if |events| == 0 then s else Run(Step(s, events[0]), events[1..])
  }

  /** What holds between user actions: nothing in flight, the transcript
      starts with a bot message (greeting or notice), every user message is
      non-blank, and every message that carries a language carries the
      selected one (the transcript is reset whenever it changes). */
  predicate Settled(s: State) {
    && !s.isLoading
    && |s.messages| > 0 && s.messages[0].sender == Bot
    && (forall i :: 0 <= i < |s.messages| && s.messages[i].sender == User ==> !Blank(s.messages[i].text))
    && (forall i :: 0 <= i < |s.messages| && s.messages[i].language.Some? ==>
          s.messages[i].language.value == s.selectedLanguage)
  }

  lemma InitialSettled()
    ensures Settled(Initial())
  {
  }

  lemma StepKeepsSettled(s: State, e: Event)
    requires Settled(s)
    ensures Settled(Step(s, e))
  {
  }

  /** Any sequence of user actions keeps the widget settled. */
  lemma {:induction false} RunKeepsSettled(s: State, events: seq<Event>)
    requires Settled(s)
    ensures Settled(Run(s, events))
    decreases |events|
  {
    if |events| > 0 {
      StepKeepsSettled(s, events[0]);
      RunKeepsSettled(Step(s, events[0]), events[1..]);
    }
  }

  predicate NoLanguageChange(events: seq<Event>) {
    forall i :: 0 <= i < |events| ==> !events[i].SelectLanguage?
  }

  /** Without a language change the transcript only grows: what was there
      stays as an unchanged prefix. */
  lemma {:induction false} TranscriptGrows(s: State, events: seq<Event>)
    requires NoLanguageChange(events)
    ensures s.messages <= Run(s, events).messages
    ensures Run(s, events).selectedLanguage == s.selectedLanguage
    decreases |events|
  {
    if |events| > 0 {
      var t := Step(s, events[0]);
      assert s.messages <= t.messages;
      assert NoLanguageChange(events[1..]) by {
        forall i | 0 <= i < |events[1..]| ensures !events[1..][i].SelectLanguage? {
          assert events[1..][i] == events[i + 1];
        }
      }
      TranscriptGrows(t, events[1..]);
    }
  }

  /** After a language change, the transcript starts with that change's
      notice until the next change, whatever is sent in between. */
  lemma {:induction false} NoticeStaysFirst(s: State, l: Lang, events: seq<Event>)
    requires NoLanguageChange(events)
    ensures var r := Run(ChangeLanguage(s, l), events);
            |r.messages| > 0 && r.messages[0] == Notice(l) && r.selectedLanguage == l
  {
    TranscriptGrows(ChangeLanguage(s, l), events);
  }
}
