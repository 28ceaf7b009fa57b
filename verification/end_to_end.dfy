/**
 The components and the routes together: what a component posts is what
 the route reads, and what the route answers is what the component shows.
 */
module EndToEnd {
  import opened Js
  import opened Http
  import ReportUploader
  import Chatbot
  import AnalyzeReportRoute
  import ChatRoute

  /** The body `{ reportText }` the uploader posts, as the route reads it. */
  function AnalyzeRequest(text: string): AnalyzeReportRoute.Request {
    AnalyzeReportRoute.Body(Str(text))
  }

  /** The body `{ message, language }` the chat widget posts, as the route
      reads it. */
  function ChatRequest(r: Chatbot.ChatRequest): ChatRoute.Request {
    ChatRoute.Body(Str(r.message), Str(r.language))
  }

  /** The widget's language names and the route's agree on every code the
      widget sends. */
  lemma LanguageNamesAgree(l: Chatbot.Lang)
    ensures ChatRoute.LanguageName(Str(Chatbot.Code(l))) == Chatbot.LanguageName(l)
  {
  }

  /** A settled uploader that sends a report always gets past the route's
      validation, and the model sees the first 32000 characters of the text
      the file yielded. Whatever the model does, the uploader then shows
      exactly the model's text as insights, or the route's fixed failure
      text as its error: the route's `details` never reach the screen. */
  lemma AnalyzeRoundTrip(s: ReportUploader.State, outcome: ModelOutcome)
    requires ReportUploader.Settled(s) && ReportUploader.HasText(s)
    ensures var text := s.extractedText.value;
            var h := AnalyzeReportRoute.Post(AnalyzeRequest(text), outcome);
            && h.prompt.Some?
            && AnalyzeReportRoute.ReportOf(h.prompt.value) == Some(AnalyzeReportRoute.Excerpt(text))
            && text == ReportUploader.FileText(s.file.value).value
    ensures var h := AnalyzeReportRoute.Post(AnalyzeRequest(s.extractedText.value), outcome);
            var r := ReportUploader.Analyze(s, Deliver(h.response)).state;
            && (outcome.Generated? ==> r.insights == Str(outcome.text) && r.error.None?)
            && (outcome.ModelFailed? ==> r.error == Some(AnalyzeReportRoute.FailureError) && r.insights == Absent)
            && ReportUploader.Settled(r)
  {
    var text := s.extractedText.value;
    var h := AnalyzeReportRoute.Post(AnalyzeRequest(text), outcome);
    assert h.prompt.Some?;
    var reply := Deliver(h.response);
    if outcome.ModelFailed? {
      assert "error" in h.response.body && !reply.ok;
      assert Get(reply.body, "error") == Str(AnalyzeReportRoute.FailureError);
      assert ReportUploader.AnalysisError(reply) == AnalyzeReportRoute.FailureError;
    }
  }

  /** A non-blank message always gets past the chat route's validation, and
      the model is asked in the widget's language about the exact text
      typed. */
  lemma ChatRequestAccepted(s: Chatbot.State, sentAt: string, outcome: ModelOutcome)
    requires !Blank(s.inputValue)
    ensures var req := Chatbot.BeginSend(s, sentAt).request.value;
            var h := ChatRoute.Post(ChatRequest(req), outcome);
            h.prompt == Some(ChatRoute.Prompt(s.inputValue, Chatbot.LanguageName(s.selectedLanguage)))
  {
    var req := Chatbot.BeginSend(s, sentAt).request.value;
    LanguageNamesAgree(s.selectedLanguage);
    assert Truthy(Str(req.message)) && Truthy(Str(req.language));
  }

  /** The bot message that ends a send shows the model's text (the apology
      when that text is empty), or the route's fixed failure text: the
      route's `details` never reach the transcript. */
  lemma ChatReplyShown(req: Chatbot.ChatRequest, outcome: ModelOutcome)
    requires req.message != "" && req.language != ""
    ensures var h := ChatRoute.Post(ChatRequest(req), outcome);
            var t := Chatbot.BotText(Deliver(h.response));
            && (outcome.Generated? && outcome.text != "" ==> t == outcome.text)
            && (outcome.Generated? && outcome.text == "" ==> t == Chatbot.EmptyReplyText)
            && (outcome.ModelFailed? ==> t == ChatRoute.FailureError)
  {
  }

  /** A whole non-blank send against the route: the transcript gains the
      user's message and one bot message with the model's text, the apology
      when that text is empty, or the route's failure text. */
  lemma ChatRoundTrip(s: Chatbot.State, sentAt: string, answeredAt: string, outcome: ModelOutcome)
    requires !Blank(s.inputValue)
    ensures var req := Chatbot.BeginSend(s, sentAt).request.value;
            var h := ChatRoute.Post(ChatRequest(req), outcome);
            var r := Chatbot.Send(s, sentAt, answeredAt, Deliver(h.response)).state;
            && |r.messages| == |s.messages| + 2
            && r.messages[|s.messages|].text == s.inputValue
            && (outcome.Generated? && outcome.text != "" ==> r.messages[|s.messages| + 1].text == outcome.text)
            && (outcome.Generated? && outcome.text == "" ==> r.messages[|s.messages| + 1].text == Chatbot.EmptyReplyText)
            && (outcome.ModelFailed? ==> r.messages[|s.messages| + 1].text == ChatRoute.FailureError)
  {
  }
}
