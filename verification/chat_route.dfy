/**
 The `POST /api/chat` handler (src/app/api/chat/route.ts): require
 `message` and `language`, build a prompt naming the language and quoting
 the message, and map the model's answer or failure to a JSON response. The
 model call is the `outcome` argument.
 */
module ChatRoute {
  import opened Js
  import opened Http

  const MissingFieldsError := "Message and language are required"
  const FailureError := "Failed to get response from AI"
  const UnknownDetails := "An unknown error occurred"

  /** The template up to the language name. */
  const PromptHead: string :=
    "You are an AI assistant specializing in anemia. \n"
    + "    The user is asking in "

  /** The template between the language name and the question. */
  const PromptMiddle: string :=
    ".\n"
    + "    Please respond helpfully and concisely in the user's selected language.\n"
    + "    User's question: \""

  /** The request as the handler reads it: `req.json()` rejected (or the
      body could not be destructured), or the values of its two fields. */
  datatype Request = Unreadable(e: Thrown) | Body(message: Field, language: Field)

  /** `language === "en" ? "English" : language === "hi" ? "Hindi" : "Kannada"`,
      a strict comparison, so anything but those two strings is Kannada. */
  function LanguageName(language: Field): (name: string)
    ensures name == "English" <==> language == Str("en")
    ensures name == "Hindi" <==> language == Str("hi")
    ensures name == "Kannada" <==> language != Str("en") && language != Str("hi")
  {
    if language == Str("en") then "English" else if language == Str("hi") then "Hindi" else "Kannada"
  }

  predicate IsLanguageName(name: string) {
    name == "English" || name == "Hindi" || name == "Kannada"
  }

  /** The prompt for a question in a language: it ends with the question
      verbatim between double quotes. */
  function Prompt(message: string, name: string): (p: string)
    ensures |p| >= |message| + 2
    ensures p[|p| - 1] == '"' && p[|p| - |message| - 2] == '"'
    ensures p[|p| - |message| - 1..|p| - 1] == message
  {
    var p := PromptHead + name + PromptMiddle + message + "\"";
    assert p[|p| - |message| - 2] == PromptMiddle[|PromptMiddle| - 1];
    p
  }

  /** The prompt is the head, then the name, then everything from the full
      stop on. */
  lemma PromptShape(m: string, n: string)
    ensures Prompt(m, n) == PromptHead + (n + (PromptMiddle + m + "\""))
  {
  }

  /** A language name followed by text starting with a full stop determines
      the name: the three names differ in their first letter. */
  lemma NameBeforeFullStop(n1: string, r1: string, n2: string, r2: string)
    requires IsLanguageName(n1) && IsLanguageName(n2)
    requires |r1| > 0 && r1[0] == '.' && |r2| > 0 && r2[0] == '.'
    requires n1 + r1 == n2 + r2
    ensures n1 == n2
  {
    var x := n1 + r1;
    assert x[0] == n1[0] && x[0] == (n2 + r2)[0] == n2[0];
  }

  /** The language name and the question can be read back from the prompt:
      different (name, question) pairs never give the same prompt. */
  lemma PromptInjective(m1: string, n1: string, m2: string, n2: string)
    requires IsLanguageName(n1) && IsLanguageName(n2)
    requires Prompt(m1, n1) == Prompt(m2, n2)
    ensures n1 == n2 && m1 == m2
  {
    var p := Prompt(m1, n1);
    var r1 := PromptMiddle + m1 + "\"";
    var r2 := PromptMiddle + m2 + "\"";
    PromptShape(m1, n1);
    PromptShape(m2, n2);
    assert n1 + r1 == p[|PromptHead|..] == n2 + r2;
    assert r1[0] == '.' && r2[0] == '.';
    NameBeforeFullStop(n1, r1, n2, r2);
    assert r1 == r2;
    assert m1 == r1[|PromptMiddle|..|r1| - 1];
    assert m2 == r2[|PromptMiddle|..|r2| - 1];
  }

  /** The `details` of a failure response: an `Error`'s message, or a fixed
      text for anything else thrown. */
  function Details(e: Thrown): (d: string)
    ensures e.ErrorValue? ==> d == e.message
    ensures !e.ErrorValue? ==> d == UnknownDetails
  {
    if e.ErrorValue? then e.message else UnknownDetails
  }

  /** `POST` run to completion. With `message` or `language` falsy it
      answers 400 and never calls the model; otherwise it calls the model
      once with the prompt naming the language and quoting the message, and
      answers 200 with exactly the model's text or 500 with the failure's
      details. Whatever throws, it answers 500. */
  function Post(req: Request, outcome: ModelOutcome): (h: Handled)
    ensures h.prompt.None? <==> (req.Unreadable? || !Truthy(req.message) || !Truthy(req.language))
    ensures req.Unreadable? ==>
      h.response == Response(500, map["error" := FailureError, "details" := Details(req.e)])
    ensures req.Body? && h.prompt.None? ==> h.response == Response(400, map["error" := MissingFieldsError])
    ensures h.prompt.Some? ==> h.prompt.value == Prompt(ToText(req.message), LanguageName(req.language))
    ensures h.prompt.Some? && outcome.Generated? ==>
      h.response == Response(200, map["reply" := outcome.text])
    ensures h.prompt.Some? && outcome.ModelFailed? ==>
      h.response == Response(500, map["error" := FailureError, "details" := Details(outcome.e)])
  {
    match req
    case Unreadable(e) =>
      Handled(None, Response(500, map["error" := FailureError, "details" := Details(e)]))
    case Body(message, language) =>
      if !Truthy(message) || !Truthy(language) then
        Handled(None, Response(400, map["error" := MissingFieldsError]))
      else
        var prompt := Prompt(ToText(message), LanguageName(language));
        match outcome
        case Generated(text) => Handled(Some(prompt), Response(200, map["reply" := text]))
        case ModelFailed(e) =>
          Handled(Some(prompt), Response(500, map["error" := FailureError, "details" := Details(e)]))
  }
}
