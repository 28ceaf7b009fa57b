/**
 The report uploader (src/components/report-uploader.tsx): one state record
 and the handlers `parsePdf`, `onDrop`, `handleRemoveFile` and
 `handleAnalyze`, each an atomic transition whose external effect (what the
 PDF library finds in the file, what the dropzone accepted or rejected, what
 the analysis request returned) is an argument.
 */
module ReportUploader {
  import opened Js
  import opened Http
  import PdfText

  const NoTextMessage := "Could not extract text from PDF. It might be an image-based PDF or empty."
  const ParseFailedMessage := "Failed to parse PDF. Ensure it is a valid, non-corrupted PDF file."
  const TooLargeMessage := "File is too large. Maximum size is 10MB."
  const InvalidTypeMessage := "Invalid file type. Please upload a PDF."
  const ReparseMessage := "Could not extract text from the PDF. Please try re-uploading or use a different file."
  const NoFileMessage := "Please select a PDF file first."
  const AnalyzeFailedMessage := "Failed to analyze report"
  const AnalysisErrorMessage := "An error occurred during analysis."
  /** The dropzone's rejection code for an oversized file. */
  const TooLargeCode := "file-too-large"
  /** The dropzone's configured limit; the dropzone enforces it, this code
      only sees the rejection codes. */
  const MaxFileSize := 10 * 1024 * 1024

  /** What the PDF library makes of a file's bytes: an exception somewhere
      while reading or parsing, or the text items of each page. */
  datatype Content = Unparseable | Pages(pages: seq<seq<string>>)

  /** A selected file. Its content is a function of its bytes, so parsing
      the same file twice finds the same pages. */
  datatype Upload = Upload(name: string, size: nat, content: Content)

  /** A file the dropzone refused, with the codes of its errors in order. */
  datatype Rejection = Rejection(file: Upload, codes: seq<string>)

  /** The component's state; `insights` holds whatever `result.insights`
      was (`Absent` for `null`). */
  datatype State = State(
    file: Option<Upload>,
    extractedText: Option<string>,
    error: Option<string>,
    insights: Field,
    isParsing: bool,
    isLoading: bool)

  const Initial := State(None, None, None, Absent, false, false)

  /** `extractedText` is truthy. */
  predicate HasText(s: State) {
    s.extractedText.Some? && s.extractedText.value != ""
  }

  /** The text the file yields, when it yields any: `None` when the PDF
      library throws or when the assembled text is blank. */
  function FileText(f: Upload): (t: Option<string>)
    ensures t.None? <==> (f.content.Unparseable? || PdfText.NoTextItems(f.content.pages))
    ensures t.Some? ==> t.value == PdfText.Assemble(f.content.pages) && !Blank(t.value)
  {
    match f.content
    case Unparseable => None
    case Pages(pages) =>
      var text := PdfText.Assemble(pages);
      PdfText.AssembleBlank(pages);
      if Trim(text) == "" then None else Some(text)
  }

  /** `parsePdf`'s entry: the parsing flag goes up, and error, insights and
      extracted text are cleared. */
  function BeginParse(s: State): (r: State)
    ensures r.isParsing && r.error.None? && r.insights == Absent && r.extractedText.None?
    ensures r.file == s.file && r.isLoading == s.isLoading
  {
    s.(isParsing := true, error := None, insights := Absent, extractedText := None)
  }

  /** `parsePdf`'s new state and the value it returns (`None` for `null`). */
  datatype Parsed = Parsed(state: State, text: Option<string>)

  /** `parsePdf(f)` run to completion. */
  function ParsePdf(s: State, f: Upload): (p: Parsed)
    ensures !p.state.isParsing && p.state.isLoading == s.isLoading
    ensures p.state.insights == Absent
    ensures p.text == p.state.extractedText
    ensures f.content.Unparseable? ==>
      p.state.error == Some(ParseFailedMessage) && p.state.file.None? && p.text.None?
    ensures f.content.Pages? && PdfText.NoTextItems(f.content.pages) ==>
      p.state.error == Some(NoTextMessage) && p.state.file.None? && p.text.None?
    ensures f.content.Pages? && !PdfText.NoTextItems(f.content.pages) ==>
      && p.text == Some(PdfText.Assemble(f.content.pages))
      && p.state.error.None? && p.state.file == s.file
  {
    var entered := BeginParse(s);
    match f.content
    case Unparseable =>
      Parsed(entered.(error := Some(ParseFailedMessage), file := None, isParsing := false), None)
    case Pages(pages) =>
      var text := PdfText.Assemble(pages);
      PdfText.AssembleBlank(pages);
      if Trim(text) == "" then
        Parsed(entered.(error := Some(NoTextMessage), file := None, isParsing := false), None)
      else
        Parsed(entered.(extractedText := Some(text), isParsing := false), Some(text))
  }

  /** What `onDrop` clears before looking at the files. */
  function ClearForDrop(s: State): State {
    s.(error := None, insights := Absent, extractedText := None, file := None)
  }

  /** The error for the first rejected file: the size message when its first
      error code is `file-too-large`, the type message otherwise (also when
      it has no error code at all). */
  function RejectionMessage(r: Rejection): (m: string)
    ensures m == TooLargeMessage <==> (|r.codes| > 0 && r.codes[0] == TooLargeCode)
    ensures m == TooLargeMessage || m == InvalidTypeMessage
  {
    if |r.codes| > 0 && r.codes[0] == TooLargeCode then TooLargeMessage else InvalidTypeMessage
  }

  /** `onDrop(accepted, rejected)` run to completion. */
  function Drop(s: State, accepted: seq<Upload>, rejected: seq<Rejection>): (r: State)
    ensures r.insights == Absent && r.isLoading == s.isLoading
    ensures |rejected| > 0 ==>
      && r.file.None? && r.extractedText.None?
      && r.error == Some(RejectionMessage(rejected[0]))
      && r.isParsing == s.isParsing
    ensures |rejected| == 0 && |accepted| == 0 ==>
      r == s.(error := None, insights := Absent, extractedText := None, file := None)
    ensures |rejected| == 0 && |accepted| > 0 ==>
      r == ParsePdf(s.(error := None, insights := Absent, extractedText := None, file := Some(accepted[0])), accepted[0]).state
    ensures r.file.Some? ==> |rejected| == 0 && |accepted| > 0 && r.file == Some(accepted[0]) && r.error.None?
    ensures r.extractedText.Some? <==> r.file.Some?
  {
    var cleared := ClearForDrop(s);
    if |rejected| > 0 then
      cleared.(error := Some(RejectionMessage(rejected[0])))
    else if |accepted| > 0 then
      ParsePdf(cleared.(file := Some(accepted[0])), accepted[0]).state
    else
      cleared
  }

  /** `handleRemoveFile`: back to no file, no text, no error and no
      insights, whatever is in flight. */
  function Remove(s: State): (r: State)
    ensures r.file.None? && r.extractedText.None? && r.error.None? && r.insights == Absent
    ensures r.isParsing == s.isParsing && r.isLoading == s.isLoading
  {
    s.(file := None, error := None, insights := Absent, extractedText := None)
  }

  /** `handleAnalyze`'s state once it decides to send: the loading flag goes
      up, error and insights are cleared. */
  function BeginAnalyze(s: State): (r: State)
    ensures r.isLoading && r.error.None? && r.insights == Absent
    ensures r.file == s.file && r.extractedText == s.extractedText && r.isParsing == s.isParsing
  {
    s.(isLoading := true, error := None, insights := Absent)
  }

  /** `err.message || 'An error occurred during analysis.'` for the error the
      catch block receives: the rejection of `fetch`/`response.json()`, or
      the `Error` thrown for a response that is not ok, whose message is the
      body's `error`, else its `details`, else a fixed text. A truthy value
      that is not a string becomes the message `String(value)`, and an empty
      message falls back to the catch block's fixed text. */
  function AnalysisError(reply: Reply): (m: string)
    requires !(reply.Answered? && reply.ok)
    ensures m != ""
    ensures reply.Rejected? && reply.e.ErrorValue? && reply.e.message != "" ==> m == reply.e.message
    ensures reply.Rejected? && !(reply.e.ErrorValue? && reply.e.message != "") ==> m == AnalysisErrorMessage
    ensures reply.Answered? && Truthy(Get(reply.body, "error")) ==>
      m == (if ToText(Get(reply.body, "error")) != "" then ToText(Get(reply.body, "error")) else AnalysisErrorMessage)
    ensures reply.Answered? && !Truthy(Get(reply.body, "error")) && Truthy(Get(reply.body, "details")) ==>
      m == (if ToText(Get(reply.body, "details")) != "" then ToText(Get(reply.body, "details")) else AnalysisErrorMessage)
    ensures reply.Answered? && Get(reply.body, "error").Str? && Truthy(Get(reply.body, "error")) ==>
      m == Get(reply.body, "error").s
    ensures reply.Answered? && !Truthy(Get(reply.body, "error"))
            && Get(reply.body, "details").Str? && Truthy(Get(reply.body, "details")) ==>
      m == Get(reply.body, "details").s
    ensures reply.Answered? && !Truthy(Get(reply.body, "error")) && !Truthy(Get(reply.body, "details")) ==>
      m == AnalyzeFailedMessage
  {
    var message :=
      match reply
      case Rejected(e) => if e.ErrorValue? then e.message else ""
      case Answered(_, body) =>
        ToText(Or(Or(Get(body, "error"), Get(body, "details")), Str(AnalyzeFailedMessage)));
    if message != "" then message else AnalysisErrorMessage
  }

  /** The `try`/`catch`/`finally` after the request: insights on an ok
      response, an error otherwise, and the loading flag down either way. */
  function FinishAnalyze(s: State, reply: Reply): (r: State)
    ensures !r.isLoading
    ensures r.file == s.file && r.extractedText == s.extractedText && r.isParsing == s.isParsing
    ensures reply.Answered? && reply.ok ==> r.insights == Get(reply.body, "insights") && r.error == s.error
    ensures !(reply.Answered? && reply.ok) ==> r.error == Some(AnalysisError(reply)) && r.insights == s.insights
  {
    match reply
    case Answered(true, body) => s.(insights := Get(body, "insights"), isLoading := false)
    case _ => s.(error := Some(AnalysisError(reply)), isLoading := false)
  }

  /** `handleAnalyze`'s new state and the `reportText` it sent, if any. */
  datatype Analyzed = Analyzed(state: State, sent: Option<string>)

  /** `handleAnalyze` run to completion. It sends exactly when the extracted
      text is non-empty, and then sends that text. Without text: with no
      file it asks for one; with a file and no parse running it re-parses,
      and the re-parse message it sets first is overwritten at once by
      `parsePdf` clearing the error; with a parse running it does nothing. */
  function Analyze(s: State, reply: Reply): (a: Analyzed)
    ensures a.sent.Some? <==> HasText(s)
    ensures HasText(s) ==>
      && a.sent == s.extractedText
      && a.state.file == s.file && a.state.extractedText == s.extractedText
      && a.state.isParsing == s.isParsing && !a.state.isLoading
    ensures HasText(s) && reply.Answered? && reply.ok ==>
      a.state.insights == Get(reply.body, "insights") && a.state.error.None?
    ensures HasText(s) && !(reply.Answered? && reply.ok) ==>
      a.state.error == Some(AnalysisError(reply)) && a.state.insights == Absent
    ensures !HasText(s) && s.file.None? ==> a.state == s.(error := Some(NoFileMessage))
    ensures !HasText(s) && s.file.Some? && !s.isParsing ==> a.state == ParsePdf(s, s.file.value).state
    ensures !HasText(s) && s.file.Some? && s.isParsing ==> a.state == s
  {
    if !HasText(s) then
      if s.file.Some? && !s.isParsing then
        var p := ParsePdf(s.(error := Some(ReparseMessage)), s.file.value);
        Analyzed(p.state, None)
      else if s.file.None? then
        Analyzed(s.(error := Some(NoFileMessage)), None)
      else
        Analyzed(s, None)
    else
      Analyzed(FinishAnalyze(BeginAnalyze(s), reply), s.extractedText)
  }

  /** The Analyze and Remove buttons are rendered only with a file present
      and no parse running. */
  predicate ButtonsShown(s: State) {
    !s.isParsing && s.file.Some?
  }

  /** The Analyze button: shown, and not disabled by
      `isLoading || isParsing || (!extractedText && !file)`. */
  predicate AnalyzeEnabled(s: State) {
    ButtonsShown(s) && !(s.isLoading || s.isParsing || (!HasText(s) && s.file.None?))
  }

  /** The Remove button: shown, and not disabled by `isLoading || isParsing`. */
  predicate RemoveEnabled(s: State) {
    ButtonsShown(s) && !(s.isLoading || s.isParsing)
  }

  /** A user action, with the outcome of its external effect. */
  datatype Event =
    | DropFiles(accepted: seq<Upload>, rejected: seq<Rejection>)
    | RemoveFile
    | AnalyzeReport(reply: Reply)

  function Step(s: State, e: Event): State {
    match e
    case DropFiles(accepted, rejected) => Drop(s, accepted, rejected)
    case RemoveFile => Remove(s)
    case AnalyzeReport(reply) => Analyze(s, reply).state
  }

  function Run(s: State, events: seq<Event>): State
    decreases |events|
  {
    if |events| == 0 then s else Run(Step(s, events[0]), events[1..])
  }

  /** What holds between user actions: nothing in flight; a file is present
      exactly when extracted text is, and that text is what the file yields;
      insights are only present beside a file and never beside an error. */
  predicate Settled(s: State) {
    && !s.isParsing && !s.isLoading
    && (s.file.Some? <==> s.extractedText.Some?)
    && (s.file.Some? ==> FileText(s.file.value) == s.extractedText)
    && (s.insights != Absent ==> s.file.Some? && s.error.None?)
  }

  lemma InitialSettled()
    ensures Settled(Initial)
  {
  }

  /** Every user action keeps the uploader settled. */
  lemma StepKeepsSettled(s: State, e: Event)
    requires Settled(s)
    ensures Settled(Step(s, e))
  {
  }

  /** Any sequence of user actions keeps the uploader settled. */
  lemma {:induction false} RunKeepsSettled(s: State, events: seq<Event>)
    requires Settled(s)
    ensures Settled(Run(s, events))
    decreases |events|
  {
    if |events| > 0 {
      StepKeepsSettled(s, events[0]);
      RunKeepsSettled(Step(s, events[0]), events[1..]);
    }
  }

  /** In a settled uploader the re-parse branch of `handleAnalyze` is dead:
      a present file always comes with its text, so analyzing either sends
      that text or, with no file, only asks for one. */
  lemma ReparseUnreachable(s: State, reply: Reply)
    requires Settled(s)
    ensures s.file.Some? ==> HasText(s)
    ensures Analyze(s, reply).sent.Some? || Analyze(s, reply).state == s.(error := Some(NoFileMessage))
  {
  }

  /** A settled uploader whose Analyze button can be clicked sends the
      extracted text. */
  lemma EnabledAnalyzeSends(s: State, reply: Reply)
    requires Settled(s) && AnalyzeEnabled(s)
    ensures Analyze(s, reply).sent == s.extractedText
    ensures Analyze(s, reply).sent.Some?
  {
  }

  /** In a settled uploader the Remove button can be clicked exactly when a
      file is present, and clicking it restores the initial state. */
  lemma EnabledRemoveResets(s: State)
    requires Settled(s)
    ensures RemoveEnabled(s) <==> s.file.Some?
    ensures RemoveEnabled(s) ==> Step(s, RemoveFile) == Initial
  {
  }

  /** Parsing depends on the file alone, and parsing the same file again
      changes nothing. */
  lemma ParseIdempotent(s: State, t: State, f: Upload)
    ensures ParsePdf(s, f).text == ParsePdf(t, f).text
    ensures ParsePdf(ParsePdf(s, f).state, f) == ParsePdf(s, f)
  {
  }

  /** Removing the file from an idle uploader restores the initial state,
      and removing twice is removing once. */
  lemma RemoveResets(s: State)
    ensures !s.isParsing && !s.isLoading ==> Remove(s) == Initial
    ensures Remove(Remove(s)) == Remove(s)
  {
  }
}
