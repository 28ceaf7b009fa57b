/**
 The `POST /api/analyze-report` handler
 (src/app/api/analyze-report/route.ts): validate `reportText`, embed its
 first 32000 characters in a fixed prompt, and map the model's answer or
 failure to a JSON response. The model call is the `outcome` argument.
 */
module AnalyzeReportRoute {
  import opened Js
  import opened Http

  const MaxReportChars := 32000
  const EmptyTextError := "No report text provided or text is empty."
  const FailureError := "Failed to analyze report"
  const UnknownDetails := "An unknown error occurred while analyzing the report."

  /** The template up to the report excerpt, byte for byte, including the
      trailing spaces and the four-space indentation of the source lines. */
  const PromptHead: string :=
    "Analyze the following blood report text and provide insights related to anemia. \n"
    + "    If numerical values are present for common anemia indicators (like Hemoglobin, RBC count, Hematocrit, MCV, MCH, MCHC, RDW), \n"
    + "    please highlight them and indicate if they are within typical reference ranges (assume standard adult ranges if not specified). \n"
    + "    Provide a summary of potential anemia-related concerns based *only* on the provided text. \n"
    + "    Do not provide medical advice or diagnosis. Strictly adhere to the information present in the report extract.\n"
    + "    Report Text:\n"
    + "    --- \n"
    + "    "

  /** The template after the report excerpt. */
  const PromptTail: string :=
    " \n"
    + "    --- \n"
    + "    Please provide the analysis in a clear, concise, and easy-to-understand format. Structure your response with clear headings for each section (e.g., ## Key Findings, ## Potential Concerns)."

  /** The request as the handler reads it: `req.json()` rejected (or the
      body could not be destructured), or the value of `reportText`. */
  datatype Request = Unreadable(e: Thrown) | Body(reportText: Field)

  /** The guard at route.ts:32: missing or falsy, not a string, or nothing
      left after `trim()`. It rejects exactly the values that are not a
      non-blank string. */
  function Rejects(reportText: Field): (b: bool)
    ensures b <==> !(reportText.Str? && !Blank(reportText.s))
  {
    !Truthy(reportText) || !reportText.Str? || |Trim(reportText.s)| == 0
  }

  /** `reportText.substring(0, 32000)`: the longest prefix of at most 32000
      characters. */
  function Excerpt(t: string): (r: string)
    ensures |r| == if |t| <= MaxReportChars then |t| else MaxReportChars
    ensures r <= t
  {
    Substring(t, 0, MaxReportChars)
  }

  /** Cutting never changes a text that already fits, and cutting twice is
      cutting once. */
  lemma ExcerptStable(t: string)
    ensures |t| <= MaxReportChars ==> Excerpt(t) == t
    ensures Excerpt(Excerpt(t)) == Excerpt(t)
  {
  }

  /** The prompt sent to the model for a report text. */
  function Prompt(t: string): (p: string)
    ensures |p| <= |PromptHead| + MaxReportChars + |PromptTail|
  {
    PromptHead + Excerpt(t) + PromptTail
  }

  /** What a prompt carries between the template's head and tail, if it has
      that shape. */
  function ReportOf(p: string): Option<string> {
    if |p| >= |PromptHead| + |PromptTail|
       && p[..|PromptHead|] == PromptHead
       && p[|p| - |PromptTail|..] == PromptTail
    then Some(p[|PromptHead|..|p| - |PromptTail|])
    else None
  }

  /** The prompt carries exactly the excerpt: the first min(|t|, 32000)
      characters of the report, and nothing past them. */
  lemma PromptCarriesExcerpt(t: string)
    ensures ReportOf(Prompt(t)) == Some(Excerpt(t))
  {
  }

  /** The `details` of a failure response: an `Error`'s message, a thrown
      string itself, or a fixed text for anything else. */
  function Details(e: Thrown): (d: string)
    ensures e.ErrorValue? ==> d == e.message
    ensures e.StringValue? ==> d == e.s
    ensures e.OtherValue? ==> d == UnknownDetails
  {
    match e
    case ErrorValue(m) => m
    case StringValue(s) => s
    case OtherValue => UnknownDetails
  }

  /** `POST` run to completion. Without a usable `reportText` it answers 400
      and never calls the model; otherwise it calls the model once with the
      prompt for that text and answers 200 with exactly the model's text or
      500 with the failure's details. Whatever throws, it answers 500. */
  function Post(req: Request, outcome: ModelOutcome): (h: Handled)
    ensures h.prompt.None? <==> (req.Unreadable? || !(req.reportText.Str? && !Blank(req.reportText.s)))
    ensures req.Unreadable? ==>
      h.response == Response(500, map["error" := FailureError, "details" := Details(req.e)])
    ensures req.Body? && h.prompt.None? ==> h.response == Response(400, map["error" := EmptyTextError])
    ensures h.prompt.Some? ==> ReportOf(h.prompt.value) == Some(Excerpt(req.reportText.s))
    ensures h.prompt.Some? && outcome.Generated? ==>
      h.response == Response(200, map["insights" := outcome.text])
    ensures h.prompt.Some? && outcome.ModelFailed? ==>
      h.response == Response(500, map["error" := FailureError, "details" := Details(outcome.e)])
  {
    match req
    case Unreadable(e) =>
      Handled(None, Response(500, map["error" := FailureError, "details" := Details(e)]))
    case Body(reportText) =>
      if Rejects(reportText) then
        Handled(None, Response(400, map["error" := EmptyTextError]))
      else
        var prompt := Prompt(reportText.s);
        PromptCarriesExcerpt(reportText.s);
        match outcome
        case Generated(text) => Handled(Some(prompt), Response(200, map["insights" := text]))
        case ModelFailed(e) =>
          Handled(Some(prompt), Response(500, map["error" := FailureError, "details" := Details(e)]))
  }

  /** When the model is not called, its outcome cannot matter. */
  lemma NoCallNoEffect(req: Request, o1: ModelOutcome, o2: ModelOutcome)
    ensures Post(req, o1).prompt.None? ==> Post(req, o1) == Post(req, o2)
  {
  }
}
