# Anemia support: uploader, chat and API routes in Dafny

This project models the part of the anemia-support web app that has
behaviour worth stating precisely:

- the **report uploader** (`src/components/report-uploader.tsx`): its state
  record (`file`, `extractedText`, `error`, `insights`, `isParsing`,
  `isLoading`), the way `parsePdf` assembles page text, and the handlers
  `parsePdf`, `onDrop`, `handleRemoveFile` and `handleAnalyze` with the
  button guards;
- the **chat widget** (`src/components/chatbot.tsx`): selected language,
  transcript, input and loading flag, with `handleLanguageChange`,
  `handleSendMessage` and the language-name mapping;
- the two **API routes** (`src/app/api/analyze-report/route.ts`,
  `src/app/api/chat/route.ts`): request validation, the prompts (the report
  cut to its first 32000 characters; the language named and the question
  quoted) and the mapping of model success or failure to a 200, 400 or 500
  JSON response.

Every handler is a pure function from the state, the event and the outcome
of its external effect to the new state (and, where it sends something, what
it sent). The effects are datatypes:

- what the PDF library makes of a file: `Unparseable`, or the pages, each a
  sequence of text-item strings;
- what the dropzone accepted, and which files it rejected with which codes;
- what `fetch` + `response.json()` returned: a rejection, or `ok` and a JSON
  object;
- what the model call returned: generated text, or a thrown `Error`, string
  or other value.

JavaScript semantics the code relies on are written out in `Js`:
truthiness, `||` on JSON values, `String(...)`, the whitespace set of
`trim`, and the clamping of `substring`.

Files:

- `js.dfy`: module `Js`, the JavaScript semantics above.
- `http.dfy`: module `Http`, responses, replies and model outcomes.
- `pdf_text.dfy`: module `PdfText`, page-text assembly.
- `report_uploader.dfy`: module `ReportUploader`.
- `chatbot.dfy`: module `Chatbot`.
- `analyze_route.dfy`: module `AnalyzeReportRoute`.
- `chat_route.dfy`: module `ChatRoute`.
- `end_to_end.dfy`: module `EndToEnd`, which feeds component requests to the
  routes and route responses back to the components.

Behaviour of the code worth knowing:

- A page with one text item adds that item and a newline, so two one-item
  pages give `"Hb: 13.5 g/dL\nRBC: 4.8\n"` (`PdfText.AssembleExamples`).
- `onDrop` clears file, text, insights and error *before* it looks at
  rejections, so a rejected drop also discards the previous document.
- A failed analysis shows the body's `error` first. The route always sets
  it to "Failed to analyze report", so the service's own message (in
  `details`) never reaches the screen (`EndToEnd.AnalyzeRoundTrip`). The chat
  widget behaves the same way (`EndToEnd.ChatReplyShown`).
- The re-parse branch of `handleAnalyze` cannot be reached when each handler
  runs to completion. Between handlers a file is present exactly when its
  extracted text is (`ReportUploader.Settled`,
  `ReportUploader.ReparseUnreachable`). When the branch does run, the
  message it sets is cleared at once by `parsePdf`'s entry.

## Model

| member | source | states |
|---|---|---|
| Js.Trim | src/components/chatbot.tsx:42 | `trim()` yields the slice between leading and trailing whitespace, and it is empty exactly when the string is blank |
| Js.Substring | src/app/api/analyze-report/route.ts:43 | `substring(start, end)` is the slice between the bounds clamped to `[0, length]`, taken in either order, for every placement of each bound (negative, inside, past the end), and never longer than the string |
| Js.SubstringSymmetric | src/app/api/analyze-report/route.ts:43 | swapping the two bounds never changes the result |
| PdfText.ExtractText | src/components/report-uploader.tsx:33-38 | the page loop builds exactly the in-order concatenation of (items joined by single spaces + newline); with at least one page the text ends in a newline |
| PdfText.AssembleConcat | src/components/report-uploader.tsx:34-38 | the text of pages p followed by pages q is the text of p followed by the text of q |
| PdfText.AssembleShape | src/components/report-uploader.tsx:34-38 | the text has at least one character per page and, with n ≥ 1 pages, ends in a newline |
| PdfText.JoinBlank | src/components/report-uploader.tsx:37 | the space-joined items are blank iff every item is blank |
| PdfText.AssembleBlank | src/components/report-uploader.tsx:37-39 | the assembled text is blank (including zero pages) iff no page has an item with a non-whitespace character |
| PdfText.AssembleExamples | src/components/report-uploader.tsx:33-38 | two-page and multi-item reports assemble to the expected strings; zero pages give the empty string |
| ReportUploader.FileText | src/components/report-uploader.tsx:32-43 | a file yields text iff the library parses it and some item has a non-whitespace character; the text is then the assembled text and is not blank |
| ReportUploader.BeginParse | src/components/report-uploader.tsx:26-29 | while parsing, the flag is up and error, insights and extracted text are cleared |
| ReportUploader.ParsePdf | src/components/report-uploader.tsx:25-54 | parse failure: parse message, file and text cleared; blank text: no-text message, file cleared, text stays null; otherwise text = assembled text, error and insights null; parsing flag down after every outcome |
| ReportUploader.RejectionMessage | src/components/report-uploader.tsx:62-67 | the size message iff the first rejected file's first code is `file-too-large`, else the type message |
| ReportUploader.Drop | src/components/report-uploader.tsx:56-75 | any rejection wins: no file, no text, the rejection message; else the first accepted file is stored and parsed; no files at all just clears; a file survives only when accepted and parsed, and then with its text and no error |
| ReportUploader.Remove | src/components/report-uploader.tsx:84-89 | file, text, error and insights are null, and the two busy flags are unchanged |
| ReportUploader.RemoveResets | src/components/report-uploader.tsx:84-89 | removing from an idle uploader gives the initial state; removing twice equals removing once |
| ReportUploader.BeginAnalyze | src/components/report-uploader.tsx:103-105 | while the request is out, the loading flag is up and error and insights are cleared |
| ReportUploader.AnalysisError | src/components/report-uploader.tsx:116-125 | the error shown is the body's `error`, else its `details`, else "Failed to analyze report", a truthy non-string value shown as its `String()` form and an empty form replaced by the generic text; for a rejected request the error's message, else the generic text; never empty |
| ReportUploader.FinishAnalyze | src/components/report-uploader.tsx:116-128 | ok: insights = the body's `insights`; not ok or rejected: the error above; loading flag down either way, file and text untouched |
| ReportUploader.Analyze | src/components/report-uploader.tsx:91-129 | a request is sent iff extracted text is non-empty, and it carries that text; no text and no file: "Please select a PDF file first."; no text with a file: the result of re-parsing, never a request (unchanged while a parse is running) |
| ReportUploader.InitialSettled | src/components/report-uploader.tsx:18-23 | the initial state is settled |
| ReportUploader.StepKeepsSettled | src/components/report-uploader.tsx:56-129 | drop, remove and analyze each keep the uploader settled: idle, file present iff its text is, that text what the file yields, insights only beside a file and never beside an error |
| ReportUploader.RunKeepsSettled | src/components/report-uploader.tsx:56-129 | any sequence of user actions keeps the uploader settled |
| ReportUploader.ReparseUnreachable | src/components/report-uploader.tsx:92-101 | in a settled uploader a file always has its text, so analyze either sends or only asks for a file |
| ReportUploader.EnabledAnalyzeSends | src/components/report-uploader.tsx:167-173 | clicking an enabled Analyze button in a settled uploader sends the extracted text |
| ReportUploader.EnabledRemoveResets | src/components/report-uploader.tsx:179-187 | in a settled uploader the Remove button is enabled exactly when a file is present, and clicking it restores the initial state |
| ReportUploader.ParseIdempotent | src/components/report-uploader.tsx:25-54 | parsing depends on the file alone, and parsing the same file again changes nothing |
| Chatbot.LanguageName | src/components/chatbot.tsx:35 | en ↔ English, hi ↔ Hindi, kn ↔ Kannada, in both directions |
| Chatbot.Initial | src/components/chatbot.tsx:18-28 | the widget starts in English with exactly one English bot greeting and an empty input |
| Chatbot.NoticeInjective | src/components/chatbot.tsx:32-38 | two language-change notices are equal iff their languages are |
| Chatbot.ChangeLanguage | src/components/chatbot.tsx:30-39 | the selected language is set and the transcript is exactly one bot notice naming it; input and loading flag unchanged |
| Chatbot.TypeInput | src/components/chatbot.tsx:157 | typing sets the input and changes nothing else |
| Chatbot.BeginSend | src/components/chatbot.tsx:41-63 | blank input: nothing changes and nothing is sent; otherwise the loading flag is up, one user message with the exact input and current language is appended, the input is cleared, and the exact input is sent with the language code |
| Chatbot.BotText | src/components/chatbot.tsx:65-87 | ok: the reply, or the apology when it is falsy; not ok: the body's `error`, or "Failed to get response from AI"; a truthy non-string value is shown as its `String()` form; rejected: the error's message, or the generic text for a non-`Error` |
| Chatbot.FinishSend | src/components/chatbot.tsx:70-90 | exactly one bot message in the sending language is appended and the loading flag goes down |
| Chatbot.Send | src/components/chatbot.tsx:41-91 | a non-blank send leaves the old transcript as a prefix followed by exactly the user's message and one bot message; a blank one changes nothing |
| Chatbot.SendGuardsAgree | src/components/chatbot.tsx:158-162 | the send button is enabled exactly when the Enter key (guarded only by `!isLoading`) is accepted and a request goes out; Enter on a blank input changes nothing; an enabled send adds two messages |
| Chatbot.InitialSettled | src/components/chatbot.tsx:18-28 | the initial widget is settled |
| Chatbot.StepKeepsSettled | src/components/chatbot.tsx:30-91 | each action keeps the widget settled: idle, transcript starts with a bot message, user messages non-blank, every tagged message in the selected language |
| Chatbot.RunKeepsSettled | src/components/chatbot.tsx:30-91 | any sequence of actions keeps the widget settled |
| Chatbot.TranscriptGrows | src/components/chatbot.tsx:52-87 | without a language change the transcript only grows: its old contents stay as a prefix |
| Chatbot.NoticeStaysFirst | src/components/chatbot.tsx:30-39 | after a language change the transcript starts with that notice until the next change |
| AnalyzeReportRoute.Rejects | src/app/api/analyze-report/route.ts:32 | the guard rejects exactly the values that are not a non-blank string |
| AnalyzeReportRoute.Excerpt | src/app/api/analyze-report/route.ts:43 | the excerpt is the prefix of length min(\|text\|, 32000) |
| AnalyzeReportRoute.ExcerptStable | src/app/api/analyze-report/route.ts:43 | a text of at most 32000 characters is unchanged, and cutting twice equals cutting once |
| AnalyzeReportRoute.Prompt | src/app/api/analyze-report/route.ts:36-45 | the prompt's length is bounded by the template plus 32000, whatever the report's length |
| AnalyzeReportRoute.PromptCarriesExcerpt | src/app/api/analyze-report/route.ts:36-45 | reading the prompt back between the template's head and tail gives exactly the excerpt |
| AnalyzeReportRoute.Details | src/app/api/analyze-report/route.ts:60-65 | details: an `Error`'s message, a thrown string itself, else the fixed unknown-error text |
| AnalyzeReportRoute.Post | src/app/api/analyze-report/route.ts:28-67 | the model is called iff `reportText` is a non-blank string, and then with the excerpt; 400 with the empty-text error otherwise; 200 `{insights}` with exactly the model's text; 500 "Failed to analyze report" with the details on any failure |
| AnalyzeReportRoute.NoCallNoEffect | src/app/api/analyze-report/route.ts:32-34 | when the model is not called its outcome does not affect the response |
| ChatRoute.LanguageName | src/app/api/chat/route.ts:32 | "English" iff `"en"`, "Hindi" iff `"hi"`, "Kannada" for any other value |
| ChatRoute.Prompt | src/app/api/chat/route.ts:31-34 | the prompt ends with the user's message verbatim between double quotes |
| ChatRoute.PromptInjective | src/app/api/chat/route.ts:31-34 | language name and message can be read back: different pairs never give the same prompt |
| ChatRoute.Details | src/app/api/chat/route.ts:60-63 | details: an `Error`'s message, else "An unknown error occurred" |
| ChatRoute.Post | src/app/api/chat/route.ts:22-65 | the model is called iff message and language are truthy, with the prompt naming the language and quoting the message; 400 otherwise; 200 `{reply}` with exactly the model's text; 500 "Failed to get response from AI" with the details on any failure |
| Http.Deliver | src/components/report-uploader.tsx:108-118 | the component sees `ok` iff the status is 2xx, and exactly the response's fields as strings |
| EndToEnd.LanguageNamesAgree | src/app/api/chat/route.ts:32 | the route names every language the widget sends the way the widget does |
| EndToEnd.AnalyzeRoundTrip | src/components/report-uploader.tsx:103-125 | a settled uploader's request always passes the route's check and the model sees the first 32000 characters of the file's text; the uploader then shows exactly the model's text or "Failed to analyze report", and stays settled |
| EndToEnd.ChatRequestAccepted | src/components/chatbot.tsx:56-63 | a non-blank message always passes the chat route's check, and the prompt holds the exact input and the widget's language name |
| EndToEnd.ChatReplyShown | src/components/chatbot.tsx:65-87 | the bot message shows the model's text, the apology for an empty text, or "Failed to get response from AI"; the route's details never appear |
| EndToEnd.ChatRoundTrip | src/components/chatbot.tsx:41-91 | a whole send against the route appends the user's exact input and a bot message with the model's text, the apology when that text is empty, or the route's failure text |

## Left out

- The PDF library: worker setup, `arrayBuffer`, `getDocument`, `getPage`,
  `getTextContent` and text-item internals. A file carries the library's
  outcome for its bytes: `Unparseable` or its pages' item strings.
- The dropzone's own type and size checks. The model takes the accepted
  files and the rejection codes as given. `MaxFileSize` records the
  configured 10 MiB but nothing checks it here.
- The Gemini client, model name, safety settings and generation config.
  They are opaque foreign calls; a model call is a `ModelOutcome` argument.
- The module-load check that throws when the API key is missing. It is
  start-up environment I/O.
- Async interleaving between an in-flight request or parse and later
  uploads, removals or language changes. Each handler runs atomically from
  its entry to its end. `BeginParse`, `BeginAnalyze` and `BeginSend` describe
  the in-flight states.
- `Date.now()` message ids. The timestamps are opaque string arguments.
- JSX and markdown rendering, `console.error` logging, and the KB size
  display (floating-point formatting).
- JSON bodies that are not objects on the client side (`result.error` on
  `null` would throw). Bodies are modelled as objects.
- Truthiness and `String(...)` of non-string JSON values (numbers, objects)
  are inputs carried by `Opaque`, not computed.
- Js.Substring: counts Unicode scalar values, not the UTF-16 code units
  JavaScript's `substring` counts. The two differ only for characters
  outside the Basic Multilingual Plane.
- AnalyzeReportRoute.Excerpt: counts Unicode scalar values, not the UTF-16
  code units, for the same reason as `Js.Substring`.
- src/app/page.tsx, src/app/layout.tsx, src/components/elevenlabs-widget.tsx,
  src/elevenlabs.d.ts and next.config.ts: page layout, script loading, type
  declarations and build configuration, with no behaviour to state.
