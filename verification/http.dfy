/**
 The boundary between the components and the two API routes: what a route
 handler returns, what the model client gives a route, and what `fetch`
 followed by `response.json()` gives a component.
 */
module Http {
  import opened Js

  /** A route's `NextResponse.json(body, { status })`; every body the routes
      build is an object whose fields are strings. */
  datatype Response = Response(status: int, body: map<string, string>)

  /** `response.ok`. */
  predicate IsOk(status: int) {
    200 <= status <= 299
  }

  /** The outcome of `chat.sendMessage(prompt)` followed by
      `response.text()`: the generated text, or whatever either call threw. */
  datatype ModelOutcome = Generated(text: string) | ModelFailed(e: Thrown)

  /** What a route handler did: the prompt it handed to the model (`None`
      when it answered without calling the model) and the response. */
  datatype Handled = Handled(prompt: Option<string>, response: Response)

  /** What a component sees of a request: `fetch` or `response.json()`
      rejected, or a response with its `ok` flag and its parsed JSON object. */
  datatype Reply = Rejected(e: Thrown) | Answered(ok: bool, body: map<string, Field>)

  /** `body[key]`, `undefined` when the key is missing. */
  function Get(body: map<string, Field>, key: string): Field {
    if key in body then body[key] else Absent
  }

  /** A route's response as the browser's `fetch` hands it to a component. */
  function Deliver(r: Response): (reply: Reply)
    ensures reply.Answered? && (reply.ok <==> IsOk(r.status))
    ensures forall k :: k in r.body ==> Get(reply.body, k) == Str(r.body[k])
    ensures forall k :: k !in r.body ==> Get(reply.body, k) == Absent
  {
    Answered(IsOk(r.status), map k | k in r.body :: Str(r.body[k]))
  }
}
