/** What an action returns (`Ok(value)`, `BadRequest()`, an unhandled exception)
    and what the client receives for it: a success flag and a body text. */
module Http {
  import opened Profiling
  import opened Models
  import Text

  /** The value inside `Ok(...)`: a string is written as it is, the others as JSON. */
  datatype Body = PlainText(text: string) | Number(n: int) | Id(id: Guid) | Ids(ids: seq<Guid>)

  /** `Ok(value)`, `BadRequest()`, or the 500 an exception escaping the action turns into. */
  datatype ActionResult = OkObject(body: Body) | BadRequest | InternalServerError

  /** What handling one update request amounts to: the action's result, the route-hit
      table after it, and the step tree the profiler recorded for it. */
  datatype Handled = Handled(result: ActionResult, hits: seq<RouteHit>, steps: StepTree)

  /** `IsSuccessStatusCode` and the body read with `ReadAsStringAsync`. */
  datatype Response = Response(success: bool, body: string)

  function Quoted(s: string): string
  {
    "\"" + s + "\""
  }

  /** The body text for a result; `showGuid` is the Guid's text form. */
  function Serialize(b: Body, showGuid: Guid -> string): string
  {
    match b
    case PlainText(s) => s
    case Number(n) => Text.DecimalText(n)
    case Id(g) => Quoted(showGuid(g))
    case Ids(gs) =>
      "[" + Text.Join(seq(|gs|, i requires 0 <= i < |gs| => Quoted(showGuid(gs[i]))), ',') + "]"
  }

  function ToResponse(r: ActionResult, showGuid: Guid -> string): (resp: Response)
    ensures resp.success <==> r.OkObject?
    ensures r.OkObject? ==> resp.body == Serialize(r.body, showGuid)
  {
    match r
    case OkObject(b) => Response(true, Serialize(b, showGuid))
    case BadRequest => Response(false, "")
    case InternalServerError => Response(false, "")
  }
}
