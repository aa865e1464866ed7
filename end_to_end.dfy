/** The client's acceptance checks against what the controllers answer: each
    phase's response, serialised as the framework writes it, passes the check
    the client applies to it. */
module EndToEnd {
  import opened Wrappers
  import opened Profiling
  import opened Models
  import opened Http
  import opened ScaleTestClient
  import Text
  import TestController
  import Test2Controller
  import Test4Controller

  /** `Ok("pong")` passes `DoPing`. */
  lemma PingAccepted(showGuid: Guid -> string)
    ensures DoPing(ToResponse(TestController.Ping(), showGuid)).Ok?
  {
  }

  /** The populate answer `Ok(count)`, written as a JSON number, is the text
      `itemCount.ToString()` the client compares it with. */
  lemma PopulateAccepted(count: int, showGuid: Guid -> string)
    ensures CheckPopulate(ToResponse(OkObject(Number(count)), showGuid), count).Ok?
    ensures forall other :: other != count ==>
      CheckPopulate(ToResponse(OkObject(Number(count)), showGuid), other).Err?
  {
    forall other | other != count
      ensures CheckPopulate(ToResponse(OkObject(Number(count)), showGuid), other).Err?
    {
      Text.DecimalTextInjective(count, other);
    }
  }

  /** The hit list `Ok(ids)`, read back by a JSON parser that undoes the serialisation, gives
      the client its first `n` ids. */
  lemma HitListAccepted(ids: seq<Guid>, n: int, showGuid: Guid -> string, parseIdList: string -> Option<seq<Guid>>)
    requires parseIdList(Serialize(Ids(ids), showGuid)) == Some(ids)
    requires 0 <= n <= |ids|
    ensures CheckIdList(ToResponse(OkObject(Ids(ids)), showGuid), n, parseIdList) == Ok(ids[..n])
  {
  }

  /** An echoed id, a JSON string, passes the client's check once its quotes are removed,
      whichever controller answered and whatever the route-hit table held. */
  lemma EchoAccepted(item: Guid, hits: seq<RouteHit>, now: DateTime, todo: bool,
                     showGuid: Guid -> string, parseGuid: string -> Option<Guid>)
    requires '"' !in showGuid(item) && parseGuid(showGuid(item)) == Some(item)
    ensures CheckEcho(item, ToResponse(TestController.UpdateItem(item, hits, now).result, showGuid), parseGuid).Ok?
    ensures CheckEcho(item, ToResponse(Test2Controller.UpdateItem(item, hits, now).result, showGuid), parseGuid).Ok?
    ensures CheckEcho(item, ToResponse(Test4Controller.UpdateItem(item, todo, hits, now).result, showGuid), parseGuid).Ok?
  {
    StripQuotesQuoted(showGuid(item));
  }
}
