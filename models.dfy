/** The one table the controllers use: route hits, with the lookup
    `FirstOrDefault(h => h.Id == id)` and the in-place `UpdateTime` write. */
module Models {
  import opened Wrappers
  import opened Profiling

  /** `RouteHit`: `Id`, `Name`, and a nullable `UpdateTime`. */
  datatype RouteHit = RouteHit(id: Guid, name: string, updateTime: Option<DateTime>)

  /** The position of the first hit with this id, or None (`FirstOrDefault` returning null). */
  function FindHit(hits: seq<RouteHit>, id: Guid): (r: Option<nat>)
    ensures r.Some? ==> r.value < |hits| && hits[r.value].id == id
    ensures r.Some? ==> forall j :: 0 <= j < r.value ==> hits[j].id != id
    ensures r.None? ==> forall j :: 0 <= j < |hits| ==> hits[j].id != id
  {
    if |hits| == 0 then None
    else if hits[0].id == id then Some(0)
    else match FindHit(hits[1..], id)
      case None => None
      case Some(k) => Some(k + 1)
  }

  /** `context.RouteHits.Select(x => x.Id)`. */
  function IdsOf(hits: seq<RouteHit>): (r: seq<Guid>)
    ensures |r| == |hits| && forall i :: 0 <= i < |hits| ==> r[i] == hits[i].id
  {
    seq(|hits|, i requires 0 <= i < |hits| => hits[i].id)
  }

  /** The table after `hit.UpdateTime = now; SaveChanges()` on the first hit with this id;
      unchanged when there is none. */
  function Touch(hits: seq<RouteHit>, id: Guid, now: DateTime): (r: seq<RouteHit>)
    ensures |r| == |hits|
    ensures forall i :: 0 <= i < |hits| ==> r[i].id == hits[i].id && r[i].name == hits[i].name
    ensures forall i :: 0 <= i < |hits| ==>
      r[i].updateTime == if FindHit(hits, id) == Some(i) then Some(now) else hits[i].updateTime
  {
    match FindHit(hits, id)
    case None => hits
    case Some(k) => hits[k := hits[k].(updateTime := Some(now))]
  }
}
