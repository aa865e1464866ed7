/** The profiler's data as the controllers read it: one stored profiler
    session per request, its tree of timed steps, the per-step custom timings
    ("sql" entries), and the storage that lists and loads sessions. */
module Profiling {
  import opened Wrappers

  /** A 128-bit identifier; 0 plays Guid.Empty, the value a static Guid field starts with. */
  newtype Guid = x: int | 0 <= x < 0x1_0000_0000_0000_0000_0000_0000_0000_0000

  const EmptyGuid: Guid := 0

  /** Millisecond values. They are decimals in the profiler; the model only carries them. */
  type Ms = real

  /** A wall-clock timestamp, in ticks. */
  type DateTime = int

  /** One custom timing (a SQL command, a connection open or close) recorded under a category. */
  datatype CustomTiming = CustomTiming(commandString: string, executeType: string, start: Ms, duration: Ms)

  /** One step: `Name`, `StartMilliseconds`, `DurationMilliseconds`, its child steps in
      call order, and its custom timings by category. */
  datatype Timing = Timing(
    name: string,
    start: Ms,
    duration: Ms,
    children: seq<Timing>,
    customTimings: map<string, seq<CustomTiming>>)

  /** One stored profiler: `Id`, `Started`, `DurationMilliseconds` and the `Root` step. */
  datatype Session = Session(id: Guid, started: DateTime, duration: Ms, root: Timing)

  /** The profiler storage: every stored id, newest first, and what `Load` finds for an id. */
  datatype Store = Store(newestFirst: seq<Guid>, saved: map<Guid, Session>)

  /** A store whose sessions are filed under their own ids. */
  predicate Consistent(store: Store)
  {
    forall g :: g in store.saved ==> store.saved[g].id == g
  }

  /** `Storage.ListAsync(maxResults)`: the newest `maxResults` ids, newest first. */
  function ListIds(store: Store, maxResults: nat): (r: seq<Guid>)
    ensures |r| == if |store.newestFirst| < maxResults then |store.newestFirst| else maxResults
    ensures r == store.newestFirst[..|r|]
  {
    store.newestFirst[..if |store.newestFirst| < maxResults then |store.newestFirst| else maxResults]
  }

  /** `Storage.Load(id)`: the stored session, or null (None) when it is not (or no longer) there. */
  function Load(store: Store, id: Guid): (r: Option<Session>)
    ensures r.Some? <==> id in store.saved
    ensures r.Some? ==> r.value == store.saved[id]
  {
    if id in store.saved then Some(store.saved[id]) else None
  }

  /** The names of a step tree, without its timings: the shape an action's nested
      `Step(...)` blocks give the profiler. */
  datatype StepTree = StepTree(name: string, children: seq<StepTree>)

  function Leaf(name: string): StepTree
  {
    StepTree(name, [])
  }

  function Shape(t: Timing): (r: StepTree)
    ensures r.name == t.name && |r.children| == |t.children|
    ensures forall i :: 0 <= i < |t.children| ==> r.children[i] == Shape(t.children[i])
  {
    StepTree(t.name, seq(|t.children|, i requires 0 <= i < |t.children| => Shape(t.children[i])))
  }
}
