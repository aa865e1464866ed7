/** The load-test client: four phases against the test controller (ping,
    populate and fetch the ids, one update per id, fetch the report), each
    accepting or rejecting the server's responses. The server is a function
    from request to response; the JSON and Guid parsers are parameters. */
module ScaleTestClient {
  import opened Wrappers
  import opened Profiling
  import opened Http
  import Text

  const DefaultBaseUrl: string := "http://localhost:54580"
  const DefaultItemCount: int := 10

  /** The requests the client sends, one per kind of URL. */
  datatype Request =
    | PingRequest
    | PopulateRequest(count: int)
    | HitListRequest
    | UpdateRequest(item: Guid)
    | ProfileRequest

  /** The relative URL a request is sent to; `showGuid` is the Guid's text form. */
  function Url(req: Request, showGuid: Guid -> string): string
  {
    match req
    case PingRequest => "/test/Ping"
    case PopulateRequest(n) => "/test/PopulateDatabaseAsync?count=" + Text.DecimalText(n)
    case HitListRequest => "/test/GetHitListAsync"
    case UpdateRequest(g) => "/test/UpdateItemAsync/" + showGuid(g)
    case ProfileRequest => "/test/GetProfilingDataSinceLastPopulateAsync"
  }

  /** Distinct populate counts, and (for a Guid text form that tells Guids apart) distinct
      update items, go to distinct URLs. */
  lemma UrlInjective(a: Request, b: Request, showGuid: Guid -> string)
    requires (a.PopulateRequest? && b.PopulateRequest?) || (a.UpdateRequest? && b.UpdateRequest?)
    requires forall g, h :: g != h ==> showGuid(g) != showGuid(h)
    requires a != b
    ensures Url(a, showGuid) != Url(b, showGuid)
  {
    if a.PopulateRequest? {
      var p := "/test/PopulateDatabaseAsync?count=";
      Text.DecimalTextInjective(a.count, b.count);
      assert Url(a, showGuid)[|p|..] == Text.DecimalText(a.count);
      assert Url(b, showGuid)[|p|..] == Text.DecimalText(b.count);
    } else {
      var p := "/test/UpdateItemAsync/";
      assert Url(a, showGuid)[|p|..] == showGuid(a.item);
      assert Url(b, showGuid)[|p|..] == showGuid(b.item);
    }
  }

  /** The `InvalidOperationException`s the phases throw, and the exceptions the library calls
      they make throw on bad input. */
  datatype Failure =
    | ControllerNotStarted
    | DatabasePopulateFailed
    | WrongNumberOfItems(count: nat)
    | InvalidServerResponse
    | MalformedIdList
    | NegativeItemCount
    | InvalidResponse(item: Guid)
    | TaskException(item: Guid, output: string)
    | MalformedGuid(item: Guid)
    | MalformedCount

  /** The outside world of one run: the server's answer to each request, and what
      `JsonConvert.DeserializeObject<List<Guid>>` and `Guid.Parse` make of a text (None where
      they throw, or where the list comes back null). */
  datatype Env = Env(
    server: Request -> Response,
    parseIdList: string -> Option<seq<Guid>>,
    parseGuid: string -> Option<Guid>)

  // ---- the phases' acceptance checks ---------------------------------------

  /** `DoPing`: a success status with the body "pong", or "Controller not started". */
  function DoPing(resp: Response): (r: Result<(), Failure>)
    ensures r.Ok? <==> resp.success && resp.body == "pong"
    ensures r.Err? ==> r.error == ControllerNotStarted
  {
    if resp.success && resp.body == "pong" then Ok(()) else Err(ControllerNotStarted)
  }

  /** The populate half of `GetItems`: a success status whose body is `itemCount.ToString()`,
      or "Database populate failed". */
  function CheckPopulate(resp: Response, itemCount: int): (r: Result<(), Failure>)
    ensures r.Ok? <==> resp.success && resp.body == Text.DecimalText(itemCount)
    ensures r.Err? ==> r.error == DatabasePopulateFailed
  {
    if !resp.success || resp.body != Text.DecimalText(itemCount) then Err(DatabasePopulateFailed) else Ok(())
  }

  /** The hit-list half of `GetItems`: on a success status, the first `itemCount` ids of the
      list, which must hold at least that many; `GetRange(0, itemCount)` throws on a negative
      count. */
  function CheckIdList(resp: Response, itemCount: int, parseIdList: string -> Option<seq<Guid>>): (r: Result<seq<Guid>, Failure>)
    ensures r.Ok? <==> resp.success && parseIdList(resp.body).Some? &&
                       0 <= itemCount <= |parseIdList(resp.body).value|
    ensures r.Ok? ==> r.value == parseIdList(resp.body).value[..itemCount] && |r.value| == itemCount
    ensures !resp.success ==> r == Err(InvalidServerResponse)
    ensures resp.success && parseIdList(resp.body).Some? && |parseIdList(resp.body).value| < itemCount ==>
      r == Err(WrongNumberOfItems(|parseIdList(resp.body).value|))
  {
    if resp.success then
      match parseIdList(resp.body)
      case None => Err(MalformedIdList)
      case Some(list) =>
        if |list| < itemCount then Err(WrongNumberOfItems(|list|))
        else if itemCount < 0 then Err(NegativeItemCount)
        else Ok(list[..itemCount])
    else Err(InvalidServerResponse)
  }

  /** `output.Replace("\"", "")`. */
  function StripQuotes(s: string): (r: string)
    ensures '"' !in r
    ensures |r| <= |s|
  {
    if |s| == 0 then ""
    else if s[0] == '"' then StripQuotes(s[1..])
    else [s[0]] + StripQuotes(s[1..])
  }

  /** Text without quotes passes through unchanged. */
  lemma {:induction false} StripQuotesUnquoted(s: string)
    requires '"' !in s
    ensures StripQuotes(s) == s
  {
    if |s| > 0 {
      StripQuotesUnquoted(s[1..]);
      assert [s[0]] + s[1..] == s;
    }
  }

  /** Removing quotes distributes over concatenation. */
  lemma {:induction false} StripQuotesAppend(a: string, b: string)
    ensures StripQuotes(a + b) == StripQuotes(a) + StripQuotes(b)
  {
    if |a| > 0 {
      assert (a + b)[0] == a[0];
      assert (a + b)[1..] == a[1..] + b;
      StripQuotesAppend(a[1..], b);
    } else {
      assert a + b == b;
    }
  }

  /** A JSON string's quotes come off: the quoted form of a quote-free text strips back to it. */
  lemma StripQuotesQuoted(s: string)
    requires '"' !in s
    ensures StripQuotes(Quoted(s)) == s
  {
    StripQuotesAppend("\"", s);
    StripQuotesAppend("\"" + s, "\"");
    StripQuotesUnquoted(s);
  }

  /** One update task: on a success status the body, quotes removed, must parse to the item;
      otherwise "Exception in task". */
  function CheckEcho(item: Guid, resp: Response, parseGuid: string -> Option<Guid>): (r: Result<(), Failure>)
    ensures r.Ok? <==> resp.success && parseGuid(StripQuotes(resp.body)) == Some(item)
    ensures !resp.success ==> r == Err(TaskException(item, resp.body))
    ensures resp.success && parseGuid(StripQuotes(resp.body)).Some? && r.Err? ==> r == Err(InvalidResponse(item))
  {
    if resp.success then
      match parseGuid(StripQuotes(resp.body))
      case None => Err(MalformedGuid(item))
      case Some(g) => if item != g then Err(InvalidResponse(item)) else Ok(())
    else Err(TaskException(item, resp.body))
  }

  /** `GetResult`: the text written to the results file, only on a success status. */
  function GetResult(resp: Response): (written: Option<string>)
    ensures written.Some? <==> resp.success
    ensures written.Some? ==> written.value == resp.body
  {
    if resp.success then Some(resp.body) else None
  }

  // ---- the fan-out ---------------------------------------------------------

  /** One update request per item, in list order. */
  function UpdateRequests(items: seq<Guid>): (r: seq<Request>)
    ensures |r| == |items| && forall i :: 0 <= i < |items| ==> r[i] == UpdateRequest(items[i])
  {
    seq(|items|, i requires 0 <= i < |items| => UpdateRequest(items[i]))
  }

  /** What `await Task.WhenAll(tasks)` amounts to: every task runs to its end, and the
      exception rethrown is the first failed task's, in the order of the items. */
  function FanOut(items: seq<Guid>, env: Env): Result<(), Failure>
    decreases |items|
  {
    if |items| == 0 then Ok(())
    else
      var before := FanOut(items[..|items| - 1], env);
      if before.Err? then before
      else CheckEcho(items[|items| - 1], env.server(UpdateRequest(items[|items| - 1])), env.parseGuid)
  }

  /** The fan-out passes exactly when every item's response passes. */
  lemma {:induction false} FanOutPassesIff(items: seq<Guid>, env: Env)
    ensures FanOut(items, env).Ok? <==>
      forall i :: 0 <= i < |items| ==> CheckEcho(items[i], env.server(UpdateRequest(items[i])), env.parseGuid).Ok?
    decreases |items|
  {
    if |items| > 0 {
      var n := |items| - 1;
      var front := items[..n];
      FanOutPassesIff(front, env);
      assert forall j :: 0 <= j < n ==> items[j] == front[j];
    }
  }

  /** A failed fan-out reports the failure of the first item whose response does not pass. */
  lemma {:induction false} FanOutFirstFailure(items: seq<Guid>, env: Env)
    requires FanOut(items, env).Err?
    ensures exists i :: 0 <= i < |items| &&
                        CheckEcho(items[i], env.server(UpdateRequest(items[i])), env.parseGuid) == FanOut(items, env) &&
                        forall j :: 0 <= j < i ==> CheckEcho(items[j], env.server(UpdateRequest(items[j])), env.parseGuid).Ok?
    decreases |items|
  {
    var n := |items| - 1;
    var front := items[..n];
    assert forall j :: 0 <= j < n ==> items[j] == front[j];
    if FanOut(front, env).Ok? {
      FanOutPassesIff(front, env);
    } else {
      FanOutFirstFailure(front, env);
      var i :| 0 <= i < |front| &&
        CheckEcho(front[i], env.server(UpdateRequest(front[i])), env.parseGuid) == FanOut(front, env) &&
        forall j :: 0 <= j < i ==> CheckEcho(front[j], env.server(UpdateRequest(front[j])), env.parseGuid).Ok?;
    }
  }

  /** `UpdateItems`: issues one request per item, in order, checks each response, and fails
      with the first failure once all of them are in. */
  method UpdateItems(items: seq<Guid>, env: Env) returns (outcome: Result<(), Failure>, sent: seq<Request>)
    ensures sent == UpdateRequests(items)
    ensures outcome == FanOut(items, env)
  {
    outcome := Ok(());
    sent := [];
    for i := 0 to |items|
      invariant sent == UpdateRequests(items[..i])
      invariant outcome == FanOut(items[..i], env)
    {
      var req := UpdateRequest(items[i]);
      sent := sent + [req];
      var check := CheckEcho(items[i], env.server(req), env.parseGuid);
      assert items[..i + 1][..i] == items[..i];
      if outcome.Ok? && check.Err? {
        outcome := check;
      }
    }
    assert items[..|items|] == items;
  }

  // ---- the run ---------------------------------------------------------------

  /** What a run did: the requests it sent, in order, how it ended, and the results file
      text it wrote. */
  datatype RunResult = RunResult(sent: seq<Request>, outcome: Result<(), Failure>, written: Option<string>)

  /** The four phases of `Main`, each started only after the previous one passed. */
  function Drive(itemCount: int, env: Env): RunResult
  {
    var ping := DoPing(env.server(PingRequest));
    if ping.Err? then RunResult([PingRequest], Err(ping.error), None)
    else
      var pop := CheckPopulate(env.server(PopulateRequest(itemCount)), itemCount);
      if pop.Err? then RunResult([PingRequest, PopulateRequest(itemCount)], Err(pop.error), None)
      else
        var ids := CheckIdList(env.server(HitListRequest), itemCount, env.parseIdList);
        var setup := [PingRequest, PopulateRequest(itemCount), HitListRequest];
        if ids.Err? then RunResult(setup, Err(ids.error), None)
        else
          var updates := FanOut(ids.value, env);
          if updates.Err? then RunResult(setup + UpdateRequests(ids.value), updates, None)
          else
            RunResult(setup + UpdateRequests(ids.value) + [ProfileRequest], Ok(()),
                      GetResult(env.server(ProfileRequest)))
  }

  /** The phases run in order: whatever the server does, a run's requests are a prefix of
      ping, populate, hit list, the updates, the report; a run that ends in failure writes
      nothing, and one that writes a file got a success status for the report. */
  lemma PhasesInOrder(itemCount: int, env: Env)
    ensures var run := Drive(itemCount, env);
      |run.sent| >= 1 && run.sent[0] == PingRequest &&
      (run.outcome.Err? ==> run.written.None?) &&
      (run.written.Some? ==> run.outcome.Ok? && env.server(ProfileRequest).success) &&
      (run.outcome.Ok? ==> run.sent[|run.sent| - 1] == ProfileRequest)
    ensures var run := Drive(itemCount, env);
      |run.sent| >= 2 ==> DoPing(env.server(PingRequest)).Ok? && run.sent[1] == PopulateRequest(itemCount)
    ensures var run := Drive(itemCount, env);
      |run.sent| >= 3 ==> CheckPopulate(env.server(PopulateRequest(itemCount)), itemCount).Ok? && run.sent[2] == HitListRequest
  {
  }

  /** A run that gets as far as the updates sends exactly `itemCount` of them, one for each
      of the first `itemCount` listed ids, in order, and the report request only when every
      one of them passed. */
  lemma UpdatesAreTheFirstIds(itemCount: int, env: Env)
    requires |Drive(itemCount, env).sent| > 3
    ensures var list := env.parseIdList(env.server(HitListRequest).body);
      list.Some? && 0 <= itemCount <= |list.value| &&
      var run := Drive(itemCount, env);
      |run.sent| >= 3 + itemCount &&
      (forall i :: 0 <= i < itemCount ==> run.sent[3 + i] == UpdateRequest(list.value[i])) &&
      (|run.sent| == 4 + itemCount <==> run.outcome.Ok?) &&
      (run.outcome.Ok? <==> forall i :: 0 <= i < itemCount ==>
         CheckEcho(list.value[i], env.server(UpdateRequest(list.value[i])), env.parseGuid).Ok?)
  {
    var list := env.parseIdList(env.server(HitListRequest).body).value;
    var ids := list[..itemCount];
    FanOutPassesIff(ids, env);
  }

  /** Against a server that answers every phase as the test controller does, the run passes:
      it sends the ping, the populate, the hit list, one update for each of the first
      `itemCount` listed ids and the report request, and writes the report's body. */
  lemma CooperativeServerRun(itemCount: int, env: Env, list: seq<Guid>)
    requires env.server(PingRequest) == Response(true, "pong")
    requires env.server(PopulateRequest(itemCount)) == Response(true, Text.DecimalText(itemCount))
    requires env.server(HitListRequest).success && env.parseIdList(env.server(HitListRequest).body) == Some(list)
    requires 0 <= itemCount <= |list|
    requires forall i :: 0 <= i < itemCount ==>
      env.server(UpdateRequest(list[i])).success &&
      env.parseGuid(StripQuotes(env.server(UpdateRequest(list[i])).body)) == Some(list[i])
    requires env.server(ProfileRequest).success
    ensures Drive(itemCount, env) ==
      RunResult([PingRequest, PopulateRequest(itemCount), HitListRequest] + UpdateRequests(list[..itemCount]) + [ProfileRequest],
                Ok(()), Some(env.server(ProfileRequest).body))
  {
    FanOutPassesIff(list[..itemCount], env);
  }

  /** The program's static state: `_brokerBaseUrl` and `_itemCount`. */
  class Program {
    var brokerBaseUrl: string
    var itemCount: int

    constructor ()
      ensures brokerBaseUrl == DefaultBaseUrl && itemCount == DefaultItemCount
    {
      brokerBaseUrl := DefaultBaseUrl;
      itemCount := DefaultItemCount;
    }

    /** The argument handling at the top of `Main`: `args[0]` replaces the URL and `args[1]`
        the count, each only when present and non-empty; `int.Parse(args[1])` (the parameter
        `parseInt`) throws on a malformed count, after the URL was already taken. */
    method Configure(args: seq<string>, parseInt: string -> Option<int>) returns (r: Result<(), Failure>)
      modifies this
      ensures brokerBaseUrl == if |args| > 0 && args[0] != "" then args[0] else old(brokerBaseUrl)
      ensures (|args| > 1 && args[1] != "") ==>
        (r.Ok? <==> parseInt(args[1]).Some?) &&
        (r.Ok? ==> itemCount == parseInt(args[1]).value) &&
        (r.Err? ==> r.error == MalformedCount && itemCount == old(itemCount))
      ensures !(|args| > 1 && args[1] != "") ==> r.Ok? && itemCount == old(itemCount)
    {
      if |args| > 0 && args[0] != "" {
        brokerBaseUrl := args[0];
      }
      if |args| > 1 && args[1] != "" {
        var n := parseInt(args[1]);
        if n.None? {
          return Err(MalformedCount);
        }
        itemCount := n.value;
      }
      return Ok(());
    }

    /** The phases of `Main`, one after another; the first failing phase ends the run. */
    method Run(env: Env) returns (run: RunResult)
      ensures run == Drive(itemCount, env)
    {
      var n := itemCount;
      var ping := DoPing(env.server(PingRequest));
      if ping.Err? {
        return RunResult([PingRequest], Err(ping.error), None);
      }
      var pop := CheckPopulate(env.server(PopulateRequest(n)), n);
      if pop.Err? {
        return RunResult([PingRequest, PopulateRequest(n)], Err(pop.error), None);
      }
      var setup := [PingRequest, PopulateRequest(n), HitListRequest];
      var ids := CheckIdList(env.server(HitListRequest), n, env.parseIdList);
      if ids.Err? {
        return RunResult(setup, Err(ids.error), None);
      }
      var outcome, updates := UpdateItems(ids.value, env);
      if outcome.Err? {
        return RunResult(setup + updates, outcome, None);
      }
      var written := GetResult(env.server(ProfileRequest));
      return RunResult(setup + updates + [ProfileRequest], Ok(()), written);
    }
  }
}
