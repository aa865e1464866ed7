/** `Test4Controller`: the same benchmark over raw SQL commands. Its update
    opens both database steps whatever a coin flip says, each with three
    sub-steps, and its report reads the sub-steps instead of custom timings. */
module Test4Controller {
  import opened Wrappers
  import opened Profiling
  import opened Models
  import opened Http
  import opened Report
  import Window
  import Text

  /** The report's columns and where each value comes from: under "EF Core Stuff" at
      `Root.Children[1].Children[0]`, child 0 is "Get Existing" and child 1 "Update"; the
      "Open", "Select" and "Close" columns are their first three child steps. */
  const Schema: seq<Column> :=
    SessionColumns +
    StepColumns("Get", [1, 0, 0]) + ChildColumns("Get", [1, 0, 0]) +
    StepColumns("Update", [1, 0, 1]) + ChildColumns("Update", [1, 0, 1])

  /** The header line's column names, in order. */
  const Columns: seq<string> := Names(Schema)

  /** The commands the controller sends. */
  const GetAllQuery: string := "SELECT x.Id FROM RouteHits as x"
  const Get1Query: string := "SELECT TOP(1) [h].[Id], [h].[Name], [h].[UpdateTime] " + "FROM[RouteHits] AS[h] " + "WHERE[h].[Id] = @id"
  const Update1Query: string := "UPDATE [RouteHits] SET [UpdateTime] = @now " + "WHERE[Id] = @id"

  /** What one update request amounts to here: the action's result, the route-hit table
      after it, the step tree, and the commands it actually executed. */
  datatype DbHandled = DbHandled(result: ActionResult, hits: seq<RouteHit>, steps: StepTree, executed: seq<string>)

  /** The three sub-steps each database step opens, whether or not it does the work. */
  function DbStep(name: string): StepTree
  {
    StepTree(name, [Leaf("Open connection"), Leaf("Execute query"), Leaf("Read data")])
  }

  /** `UpdateItemAsync(id)` with the coin flip `todo` (`NextDouble() > 0.5`) as a parameter.
      Both "Get Existing" and "Update" are opened under "EF Core Stuff", each with its
      three sub-steps; `todo` only decides which of the two runs its command: the select
      (which changes nothing) or the update (which stamps the hit with `now`). */
  function UpdateItem(id: Guid, todo: bool, hits: seq<RouteHit>, now: DateTime): (r: DbHandled)
    ensures r.result == OkObject(Id(id))
    ensures r.steps == StepTree("EF Core Stuff", [DbStep("Get Existing"), DbStep("Update")])
    ensures r.executed == if todo then [Get1Query] else [Update1Query]
    ensures r.hits == if todo then hits else Touch(hits, id, now)
  {
    var executed := if todo then [Get1Query] else [Update1Query];
    var after := if todo then hits else Touch(hits, id, now);
    DbHandled(OkObject(Id(id)), after, StepTree("EF Core Stuff", [DbStep("Get Existing"), DbStep("Update")]), executed)
  }

  /** The recorded step shape does not depend on the coin flip. */
  lemma UpdateShapeIgnoresTodo(id: Guid, hits: seq<RouteHit>, now: DateTime)
    ensures UpdateItem(id, true, hits, now).steps == UpdateItem(id, false, hits, now).steps
    ensures |UpdateItem(id, true, hits, now).steps.children| == 2
    ensures forall c :: 0 <= c < 2 ==> |UpdateItem(id, true, hits, now).steps.children[c].children| == 3
  {
  }

  /** One report row, read positionally from the session just as the `foreach` body does;
      the first index or key that is not there raises the fault. */
  function ExtractRow(item: Session): (r: Result<seq<Value>, Fault>)
    ensures r.Ok? ==> |r.value| == |Schema|
  {
    var action :- Child(item.root, 1);
    var efCore :- Child(action, 0);
    var get :- Child(efCore, 0);
    var getSql := get.children;
    var update :- Child(efCore, 1);
    var updateSql := update.children;
    var g0 :- Entry(getSql, 0);
    var g1 :- Entry(getSql, 1);
    var g2 :- Entry(getSql, 2);
    var u0 :- Entry(updateSql, 0);
    var u1 :- Entry(updateSql, 1);
    var u2 :- Entry(updateSql, 2);
    Ok(SessionValues(item) +
       StepValues(get) + ChildValues(g0, g1, g2) +
       StepValues(update) + ChildValues(u0, u1, u2))
  }

  /** Walking the schema's paths reaches the two steps under "EF Core Stuff". */
  lemma StepPaths(item: Session)
    ensures forall c :: 0 <= c < 2 ==>
      Walk(item.root, [1, 0, c]) ==
        if |item.root.children| > 1 && |item.root.children[1].children| > 0 &&
           c < |item.root.children[1].children[0].children|
        then Some(item.root.children[1].children[0].children[c]) else None
  {
    WalkThree(item.root, 1, 0, 0);
    WalkThree(item.root, 1, 0, 1);
  }

  /** The positional row is the schema's row: it exists exactly when every column's step and
      sub-step exists, and then each cell is the value its header column names. */
  lemma ExtractRowFollowsSchema(item: Session)
    ensures ExtractRow(item).Ok? <==> Resolves(item, Schema)
    ensures ExtractRow(item).Ok? ==> RowMatches(item, Schema, ExtractRow(item).value)
  {
    StepPaths(item);
    var p0: seq<nat> := [1, 0, 0];
    var p1: seq<nat> := [1, 0, 1];
    var s0 := SessionColumns;
    var s1 := s0 + StepColumns("Get", p0);
    var s2 := s1 + ChildColumns("Get", p0);
    var s3 := s2 + StepColumns("Update", p1);
    assert Schema == s3 + ChildColumns("Update", p1);
    SessionColumnsMatch(item);
    StepColumnsMatch(item, "Get", p0);
    ChildColumnsMatch(item, "Get", p0);
    StepColumnsMatch(item, "Update", p1);
    ChildColumnsMatch(item, "Update", p1);
    ResolvesAppend(item, s0, StepColumns("Get", p0));
    ResolvesAppend(item, s1, ChildColumns("Get", p0));
    ResolvesAppend(item, s2, StepColumns("Update", p1));
    ResolvesAppend(item, s3, ChildColumns("Update", p1));
    if ExtractRow(item).Ok? {
      var ef := item.root.children[1].children[0];
      var getSql := ef.children[0].children;
      var updateSql := ef.children[1].children;
      var r0 := SessionValues(item);
      var r1 := r0 + StepValues(ef.children[0]);
      var r2 := r1 + ChildValues(getSql[0], getSql[1], getSql[2]);
      var r3 := r2 + StepValues(ef.children[1]);
      assert ExtractRow(item).value == r3 + ChildValues(updateSql[0], updateSql[1], updateSql[2]);
      RowMatchesAppend(item, s0, StepColumns("Get", p0), r0, StepValues(ef.children[0]));
      RowMatchesAppend(item, s1, ChildColumns("Get", p0), r1, ChildValues(getSql[0], getSql[1], getSql[2]));
      RowMatchesAppend(item, s2, StepColumns("Update", p1), r2, StepValues(ef.children[1]));
      RowMatchesAppend(item, s3, ChildColumns("Update", p1), r3, ChildValues(updateSql[0], updateSql[1], updateSql[2]));
    }
  }

  /** The header is the fixed 19-name line the action writes: `TestController`'s header
      without the "ContextStart" and "ContextMs" pair. */
  lemma HeaderIsFixed()
    ensures Columns == ["Id", "Started", "TotalMs"] +
      ["GetStart", "GetMs"] +
      ["GetOpenStart", "GetOpenMs", "GetSelectStart", "GetSelectMs", "GetCloseStart", "GetCloseMs"] +
      ["UpdateStart", "UpdateMs"] +
      ["UpdateOpenStart", "UpdateOpenMs", "UpdateSelectStart", "UpdateSelectMs", "UpdateCloseStart", "UpdateCloseMs"]
  {
    var p0: seq<nat> := [1, 0, 0];
    var p1: seq<nat> := [1, 0, 1];
    var s1 := SessionColumns + StepColumns("Get", p0);
    var s2 := s1 + ChildColumns("Get", p0);
    var s3 := s2 + StepColumns("Update", p1);
    NamesAppend(SessionColumns, StepColumns("Get", p0));
    NamesAppend(s1, ChildColumns("Get", p0));
    NamesAppend(s2, StepColumns("Update", p1));
    NamesAppend(s3, ChildColumns("Update", p1));
    GetNames(p0);
    UpdateNames(p1);
  }

  /** The header's names, none holding a comma or a newline. */
  lemma HeaderNamesPlain(names: seq<string>)
    requires names == ["Id", "Started", "TotalMs"] +
      ["GetStart", "GetMs"] +
      ["GetOpenStart", "GetOpenMs", "GetSelectStart", "GetSelectMs", "GetCloseStart", "GetCloseMs"] +
      ["UpdateStart", "UpdateMs"] +
      ["UpdateOpenStart", "UpdateOpenMs", "UpdateSelectStart", "UpdateSelectMs", "UpdateCloseStart", "UpdateCloseMs"]
    ensures forall k :: 0 <= k < |names| ==> Plain(names[k])
  {
  }

  /** No header name holds a comma or a newline. */
  lemma HeaderPlain()
    ensures |Columns| == 19
    ensures forall k :: 0 <= k < |Columns| ==> Plain(Columns[k])
  {
    HeaderIsFixed();
    HeaderNamesPlain(Columns);
  }

  /** Read back, a produced report with plain field formatting is a table of the 19 header
      names followed by exactly one 19-field row per window session, oldest first. */
  lemma ReportParses(store: Store, marker: Guid, fmt: Value -> string)
    requires forall v :: Plain(fmt(v))
    requires Build(Columns, ExtractRow, Window.SinceCheckpoint(store, marker), fmt).Ok?
    ensures |Columns| == 19
    ensures var items := Window.SinceCheckpoint(store, marker);
      ReadsBack(Build(Columns, ExtractRow, items, fmt).value, Columns, ExtractRow, items, fmt)
  {
    HeaderPlain();
    assert forall s :: ExtractRow(s).Ok? ==> |ExtractRow(s).value| == |Columns|;
    BuildParses(Columns, ExtractRow, Window.SinceCheckpoint(store, marker), fmt);
  }

  /** A session recorded by `UpdateItemAsync` (its "EF Core Stuff" step at
      `Root.Children[1].Children[0]`) always has a report row, for either coin flip: both
      database steps are there and each has its three sub-steps. */
  lemma UpdateSessionRow(s: Session, id: Guid, todo: bool, hits: seq<RouteHit>, now: DateTime)
    requires |s.root.children| > 1 && |s.root.children[1].children| > 0
    requires Shape(s.root.children[1].children[0]) == UpdateItem(id, todo, hits, now).steps
    ensures ExtractRow(s).Ok?
  {
    var ef := s.root.children[1].children[0];
    var steps := UpdateItem(id, todo, hits, now).steps;
    assert |ef.children| == |steps.children| == 2;
    assert Shape(ef.children[0]) == steps.children[0];
    assert Shape(ef.children[1]) == steps.children[1];
  }

  /** The controller's static state: `LastUpdate`, the checkpoint of the benchmark window. */
  class Controller {
    var lastUpdate: Guid

    constructor ()
      ensures lastUpdate == EmptyGuid
    {
      lastUpdate := EmptyGuid;
    }

    /** `GetHitListAsync()`: records the current session's id as the checkpoint, then answers
        the ids of all route hits; an invalid model state answers 400 and leaves the checkpoint. */
    method GetHitList(modelStateValid: bool, currentId: Guid, hits: seq<RouteHit>) returns (result: ActionResult)
      modifies this
      ensures !modelStateValid ==> result == BadRequest && lastUpdate == old(lastUpdate)
      ensures modelStateValid ==> lastUpdate == currentId && result == OkObject(Ids(IdsOf(hits)))
    {
      if !modelStateValid {
        return BadRequest;
      }
      lastUpdate := currentId;
      result := OkObject(Ids(IdsOf(hits)));
    }

    /** `GetProfilingDataSinceLastPopulateAsync()`: header line, then one row line per session
        of the window since the checkpoint; a row that cannot be read fails the request. */
    method GetProfilingDataSinceLastPopulate(store: Store, fmt: Value -> string) returns (result: ActionResult)
      ensures var report := Build(Columns, ExtractRow, Window.SinceCheckpoint(store, lastUpdate), fmt);
        result == if report.Ok? then OkObject(PlainText(report.value)) else InternalServerError
    {
      var items := Window.SinceCheckpoint(store, lastUpdate);
      var output := Text.Join(Columns, ',') + [NewLine];
      for i := 0 to |items|
        invariant Build(Columns, ExtractRow, items[..i], fmt) == Ok(output)
      {
        var row := ExtractRow(items[i]);
        if row.Err? {
          BuildOkIff(Columns, ExtractRow, items, fmt);
          return InternalServerError;
        }
        assert items[..i + 1][..i] == items[..i];
        output := output + RowLine(row.value, fmt) + [NewLine];
      }
      assert items[..|items|] == items;
      return OkObject(PlainText(output));
    }
  }
}
