/** `Test2Controller`: the hit list that opens the benchmark window, the
    id-echoing update (context from dependency injection, no "Create Context"
    step), and the 19-column report of the sessions since the window opened. */
module Test2Controller {
  import opened Wrappers
  import opened Profiling
  import opened Models
  import opened Http
  import opened Report
  import Window
  import Text

  /** The report's columns and where each value comes from: under "EF Core Stuff" at
      `Root.Children[1].Children[0]`, child 0 is "Get Existing" and child 1 "Update"; the SQL
      columns are the first three "sql" custom timings of each. */
  const Schema: seq<Column> :=
    SessionColumns +
    StepColumns("Get", [1, 0, 0]) + SqlColumns("Get", [1, 0, 0]) +
    StepColumns("Update", [1, 0, 1]) + SqlColumns("Update", [1, 0, 1])

  /** The header line's column names, in order. */
  const Columns: seq<string> := Names(Schema)

  /** `UpdateItemAsync(id)`: a "Get Existing" step under "EF Core Stuff", then, only when a hit
      with this id exists, an "Update" step that stamps it with `now`. The answer is the id it
      was given either way. */
  function UpdateItem(id: Guid, hits: seq<RouteHit>, now: DateTime): (r: Handled)
    ensures r.result == OkObject(Id(id))
    ensures r.hits == Touch(hits, id, now)
    ensures r.steps.name == "EF Core Stuff"
    ensures 1 <= |r.steps.children| <= 2 && r.steps.children[0] == Leaf("Get Existing")
    ensures |r.steps.children| == 2 <==> exists i :: 0 <= i < |hits| && hits[i].id == id
    ensures |r.steps.children| == 2 ==> r.steps.children[1] == Leaf("Update")
  {
    var hit := FindHit(hits, id);
    var steps := [Leaf("Get Existing")] + (if hit.Some? then [Leaf("Update")] else []);
    var after := if hit.Some? then Touch(hits, id, now) else hits;
    Handled(OkObject(Id(id)), after, StepTree("EF Core Stuff", steps))
  }

  /** One report row, read positionally from the session just as the `foreach` body does;
      the first index or key that is not there raises the fault. */
  function ExtractRow(item: Session): (r: Result<seq<Value>, Fault>)
    ensures r.Ok? ==> |r.value| == |Schema|
  {
    var action :- Child(item.root, 1);
    var efCore :- Child(action, 0);
    var get :- Child(efCore, 0);
    var getSql :- Category(get, SqlCategory);
    var update :- Child(efCore, 1);
    var updateSql :- Category(update, SqlCategory);
    var g0 :- Entry(getSql, 0);
    var g1 :- Entry(getSql, 1);
    var g2 :- Entry(getSql, 2);
    var u0 :- Entry(updateSql, 0);
    var u1 :- Entry(updateSql, 1);
    var u2 :- Entry(updateSql, 2);
    Ok(SessionValues(item) +
       StepValues(get) + SqlValues(g0, g1, g2) +
       StepValues(update) + SqlValues(u0, u1, u2))
  }

  /** Walking the schema's paths reaches the two steps under "EF Core Stuff". */
  lemma StepPaths(item: Session)
    ensures forall c :: 0 <= c < 2 ==>
      Walk(item.root, [1, 0, c]) ==
        if |item.root.children| > 1 && |item.root.children[1].children| > 0 &&
           c < |item.root.children[1].children[0].children|
        then Some(item.root.children[1].children[0].children[c]) else None
  {
    WalkThree(item.root, 1, 0, 0);
    WalkThree(item.root, 1, 0, 1);
  }

  /** The positional row is the schema's row: it exists exactly when every column's step and
      custom timing exists, and then each cell is the value its header column names. */
  lemma ExtractRowFollowsSchema(item: Session)
    ensures ExtractRow(item).Ok? <==> Resolves(item, Schema)
    ensures ExtractRow(item).Ok? ==> RowMatches(item, Schema, ExtractRow(item).value)
  {
    StepPaths(item);
    var p0: seq<nat> := [1, 0, 0];
    var p1: seq<nat> := [1, 0, 1];
    var s0 := SessionColumns;
    var s1 := s0 + StepColumns("Get", p0);
    var s2 := s1 + SqlColumns("Get", p0);
    var s3 := s2 + StepColumns("Update", p1);
    assert Schema == s3 + SqlColumns("Update", p1);
    SessionColumnsMatch(item);
    StepColumnsMatch(item, "Get", p0);
    SqlColumnsMatch(item, "Get", p0);
    StepColumnsMatch(item, "Update", p1);
    SqlColumnsMatch(item, "Update", p1);
    ResolvesAppend(item, s0, StepColumns("Get", p0));
    ResolvesAppend(item, s1, SqlColumns("Get", p0));
    ResolvesAppend(item, s2, StepColumns("Update", p1));
    ResolvesAppend(item, s3, SqlColumns("Update", p1));
    if ExtractRow(item).Ok? {
      var ef := item.root.children[1].children[0];
      var getSql := ef.children[0].customTimings[SqlCategory];
      var updateSql := ef.children[1].customTimings[SqlCategory];
      var r0 := SessionValues(item);
      var r1 := r0 + StepValues(ef.children[0]);
      var r2 := r1 + SqlValues(getSql[0], getSql[1], getSql[2]);
      var r3 := r2 + StepValues(ef.children[1]);
      assert ExtractRow(item).value == r3 + SqlValues(updateSql[0], updateSql[1], updateSql[2]);
      RowMatchesAppend(item, s0, StepColumns("Get", p0), r0, StepValues(ef.children[0]));
      RowMatchesAppend(item, s1, SqlColumns("Get", p0), r1, SqlValues(getSql[0], getSql[1], getSql[2]));
      RowMatchesAppend(item, s2, StepColumns("Update", p1), r2, StepValues(ef.children[1]));
      RowMatchesAppend(item, s3, SqlColumns("Update", p1), r3, SqlValues(updateSql[0], updateSql[1], updateSql[2]));
    }
  }

  /** The header is the fixed 19-name line the action writes: `TestController`'s header
      without the "ContextStart" and "ContextMs" pair. */
  lemma HeaderIsFixed()
    ensures Columns == ["Id", "Started", "TotalMs"] +
      ["GetStart", "GetMs"] +
      ["GetOpenStart", "GetOpenMs", "GetSelectStart", "GetSelectMs", "GetCloseStart", "GetCloseMs"] +
      ["UpdateStart", "UpdateMs"] +
      ["UpdateOpenStart", "UpdateOpenMs", "UpdateSelectStart", "UpdateSelectMs", "UpdateCloseStart", "UpdateCloseMs"]
  {
    var p0: seq<nat> := [1, 0, 0];
    var p1: seq<nat> := [1, 0, 1];
    var s1 := SessionColumns + StepColumns("Get", p0);
    var s2 := s1 + SqlColumns("Get", p0);
    var s3 := s2 + StepColumns("Update", p1);
    NamesAppend(SessionColumns, StepColumns("Get", p0));
    NamesAppend(s1, SqlColumns("Get", p0));
    NamesAppend(s2, StepColumns("Update", p1));
    NamesAppend(s3, SqlColumns("Update", p1));
    GetNames(p0);
    UpdateNames(p1);
  }

  /** The header's names, none holding a comma or a newline. */
  lemma HeaderNamesPlain(names: seq<string>)
    requires names == ["Id", "Started", "TotalMs"] +
      ["GetStart", "GetMs"] +
      ["GetOpenStart", "GetOpenMs", "GetSelectStart", "GetSelectMs", "GetCloseStart", "GetCloseMs"] +
      ["UpdateStart", "UpdateMs"] +
      ["UpdateOpenStart", "UpdateOpenMs", "UpdateSelectStart", "UpdateSelectMs", "UpdateCloseStart", "UpdateCloseMs"]
    ensures forall k :: 0 <= k < |names| ==> Plain(names[k])
  {
  }

  /** No header name holds a comma or a newline. */
  lemma HeaderPlain()
    ensures |Columns| == 19
    ensures forall k :: 0 <= k < |Columns| ==> Plain(Columns[k])
  {
    HeaderIsFixed();
    HeaderNamesPlain(Columns);
  }

  /** Read back, a produced report with plain field formatting is a table of the 19 header
      names followed by exactly one 19-field row per window session, oldest first. */
  lemma ReportParses(store: Store, marker: Guid, fmt: Value -> string)
    requires forall v :: Plain(fmt(v))
    requires Build(Columns, ExtractRow, Window.SinceCheckpoint(store, marker), fmt).Ok?
    ensures |Columns| == 19
    ensures var items := Window.SinceCheckpoint(store, marker);
      ReadsBack(Build(Columns, ExtractRow, items, fmt).value, Columns, ExtractRow, items, fmt)
  {
    HeaderPlain();
    assert forall s :: ExtractRow(s).Ok? ==> |ExtractRow(s).value| == |Columns|;
    BuildParses(Columns, ExtractRow, Window.SinceCheckpoint(store, marker), fmt);
  }

  /** A session recorded by `UpdateItemAsync` (its "EF Core Stuff" step at
      `Root.Children[1].Children[0]`, with three "sql" timings under each database step) has a
      report row exactly when the hit existed: without the "Update" step, `Children[1]` is
      out of range and the whole report fails. */
  lemma UpdateSessionRow(s: Session, id: Guid, hits: seq<RouteHit>, now: DateTime)
    requires |s.root.children| > 1 && |s.root.children[1].children| > 0
    requires Shape(s.root.children[1].children[0]) == UpdateItem(id, hits, now).steps
    requires var ef := s.root.children[1].children[0];
      forall c :: 0 <= c < |ef.children| ==>
        SqlCategory in ef.children[c].customTimings && |ef.children[c].customTimings[SqlCategory]| >= 3
    ensures ExtractRow(s).Ok? <==> FindHit(hits, id).Some?
  {
    var ef := s.root.children[1].children[0];
    assert |ef.children| == |UpdateItem(id, hits, now).steps.children|;
  }

  /** The controller's static state: `LastUpdate`, the checkpoint of the benchmark window. */
  class Controller {
    var lastUpdate: Guid

    constructor ()
      ensures lastUpdate == EmptyGuid
    {
      lastUpdate := EmptyGuid;
    }

    /** `GetHitListAsync()`: records the current session's id as the checkpoint, then answers
        the ids of all route hits; an invalid model state answers 400 and leaves the checkpoint. */
    method GetHitList(modelStateValid: bool, currentId: Guid, hits: seq<RouteHit>) returns (result: ActionResult)
      modifies this
      ensures !modelStateValid ==> result == BadRequest && lastUpdate == old(lastUpdate)
      ensures modelStateValid ==> lastUpdate == currentId && result == OkObject(Ids(IdsOf(hits)))
    {
      if !modelStateValid {
        return BadRequest;
      }
      lastUpdate := currentId;
      result := OkObject(Ids(IdsOf(hits)));
    }

    /** `GetProfilingDataSinceLastPopulateAsync()`: header line, then one row line per session
        of the window since the checkpoint; a row that cannot be read fails the request. */
    method GetProfilingDataSinceLastPopulate(store: Store, fmt: Value -> string) returns (result: ActionResult)
      ensures var report := Build(Columns, ExtractRow, Window.SinceCheckpoint(store, lastUpdate), fmt);
        result == if report.Ok? then OkObject(PlainText(report.value)) else InternalServerError
    {
      var items := Window.SinceCheckpoint(store, lastUpdate);
      var output := Text.Join(Columns, ',') + [NewLine];
      for i := 0 to |items|
        invariant Build(Columns, ExtractRow, items[..i], fmt) == Ok(output)
      {
        var row := ExtractRow(items[i]);
        if row.Err? {
          BuildOkIff(Columns, ExtractRow, items, fmt);
          return InternalServerError;
        }
        assert items[..i + 1][..i] == items[..i];
        output := output + RowLine(row.value, fmt) + [NewLine];
      }
      assert items[..|items|] == items;
      return OkObject(PlainText(output));
    }
  }
}
