/** `TestController`: ping, the top-up populate, the hit list that opens the
    benchmark window, the id-echoing update, and the 21-column report of the
    sessions since the window opened. */
module TestController {
  import opened Wrappers
  import opened Profiling
  import opened Models
  import opened Http
  import opened Report
  import Window
  import Text

  /** The report's columns and where each value comes from. The steps sit under
      `Root.Children[1].Children[0]` ("EF Core Stuff"): child 0 is "Create Context",
      child 1 "Get Existing", child 2 "Update"; the SQL columns are the first three
      "sql" custom timings of the last two. */
  const Schema: seq<Column> :=
    SessionColumns + StepColumns("Context", [1, 0, 0]) +
    StepColumns("Get", [1, 0, 1]) + SqlColumns("Get", [1, 0, 1]) +
    StepColumns("Update", [1, 0, 2]) + SqlColumns("Update", [1, 0, 2])

  /** The header line's column names, in order. */
  const Columns: seq<string> := Names(Schema)

  /** `Ok("pong")`. */
  function Ping(): (r: ActionResult)
    ensures r == OkObject(PlainText("pong"))
  {
    OkObject(PlainText("pong"))
  }

  /** Hits numbered differently get different names. */
  lemma HitNamesDistinct(i: int, j: int)
    requires i != j
    ensures "name" + Text.DecimalText(i) != "name" + Text.DecimalText(j)
  {
    var a, b := "name" + Text.DecimalText(i), "name" + Text.DecimalText(j);
    assert a[4..] == Text.DecimalText(i) && b[4..] == Text.DecimalText(j);
    Text.DecimalTextInjective(i, j);
  }

  /** `PopulateDatabaseAsync(count)`: when the table holds fewer than `count` hits, adds one hit
      for each i from the current count up to `count`, named "name" + i; answers `count`.
      `newGuid(j)` and `utcNow(j)` are what `Guid.NewGuid()` and `DateTime.UtcNow` give in
      the j-th pass of the loop. */
  method PopulateDatabase(
    modelStateValid: bool, count: int, hits: seq<RouteHit>,
    newGuid: nat -> Guid, utcNow: nat -> DateTime)
    returns (result: ActionResult, added: seq<RouteHit>)
    ensures !modelStateValid ==> result == BadRequest && added == []
    ensures modelStateValid ==> result == OkObject(Number(count))
    ensures modelStateValid ==> |added| == if |hits| < count then count - |hits| else 0
    ensures modelStateValid ==> |hits| + |added| == if |hits| < count then count else |hits|
    ensures forall j :: 0 <= j < |added| ==>
      added[j] == RouteHit(newGuid(j), "name" + Text.DecimalText(|hits| + j), Some(utcNow(j)))
    ensures forall j, k :: 0 <= j < k < |added| ==> added[j].name != added[k].name
  {
    if !modelStateValid {
      return BadRequest, [];
    }
    var existingCount := |hits|;
    added := [];
    if existingCount < count {
      for i := existingCount to count
        invariant |added| == i - existingCount
        invariant forall j :: 0 <= j < |added| ==>
          added[j] == RouteHit(newGuid(j), "name" + Text.DecimalText(existingCount + j), Some(utcNow(j)))
      {
        added := added + [RouteHit(newGuid(i - existingCount), "name" + Text.DecimalText(i), Some(utcNow(i - existingCount)))];
      }
    }
    forall j, k | 0 <= j < k < |added| ensures added[j].name != added[k].name {
      HitNamesDistinct(existingCount + j, existingCount + k);
    }
    result := OkObject(Number(count));
  }

  /** `UpdateItemAsync(id)`: steps "Create Context" and "Get Existing" under "EF Core Stuff",
      then, only when a hit with this id exists, an "Update" step that stamps it with `now`.
      The answer is the id it was given either way. */
  function UpdateItem(id: Guid, hits: seq<RouteHit>, now: DateTime): (r: Handled)
    ensures r.result == OkObject(Id(id))
    ensures r.hits == Touch(hits, id, now)
    ensures r.steps.name == "EF Core Stuff"
    ensures |r.steps.children| == 3 || |r.steps.children| == 2
    ensures r.steps.children[..2] == [Leaf("Create Context"), Leaf("Get Existing")]
    ensures |r.steps.children| == 3 <==> exists i :: 0 <= i < |hits| && hits[i].id == id
    ensures |r.steps.children| == 3 ==> r.steps.children[2] == Leaf("Update")
  {
    var hit := FindHit(hits, id);
    var steps := [Leaf("Create Context"), Leaf("Get Existing")] + (if hit.Some? then [Leaf("Update")] else []);
    var after := if hit.Some? then Touch(hits, id, now) else hits;
    Handled(OkObject(Id(id)), after, StepTree("EF Core Stuff", steps))
  }

  /** One report row, read positionally from the session just as the `foreach` body does;
      the first index or key that is not there raises the fault. */
  function ExtractRow(item: Session): (r: Result<seq<Value>, Fault>)
    ensures r.Ok? ==> |r.value| == |Schema|
  {
    var action :- Child(item.root, 1);
    var efCore :- Child(action, 0);
    var createContext :- Child(efCore, 0);
    var get :- Child(efCore, 1);
    var getSql :- Category(get, SqlCategory);
    var update :- Child(efCore, 2);
    var updateSql :- Category(update, SqlCategory);
    var g0 :- Entry(getSql, 0);
    var g1 :- Entry(getSql, 1);
    var g2 :- Entry(getSql, 2);
    var u0 :- Entry(updateSql, 0);
    var u1 :- Entry(updateSql, 1);
    var u2 :- Entry(updateSql, 2);
    Ok(SessionValues(item) + StepValues(createContext) +
       StepValues(get) + SqlValues(g0, g1, g2) +
       StepValues(update) + SqlValues(u0, u1, u2))
  }

  /** Walking the schema's paths reaches the three steps under "EF Core Stuff". */
  lemma StepPaths(item: Session)
    ensures forall c :: 0 <= c < 3 ==>
      Walk(item.root, [1, 0, c]) ==
        if |item.root.children| > 1 && |item.root.children[1].children| > 0 &&
           c < |item.root.children[1].children[0].children|
        then Some(item.root.children[1].children[0].children[c]) else None
  {
    WalkThree(item.root, 1, 0, 0);
    WalkThree(item.root, 1, 0, 1);
    WalkThree(item.root, 1, 0, 2);
  }

  /** The positional row is the schema's row: it exists exactly when every column's step and
      custom timing exists, and then each cell is the value its header column names. */
  lemma ExtractRowFollowsSchema(item: Session)
    ensures ExtractRow(item).Ok? <==> Resolves(item, Schema)
    ensures ExtractRow(item).Ok? ==> RowMatches(item, Schema, ExtractRow(item).value)
  {
    StepPaths(item);
    var p0: seq<nat> := [1, 0, 0];
    var p1: seq<nat> := [1, 0, 1];
    var p2: seq<nat> := [1, 0, 2];
    var s0 := SessionColumns;
    var s1 := s0 + StepColumns("Context", p0);
    var s2 := s1 + StepColumns("Get", p1);
    var s3 := s2 + SqlColumns("Get", p1);
    var s4 := s3 + StepColumns("Update", p2);
    assert Schema == s4 + SqlColumns("Update", p2);
    SessionColumnsMatch(item);
    StepColumnsMatch(item, "Context", p0);
    StepColumnsMatch(item, "Get", p1);
    SqlColumnsMatch(item, "Get", p1);
    StepColumnsMatch(item, "Update", p2);
    SqlColumnsMatch(item, "Update", p2);
    ResolvesAppend(item, s0, StepColumns("Context", p0));
    ResolvesAppend(item, s1, StepColumns("Get", p1));
    ResolvesAppend(item, s2, SqlColumns("Get", p1));
    ResolvesAppend(item, s3, StepColumns("Update", p2));
    ResolvesAppend(item, s4, SqlColumns("Update", p2));
    if ExtractRow(item).Ok? {
      var ef := item.root.children[1].children[0];
      var getSql := ef.children[1].customTimings[SqlCategory];
      var updateSql := ef.children[2].customTimings[SqlCategory];
      var r0 := SessionValues(item);
      var r1 := r0 + StepValues(ef.children[0]);
      var r2 := r1 + StepValues(ef.children[1]);
      var r3 := r2 + SqlValues(getSql[0], getSql[1], getSql[2]);
      var r4 := r3 + StepValues(ef.children[2]);
      assert ExtractRow(item).value == r4 + SqlValues(updateSql[0], updateSql[1], updateSql[2]);
      RowMatchesAppend(item, s0, StepColumns("Context", p0), r0, StepValues(ef.children[0]));
      RowMatchesAppend(item, s1, StepColumns("Get", p1), r1, StepValues(ef.children[1]));
      RowMatchesAppend(item, s2, SqlColumns("Get", p1), r2, SqlValues(getSql[0], getSql[1], getSql[2]));
      RowMatchesAppend(item, s3, StepColumns("Update", p2), r3, StepValues(ef.children[2]));
      RowMatchesAppend(item, s4, SqlColumns("Update", p2), r4, SqlValues(updateSql[0], updateSql[1], updateSql[2]));
    }
  }

  /** The header is the fixed 21-name line the action writes. */
  lemma HeaderIsFixed()
    ensures Columns == ["Id", "Started", "TotalMs"] +
      ["ContextStart", "ContextMs"] +
      ["GetStart", "GetMs"] +
      ["GetOpenStart", "GetOpenMs", "GetSelectStart", "GetSelectMs", "GetCloseStart", "GetCloseMs"] +
      ["UpdateStart", "UpdateMs"] +
      ["UpdateOpenStart", "UpdateOpenMs", "UpdateSelectStart", "UpdateSelectMs", "UpdateCloseStart", "UpdateCloseMs"]
  {
    var p0: seq<nat> := [1, 0, 0];
    var p1: seq<nat> := [1, 0, 1];
    var p2: seq<nat> := [1, 0, 2];
    var s1 := SessionColumns + StepColumns("Context", p0);
    var s2 := s1 + StepColumns("Get", p1);
    var s3 := s2 + SqlColumns("Get", p1);
    var s4 := s3 + StepColumns("Update", p2);
    NamesAppend(SessionColumns, StepColumns("Context", p0));
    NamesAppend(s1, StepColumns("Get", p1));
    NamesAppend(s2, SqlColumns("Get", p1));
    NamesAppend(s3, StepColumns("Update", p2));
    NamesAppend(s4, SqlColumns("Update", p2));
    ContextNames(p0);
    GetNames(p1);
    UpdateNames(p2);
  }

  /** The header's names, none holding a comma or a newline. */
  lemma HeaderNamesPlain(names: seq<string>)
    requires names == ["Id", "Started", "TotalMs"] +
      ["ContextStart", "ContextMs"] +
      ["GetStart", "GetMs"] +
      ["GetOpenStart", "GetOpenMs", "GetSelectStart", "GetSelectMs", "GetCloseStart", "GetCloseMs"] +
      ["UpdateStart", "UpdateMs"] +
      ["UpdateOpenStart", "UpdateOpenMs", "UpdateSelectStart", "UpdateSelectMs", "UpdateCloseStart", "UpdateCloseMs"]
    ensures forall k :: 0 <= k < |names| ==> Plain(names[k])
  {
  }

  /** No header name holds a comma or a newline. */
  lemma HeaderPlain()
    ensures |Columns| == 21
    ensures forall k :: 0 <= k < |Columns| ==> Plain(Columns[k])
  {
    HeaderIsFixed();
    HeaderNamesPlain(Columns);
  }

  /** Read back, a produced report with plain field formatting is a table of the 21 header
      names followed by exactly one 21-field row per window session, oldest first. */
  lemma ReportParses(store: Store, marker: Guid, fmt: Value -> string)
    requires forall v :: Plain(fmt(v))
    requires Build(Columns, ExtractRow, Window.SinceCheckpoint(store, marker), fmt).Ok?
    ensures |Columns| == 21
    ensures var items := Window.SinceCheckpoint(store, marker);
      ReadsBack(Build(Columns, ExtractRow, items, fmt).value, Columns, ExtractRow, items, fmt)
  {
    HeaderPlain();
    assert forall s :: ExtractRow(s).Ok? ==> |ExtractRow(s).value| == |Columns|;
    BuildParses(Columns, ExtractRow, Window.SinceCheckpoint(store, marker), fmt);
  }

  /** A session recorded by `UpdateItemAsync` (its "EF Core Stuff" step at
      `Root.Children[1].Children[0]`, with three "sql" timings under each database step) has a
      report row exactly when the hit existed: without the "Update" step, `Children[2]` is
      out of range and the whole report fails. */
  lemma UpdateSessionRow(s: Session, id: Guid, hits: seq<RouteHit>, now: DateTime)
    requires |s.root.children| > 1 && |s.root.children[1].children| > 0
    requires Shape(s.root.children[1].children[0]) == UpdateItem(id, hits, now).steps
    requires var ef := s.root.children[1].children[0];
      forall c :: 1 <= c < |ef.children| ==>
        SqlCategory in ef.children[c].customTimings && |ef.children[c].customTimings[SqlCategory]| >= 3
    ensures ExtractRow(s).Ok? <==> FindHit(hits, id).Some?
  {
    var ef := s.root.children[1].children[0];
    assert |ef.children| == |UpdateItem(id, hits, now).steps.children|;
  }

  /** The controller's static state: `LastUpdate`, the checkpoint of the benchmark window. */
  class Controller {
    var lastUpdate: Guid

    constructor ()
      ensures lastUpdate == EmptyGuid
    {
      lastUpdate := EmptyGuid;
    }

    /** `GetHitListAsync()`: records the current session's id as the checkpoint, then answers
        the ids of all route hits; an invalid model state answers 400 and leaves the checkpoint. */
    method GetHitList(modelStateValid: bool, currentId: Guid, hits: seq<RouteHit>) returns (result: ActionResult)
      modifies this
      ensures !modelStateValid ==> result == BadRequest && lastUpdate == old(lastUpdate)
      ensures modelStateValid ==> lastUpdate == currentId && result == OkObject(Ids(IdsOf(hits)))
    {
      if !modelStateValid {
        return BadRequest;
      }
      lastUpdate := currentId;
      result := OkObject(Ids(IdsOf(hits)));
    }

    /** `GetProfilingDataSinceLastPopulateAsync()`: header line, then one row line per session
        of the window since the checkpoint; a row that cannot be read fails the request. */
    method GetProfilingDataSinceLastPopulate(store: Store, fmt: Value -> string) returns (result: ActionResult)
      ensures var report := Build(Columns, ExtractRow, Window.SinceCheckpoint(store, lastUpdate), fmt);
        result == if report.Ok? then OkObject(PlainText(report.value)) else InternalServerError
    {
      var items := Window.SinceCheckpoint(store, lastUpdate);
      var output := Text.Join(Columns, ',') + [NewLine];
      for i := 0 to |items|
        invariant Build(Columns, ExtractRow, items[..i], fmt) == Ok(output)
      {
        var row := ExtractRow(items[i]);
        if row.Err? {
          BuildOkIff(Columns, ExtractRow, items, fmt);
          return InternalServerError;
        }
        assert items[..i + 1][..i] == items[..i];
        output := output + RowLine(row.value, fmt) + [NewLine];
      }
      assert items[..|items|] == items;
      return OkObject(PlainText(output));
    }
  }
}
