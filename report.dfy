/** What the three report actions share: the positional accessors whose C#
    indexers throw, a declarative column schema (which step and which custom
    timing each column comes from), the CSV text the `foreach` loop builds,
    and the reading of that text back into a table. */
module Report {
  import opened Wrappers
  import opened Profiling
  import Text

  /** `Environment.NewLine`, as on the Linux hosts the service runs on. */
  const NewLine: char := '\n'

  /** The custom-timing category the SQL columns are read from. */
  const SqlCategory: string := "sql"

  /** One report cell before formatting. */
  datatype Value = IdValue(id: Guid) | StartedValue(at: DateTime) | MsValue(ms: Ms)

  /** The exceptions positional access raises: a list index past the end
      (ArgumentOutOfRange) or a missing dictionary key (KeyNotFound). */
  datatype Fault = IndexOutOfRange | KeyNotFound

  // ---- positional access, as the C# indexers behave -------------------------

  /** `t.Children[i]`. */
  function Child(t: Timing, i: nat): (r: Result<Timing, Fault>)
    ensures r.Ok? <==> i < |t.children|
    ensures r.Ok? ==> r.value == t.children[i]
    ensures r.Err? ==> r.error == IndexOutOfRange
  {
    if i < |t.children| then Ok(t.children[i]) else Err(IndexOutOfRange)
  }

  /** `t.CustomTimings[key]`. */
  function Category(t: Timing, key: string): (r: Result<seq<CustomTiming>, Fault>)
    ensures r.Ok? <==> key in t.customTimings
    ensures r.Ok? ==> r.value == t.customTimings[key]
    ensures r.Err? ==> r.error == KeyNotFound
  {
    if key in t.customTimings then Ok(t.customTimings[key]) else Err(KeyNotFound)
  }

  /** `list[i]`. */
  function Entry<T>(s: seq<T>, i: nat): (r: Result<T, Fault>)
    ensures r.Ok? <==> i < |s|
    ensures r.Ok? ==> r.value == s[i]
    ensures r.Err? ==> r.error == IndexOutOfRange
  {
    if i < |s| then Ok(s[i]) else Err(IndexOutOfRange)
  }

  // ---- the column schema -------------------------------------------------

  datatype Field = Start | Duration

  /** Where a column's value comes from: the session itself, a step reached by a path of
      child indices from the root, or one entry of a step's "sql" custom timings. */
  datatype Source =
    | SessionId
    | SessionStarted
    | SessionDuration
    | StepField(path: seq<nat>, field: Field)
    | SqlField(path: seq<nat>, index: nat, field: Field)

  datatype Column = Column(name: string, source: Source)

  function Walk(t: Timing, path: seq<nat>): Option<Timing>
    decreases |path|
  {
    if |path| == 0 then Some(t)
    else if path[0] < |t.children| then Walk(t.children[path[0]], path[1..])
    else None
  }

  /** A three-step path reaches the grandchild's child exactly when each index is in range. */
  lemma WalkThree(t: Timing, a: nat, b: nat, c: nat)
    ensures Walk(t, [a, b, c]) ==
      if a < |t.children| && b < |t.children[a].children| && c < |t.children[a].children[b].children|
      then Some(t.children[a].children[b].children[c]) else None
  {
    assert [a, b, c][1..] == [b, c];
    assert [b, c][1..] == [c];
    assert [c][1..] == [];
    if a < |t.children| {
      var x := t.children[a];
      if b < |x.children| {
        var y := x.children[b];
        assert Walk(y, [c]) == if c < |y.children| then Walk(y.children[c], []) else None;
      }
    }
  }

  /** One more index at the end of a path steps to that child of where the path led. */
  lemma {:induction false} WalkAppend(t: Timing, path: seq<nat>, k: nat)
    ensures Walk(t, path + [k]) ==
      match Walk(t, path)
      case None => None
      case Some(u) => if k < |u.children| then Some(u.children[k]) else None
    decreases |path|
  {
    if |path| == 0 {
      assert path + [k] == [k];
      assert [k][1..] == [];
    } else {
      assert (path + [k])[0] == path[0];
      assert (path + [k])[1..] == path[1..] + [k];
      if path[0] < |t.children| {
        WalkAppend(t.children[path[0]], path[1..], k);
      }
    }
  }

  function Pick(start: Ms, duration: Ms, f: Field): Ms
  {
    match f
    case Start => start
    case Duration => duration
  }

  /** The value a source names in a session, or None when the session lacks that step
      or that custom timing. */
  function Resolve(s: Session, src: Source): Option<Value>
  {
    match src
    case SessionId => Some(IdValue(s.id))
    case SessionStarted => Some(StartedValue(s.started))
    case SessionDuration => Some(MsValue(s.duration))
    case StepField(path, f) =>
      (match Walk(s.root, path)
       case None => None
       case Some(t) => Some(MsValue(Pick(t.start, t.duration, f))))
    case SqlField(path, k, f) =>
      (match Walk(s.root, path)
       case None => None
       case Some(t) =>
         if SqlCategory in t.customTimings && k < |t.customTimings[SqlCategory]|
         then Some(MsValue(Pick(t.customTimings[SqlCategory][k].start, t.customTimings[SqlCategory][k].duration, f)))
         else None)
  }

  function Names(schema: seq<Column>): (r: seq<string>)
    ensures |r| == |schema| && forall k :: 0 <= k < |schema| ==> r[k] == schema[k].name
  {
    seq(|schema|, k requires 0 <= k < |schema| => schema[k].name)
  }

  /** Every column of the schema has a value in this session. */
  predicate Resolves(s: Session, schema: seq<Column>)
  {
    forall k :: 0 <= k < |schema| ==> Resolve(s, schema[k].source).Some?
  }

  /** The row holds, column by column, the values the schema names. */
  predicate RowMatches(s: Session, schema: seq<Column>, row: seq<Value>)
  {
    |row| == |schema| && forall k :: 0 <= k < |schema| ==> Resolve(s, schema[k].source) == Some(row[k])
  }

  /** Every column of `a + b` resolves exactly when those of `a` and those of `b` do. */
  lemma ResolvesAppend(s: Session, a: seq<Column>, b: seq<Column>)
    ensures Resolves(s, a + b) <==> Resolves(s, a) && Resolves(s, b)
  {
    if Resolves(s, a + b) {
      forall k | 0 <= k < |a| ensures Resolve(s, a[k].source).Some? {
        assert (a + b)[k] == a[k];
      }
      forall k | 0 <= k < |b| ensures Resolve(s, b[k].source).Some? {
        assert (a + b)[|a| + k] == b[k];
      }
    }
  }

  /** Rows that match two schemas side by side match the two schemas joined. */
  lemma RowMatchesAppend(s: Session, a: seq<Column>, b: seq<Column>, ra: seq<Value>, rb: seq<Value>)
    requires RowMatches(s, a, ra) && RowMatches(s, b, rb)
    ensures RowMatches(s, a + b, ra + rb)
  {
    forall k | 0 <= k < |a + b| ensures Resolve(s, (a + b)[k].source) == Some((ra + rb)[k]) {
      if k < |a| {
        assert (a + b)[k] == a[k] && (ra + rb)[k] == ra[k];
      } else {
        assert (a + b)[k] == b[k - |a|] && (ra + rb)[k] == rb[k - |a|];
      }
    }
  }

  // ---- column groups, as each report line is assembled ----------------------

  /** Id, start time and total duration of the session. */
  const SessionColumns: seq<Column> :=
    [Column("Id", SessionId), Column("Started", SessionStarted), Column("TotalMs", SessionDuration)]

  function SessionValues(s: Session): seq<Value>
  {
    [IdValue(s.id), StartedValue(s.started), MsValue(s.duration)]
  }

  /** Start and duration of the step at `path`. */
  function StepColumns(prefix: string, path: seq<nat>): seq<Column>
  {
    [Column(prefix + "Start", StepField(path, Start)), Column(prefix + "Ms", StepField(path, Duration))]
  }

  function StepValues(t: Timing): seq<Value>
  {
    [MsValue(t.start), MsValue(t.duration)]
  }

  /** Start and duration of the first three "sql" custom timings of the step at `path`:
      the connection open, the command and the connection close. */
  function SqlColumns(prefix: string, path: seq<nat>): seq<Column>
  {
    [Column(prefix + "OpenStart", SqlField(path, 0, Start)), Column(prefix + "OpenMs", SqlField(path, 0, Duration)),
     Column(prefix + "SelectStart", SqlField(path, 1, Start)), Column(prefix + "SelectMs", SqlField(path, 1, Duration)),
     Column(prefix + "CloseStart", SqlField(path, 2, Start)), Column(prefix + "CloseMs", SqlField(path, 2, Duration))]
  }

  function SqlValues(a: CustomTiming, b: CustomTiming, c: CustomTiming): seq<Value>
  {
    [MsValue(a.start), MsValue(a.duration), MsValue(b.start), MsValue(b.duration), MsValue(c.start), MsValue(c.duration)]
  }

  /** The same three pairs, read from the first three child steps of the step at `path`. */
  function ChildColumns(prefix: string, path: seq<nat>): seq<Column>
  {
    [Column(prefix + "OpenStart", StepField(path + [0], Start)), Column(prefix + "OpenMs", StepField(path + [0], Duration)),
     Column(prefix + "SelectStart", StepField(path + [1], Start)), Column(prefix + "SelectMs", StepField(path + [1], Duration)),
     Column(prefix + "CloseStart", StepField(path + [2], Start)), Column(prefix + "CloseMs", StepField(path + [2], Duration))]
  }

  function ChildValues(a: Timing, b: Timing, c: Timing): seq<Value>
  {
    [MsValue(a.start), MsValue(a.duration), MsValue(b.start), MsValue(b.duration), MsValue(c.start), MsValue(c.duration)]
  }

  lemma NamesAppend(a: seq<Column>, b: seq<Column>)
    ensures Names(a + b) == Names(a) + Names(b)
  {
    assert forall k :: 0 <= k < |a + b| ==> (a + b)[k].name == (Names(a) + Names(b))[k];
  }

  /** The header names of each group: the prefix, then the field. */
  lemma GroupNames(prefix: string, path: seq<nat>)
    ensures Names(SessionColumns) == ["Id", "Started", "TotalMs"]
    ensures Names(StepColumns(prefix, path)) == [prefix + "Start", prefix + "Ms"]
    ensures Names(SqlColumns(prefix, path)) == Names(ChildColumns(prefix, path)) ==
      [prefix + "OpenStart", prefix + "OpenMs", prefix + "SelectStart", prefix + "SelectMs",
       prefix + "CloseStart", prefix + "CloseMs"]
  {
  }

  /** The names of the "Context" groups, written out. */
  lemma ContextNames(path: seq<nat>)
    ensures Names(SessionColumns) == ["Id", "Started", "TotalMs"]
    ensures Names(StepColumns("Context", path)) == ["ContextStart", "ContextMs"]
    ensures Names(SqlColumns("Context", path)) == Names(ChildColumns("Context", path)) ==
      ["ContextOpenStart", "ContextOpenMs", "ContextSelectStart", "ContextSelectMs", "ContextCloseStart", "ContextCloseMs"]
  {
    GroupNames("Context", path);
    assert "Context" + "Start" == "ContextStart";
    assert "Context" + "Ms" == "ContextMs";
    assert "Context" + "OpenStart" == "ContextOpenStart";
    assert "Context" + "OpenMs" == "ContextOpenMs";
    assert "Context" + "SelectStart" == "ContextSelectStart";
    assert "Context" + "SelectMs" == "ContextSelectMs";
    assert "Context" + "CloseStart" == "ContextCloseStart";
    assert "Context" + "CloseMs" == "ContextCloseMs";
  }

  /** The names of the "Get" groups, written out. */
  lemma GetNames(path: seq<nat>)
    ensures Names(SessionColumns) == ["Id", "Started", "TotalMs"]
    ensures Names(StepColumns("Get", path)) == ["GetStart", "GetMs"]
    ensures Names(SqlColumns("Get", path)) == Names(ChildColumns("Get", path)) ==
      ["GetOpenStart", "GetOpenMs", "GetSelectStart", "GetSelectMs", "GetCloseStart", "GetCloseMs"]
  {
    GroupNames("Get", path);
    assert "Get" + "Start" == "GetStart";
    assert "Get" + "Ms" == "GetMs";
    assert "Get" + "OpenStart" == "GetOpenStart";
    assert "Get" + "OpenMs" == "GetOpenMs";
    assert "Get" + "SelectStart" == "GetSelectStart";
    assert "Get" + "SelectMs" == "GetSelectMs";
    assert "Get" + "CloseStart" == "GetCloseStart";
    assert "Get" + "CloseMs" == "GetCloseMs";
  }

  /** The names of the "Update" groups, written out. */
  lemma UpdateNames(path: seq<nat>)
    ensures Names(SessionColumns) == ["Id", "Started", "TotalMs"]
    ensures Names(StepColumns("Update", path)) == ["UpdateStart", "UpdateMs"]
    ensures Names(SqlColumns("Update", path)) == Names(ChildColumns("Update", path)) ==
      ["UpdateOpenStart", "UpdateOpenMs", "UpdateSelectStart", "UpdateSelectMs", "UpdateCloseStart", "UpdateCloseMs"]
  {
    GroupNames("Update", path);
    assert "Update" + "Start" == "UpdateStart";
    assert "Update" + "Ms" == "UpdateMs";
    assert "Update" + "OpenStart" == "UpdateOpenStart";
    assert "Update" + "OpenMs" == "UpdateOpenMs";
    assert "Update" + "SelectStart" == "UpdateSelectStart";
    assert "Update" + "SelectMs" == "UpdateSelectMs";
    assert "Update" + "CloseStart" == "UpdateCloseStart";
    assert "Update" + "CloseMs" == "UpdateCloseMs";
  }

  /** The session's own columns always resolve, to the session's values. */
  lemma SessionColumnsMatch(s: Session)
    ensures Resolves(s, SessionColumns) && RowMatches(s, SessionColumns, SessionValues(s))
  {
  }

  /** A step's columns resolve exactly when the path leads to a step, and then to its values. */
  lemma StepColumnsMatch(s: Session, prefix: string, path: seq<nat>)
    ensures Resolves(s, StepColumns(prefix, path)) <==> Walk(s.root, path).Some?
    ensures Walk(s.root, path).Some? ==>
      RowMatches(s, StepColumns(prefix, path), StepValues(Walk(s.root, path).value))
  {
    if Resolves(s, StepColumns(prefix, path)) {
      assert Resolve(s, StepColumns(prefix, path)[0].source).Some?;
    }
  }

  /** A step's SQL columns resolve exactly when the step has at least three "sql" timings,
      and then to theirs. */
  lemma SqlColumnsMatch(s: Session, prefix: string, path: seq<nat>)
    ensures Resolves(s, SqlColumns(prefix, path)) <==>
      Walk(s.root, path).Some? && SqlCategory in Walk(s.root, path).value.customTimings &&
      |Walk(s.root, path).value.customTimings[SqlCategory]| >= 3
    ensures Resolves(s, SqlColumns(prefix, path)) ==>
      var sql := Walk(s.root, path).value.customTimings[SqlCategory];
      RowMatches(s, SqlColumns(prefix, path), SqlValues(sql[0], sql[1], sql[2]))
  {
    if Resolves(s, SqlColumns(prefix, path)) {
      assert Resolve(s, SqlColumns(prefix, path)[4].source).Some?;
    }
  }

  /** A step's child columns resolve exactly when the step has at least three children, and
      then to theirs. */
  lemma ChildColumnsMatch(s: Session, prefix: string, path: seq<nat>)
    ensures Resolves(s, ChildColumns(prefix, path)) <==>
      Walk(s.root, path).Some? && |Walk(s.root, path).value.children| >= 3
    ensures Resolves(s, ChildColumns(prefix, path)) ==>
      var c := Walk(s.root, path).value.children;
      RowMatches(s, ChildColumns(prefix, path), ChildValues(c[0], c[1], c[2]))
  {
    WalkAppend(s.root, path, 0);
    WalkAppend(s.root, path, 1);
    WalkAppend(s.root, path, 2);
    if Resolves(s, ChildColumns(prefix, path)) {
      assert Resolve(s, ChildColumns(prefix, path)[4].source).Some?;
    }
  }

  // ---- the report text ---------------------------------------------------

  /** A field that can stand in a CSV cell without splitting it. */
  predicate Plain(s: string)
  {
    ',' !in s && NewLine !in s
  }

  function Formatted(row: seq<Value>, fmt: Value -> string): (r: seq<string>)
    ensures |r| == |row| && forall k :: 0 <= k < |row| ==> r[k] == fmt(row[k])
  {
    seq(|row|, k requires 0 <= k < |row| => fmt(row[k]))
  }

  /** One row's line without its newline: the formatted values joined by commas. */
  function RowLine(row: seq<Value>, fmt: Value -> string): string
  {
    Text.Join(Formatted(row, fmt), ',')
  }

  /** The report the `foreach` loop builds: the header and a newline, then for each session
      its row and a newline; the first session whose row cannot be extracted aborts it. */
  function Build(
    columns: seq<string>, extract: Session -> Result<seq<Value>, Fault>,
    items: seq<Session>, fmt: Value -> string): Result<string, Fault>
    decreases |items|
  {
    if |items| == 0 then Ok(Text.Join(columns, ',') + [NewLine])
    else
      var before :- Build(columns, extract, items[..|items| - 1], fmt);
      var row :- extract(items[|items| - 1]);
      Ok(before + RowLine(row, fmt) + [NewLine])
  }

  /** Row line of one session (empty when its row cannot be extracted). */
  function RowText(s: Session, extract: Session -> Result<seq<Value>, Fault>, fmt: Value -> string): string
  {
    match extract(s)
    case Ok(row) => RowLine(row, fmt)
    case Err(_) => ""
  }

  /** Formatted cells of one session (none when its row cannot be extracted). */
  function Cells(s: Session, extract: Session -> Result<seq<Value>, Fault>, fmt: Value -> string): seq<string>
  {
    match extract(s)
    case Ok(row) => Formatted(row, fmt)
    case Err(_) => []
  }

  function RowTexts(extract: Session -> Result<seq<Value>, Fault>, items: seq<Session>, fmt: Value -> string): (r: seq<string>)
    ensures |r| == |items| && forall i :: 0 <= i < |items| ==> r[i] == RowText(items[i], extract, fmt)
  {
    seq(|items|, i requires 0 <= i < |items| => RowText(items[i], extract, fmt))
  }

  /** Reads report text back: its newline-terminated lines, each split at commas. */
  function ParseCsv(text: string): seq<seq<string>>
  {
    var lines := Text.Split(text, NewLine);
    seq(|lines| - 1, i requires 0 <= i < |lines| - 1 => Text.Split(lines[i], ','))
  }

  /** The text reads back as the header's names followed by one row per session, in order,
      each as wide as the header and holding that session's formatted values. */
  predicate ReadsBack(
    text: string, columns: seq<string>, extract: Session -> Result<seq<Value>, Fault>,
    items: seq<Session>, fmt: Value -> string)
  {
    var table := ParseCsv(text);
    |table| == |items| + 1 && table[0] == columns &&
    forall i :: 0 <= i < |items| ==>
      table[i + 1] == Cells(items[i], extract, fmt) && |table[i + 1]| == |columns|
  }

  // ---- what Build promises ------------------------------------------------

  /** The report is produced exactly when every session's row extracts. */
  lemma {:induction false} BuildOkIff(
    columns: seq<string>, extract: Session -> Result<seq<Value>, Fault>,
    items: seq<Session>, fmt: Value -> string)
    ensures Build(columns, extract, items, fmt).Ok? <==> forall i :: 0 <= i < |items| ==> extract(items[i]).Ok?
    decreases |items|
  {
    if |items| > 0 {
      var n := |items| - 1;
      var front := items[..n];
      BuildOkIff(columns, extract, front, fmt);
      assert forall j :: 0 <= j < n ==> items[j] == front[j];
    }
  }

  /** A produced report is the header line followed by one line per session, in window
      order; an empty window gives the header line alone. */
  lemma {:induction false} BuildLines(
    columns: seq<string>, extract: Session -> Result<seq<Value>, Fault>,
    items: seq<Session>, fmt: Value -> string)
    requires Build(columns, extract, items, fmt).Ok?
    ensures Build(columns, extract, items, fmt).value ==
      Text.Terminated([Text.Join(columns, ',')] + RowTexts(extract, items, fmt), NewLine)
    decreases |items|
  {
    var header := Text.Join(columns, ',');
    if |items| == 0 {
      assert [header] + RowTexts(extract, items, fmt) == [header];
      assert [header][..0] == [];
    } else {
      var n := |items| - 1;
      var front := items[..n];
      BuildLines(columns, extract, front, fmt);
      var lines := [header] + RowTexts(extract, items, fmt);
      assert lines[..|lines| - 1] == [header] + RowTexts(extract, front, fmt);
    }
  }

  /** A report that is not produced fails with the fault of the first session whose row
      does not extract. */
  lemma {:induction false} BuildFirstFault(
    columns: seq<string>, extract: Session -> Result<seq<Value>, Fault>,
    items: seq<Session>, fmt: Value -> string)
    requires Build(columns, extract, items, fmt).Err?
    ensures exists i :: 0 <= i < |items| && extract(items[i]) == Err(Build(columns, extract, items, fmt).error) &&
                        forall j :: 0 <= j < i ==> extract(items[j]).Ok?
    decreases |items|
  {
    var n := |items| - 1;
    var front := items[..n];
    var prev := Build(columns, extract, front, fmt);
    assert forall j :: 0 <= j < n ==> items[j] == front[j];
    if prev.Ok? {
      BuildOkIff(columns, extract, front, fmt);
      assert extract(items[n]).Err?;
    } else {
      BuildFirstFault(columns, extract, front, fmt);
      var i :| 0 <= i < |front| && extract(front[i]) == Err(prev.error) &&
        forall j :: 0 <= j < i ==> extract(front[j]).Ok?;
    }
  }

  /** A row of plain fields is one line, and splitting it at commas gives its fields back. */
  lemma RowReadsBack(row: seq<Value>, fmt: Value -> string)
    requires |row| > 0 && forall v :: Plain(fmt(v))
    ensures NewLine !in RowLine(row, fmt) && Text.Split(RowLine(row, fmt), ',') == Formatted(row, fmt)
  {
    var cells := Formatted(row, fmt);
    Text.JoinExcludes(cells, ',', NewLine);
    Text.SplitJoin(cells, ',');
  }

  /** Every session's row line of a produced report is one line that splits back into
      that session's cells, as many as the header has names. */
  lemma RowsReadBack(
    extract: Session -> Result<seq<Value>, Fault>, items: seq<Session>, fmt: Value -> string,
    width: nat)
    requires width > 0 && forall i :: 0 <= i < |items| ==> extract(items[i]).Ok?
    requires forall v :: Plain(fmt(v))
    requires forall s :: extract(s).Ok? ==> |extract(s).value| == width
    ensures forall i :: 0 <= i < |items| ==>
      NewLine !in RowTexts(extract, items, fmt)[i] &&
      Text.Split(RowTexts(extract, items, fmt)[i], ',') == Cells(items[i], extract, fmt) &&
      |Cells(items[i], extract, fmt)| == width
  {
    forall i | 0 <= i < |items|
      ensures NewLine !in RowTexts(extract, items, fmt)[i]
      ensures Text.Split(RowTexts(extract, items, fmt)[i], ',') == Cells(items[i], extract, fmt)
      ensures |Cells(items[i], extract, fmt)| == width
    {
      RowReadsBack(extract(items[i]).value, fmt);
    }
  }

  /** Newline-terminated lines that hold no newline read back as those lines, each split
      at commas. */
  lemma LinesReadBack(lines: seq<string>)
    requires forall i :: 0 <= i < |lines| ==> NewLine !in lines[i]
    ensures var table := ParseCsv(Text.Terminated(lines, NewLine));
      |table| == |lines| && forall i :: 0 <= i < |lines| ==> table[i] == Text.Split(lines[i], ',')
  {
    Text.SplitTerminated(lines, NewLine);
  }

  /** Read back, a report whose fields are plain and whose rows are as wide as its header is
      a table: the header's column names, then, for each session in window order, exactly one
      row of as many fields as there are columns, holding that session's formatted values. */
  lemma BuildParses(
    columns: seq<string>, extract: Session -> Result<seq<Value>, Fault>,
    items: seq<Session>, fmt: Value -> string)
    requires Build(columns, extract, items, fmt).Ok?
    requires |columns| > 0 && forall k :: 0 <= k < |columns| ==> Plain(columns[k])
    requires forall v :: Plain(fmt(v))
    requires forall s :: extract(s).Ok? ==> |extract(s).value| == |columns|
    ensures ReadsBack(Build(columns, extract, items, fmt).value, columns, extract, items, fmt)
  {
    BuildOkIff(columns, extract, items, fmt);
    BuildLines(columns, extract, items, fmt);
    var header := Text.Join(columns, ',');
    var lines := [header] + RowTexts(extract, items, fmt);
    Text.JoinExcludes(columns, ',', NewLine);
    Text.SplitJoin(columns, ',');
    var rows := RowTexts(extract, items, fmt);
    RowsReadBack(extract, items, fmt, |columns|);
    forall i | 0 <= i < |lines| ensures NewLine !in lines[i] {
      if i > 0 {
        assert lines[i] == rows[i - 1];
      }
    }
    var table := ParseCsv(Build(columns, extract, items, fmt).value);
    LinesReadBack(lines);
    assert table[0] == columns;
    forall i | 0 <= i < |items|
      ensures table[i + 1] == Cells(items[i], extract, fmt) && |table[i + 1]| == |columns|
    {
      assert lines[i + 1] == rows[i];
      assert table[i + 1] == Text.Split(rows[i], ',');
    }
  }
}
