// execute_impl and execute_hash_join (src/execute.cpp): a plan tree of scans and hash joins,
// against its relational meaning.
module PlanExecution {
  import opened Bags
  import opened Directory
  import opened Values
  import opened HashJoin
  import opened PageFormat
  import opened PlanInputs
  import opened Relational
  import StringRefs
  import ColumnStore
  import WorkQueue

  datatype Attr = Attr(idx: nat, dt: DataType)

  datatype NodeData =
    | Scan(table: nat)
    | JoinNode(buildLeft: bool, left: nat, right: nat, leftAttr: nat, rightAttr: nat)

  datatype PlanNode = PlanNode(data: NodeData, attrs: seq<Attr>)

  datatype Plan = Plan(nodes: seq<PlanNode>, inputs: seq<InputTable>)

  function IdxOf(a: Attr): nat { a.idx }

  function Idxs(node: PlanNode): seq<nat> { Map(node.attrs, IdxOf) }

  predicate ValueOk(dt: DataType, v: Value) {
    match dt
    case INT32 => !v.Text?
    case VARCHAR => !v.Int32?
    case _ => v.Null?
  }

  predicate TypeOk(dt: DataType, c: Column) {
    forall i :: 0 <= i < |c| ==> ValueOk(dt, c[i])
  }

  // A well-typed acyclic plan: children have a smaller rank, join keys are INT32.
  ghost predicate NodeOk(plan: Plan, rank: seq<nat>, n: nat)
    requires |rank| == |plan.nodes| && n < |plan.nodes|
  {
    var attrs := plan.nodes[n].attrs;
    && attrs != []
    && match plan.nodes[n].data
       case Scan(t) =>
         && t < |plan.inputs| && TableOk(plan.inputs[t])
         && (forall a :: 0 <= a < |attrs| ==>
               attrs[a].idx < |plan.inputs[t].columns| && attrs[a].dt == plan.inputs[t].columns[attrs[a].idx].dt)
       case JoinNode(_, l, r, la, ra) =>
         && l < |plan.nodes| && r < |plan.nodes| && rank[l] < rank[n] && rank[r] < rank[n]
         && la < |plan.nodes[l].attrs| && ra < |plan.nodes[r].attrs|
         && plan.nodes[l].attrs[la].dt == INT32 && plan.nodes[r].attrs[ra].dt == INT32
         && (forall a :: 0 <= a < |attrs| ==>
               var both := plan.nodes[l].attrs + plan.nodes[r].attrs;
               attrs[a].idx < |both| && attrs[a].dt == both[attrs[a].idx].dt)
  }

  ghost predicate PlanOk(plan: Plan, rank: seq<nat>) {
    |plan.inputs| <= 0x20 && |rank| == |plan.nodes| && forall n :: 0 <= n < |plan.nodes| ==> NodeOk(plan, rank, n)
  }

  // ---- rows and columns ----

  function At(c: nat): Row -> Value {
    (row: Row) => if c < |row| then row[c] else Null
  }

  function ColumnsOf(rows: seq<Row>, width: nat): (cols: seq<Column>)
    ensures |cols| == width
  {
    seq(width, c requires 0 <= c < width => Map(rows, At(c)))
  }

  lemma RowsOfColumns(rows: seq<Row>, width: nat)
    requires width > 0 && forall i :: 0 <= i < |rows| ==> |rows[i]| == width
    ensures RowsOf(Null, ColumnsOf(rows, width)) == rows
  {
    hide Map, WorkQueue.Range;
    var cols := ColumnsOf(rows, width);
    RangeMember(0, |rows|);
    forall i | 0 <= i < |rows| ensures RowOf(Null, cols)(i) == rows[i] {
      assert forall c :: 0 <= c < width ==> cols[c][i] == At(c)(rows[i]);
    }
  }

  // ---- the meaning of a plan ----

  function OfValues(): Kind<Value> { Kind(Null, (v: Value) => v.Int32?) }

  function OfDatums(): Kind<Datum> { Kind(Missing, (d: Datum) => d.Number?) }

  // The input tables as columns of what their cells mean, and of what they read back as.
  function MeantTables(plan: Plan): (tables: seq<seq<seq<Datum>>>)
    ensures |tables| == |plan.inputs|
  {
    seq(|plan.inputs|, t requires 0 <= t < |plan.inputs| =>
      seq(|plan.inputs[t].columns|, c requires 0 <= c < |plan.inputs[t].columns| => Meant(plan.inputs[t].columns[c])))
  }

  function Pages(plan: Plan): seq<seq<seq<Page>>> {
    seq(|plan.inputs|, t requires 0 <= t < |plan.inputs| =>
      seq(|plan.inputs[t].columns|, c requires 0 <= c < |plan.inputs[t].columns| => plan.inputs[t].columns[c].pages))
  }

  ghost function SeenTables(plan: Plan): (tables: seq<seq<seq<Datum>>>)
    ensures |tables| == |plan.inputs|
  {
    seq(|plan.inputs|, t requires 0 <= t < |plan.inputs| =>
      seq(|plan.inputs[t].columns|, c requires 0 <= c < |plan.inputs[t].columns| =>
        if ColumnOk(plan.inputs[t].columns[c]) then Seen(Pages(plan), plan.inputs[t].columns[c], t, c) else []))
  }

  function Picked(columns: seq<seq<Datum>>, attrs: seq<Attr>): seq<seq<Datum>> {
    seq(|attrs|, a requires 0 <= a < |attrs| => if attrs[a].idx < |columns| then columns[attrs[a].idx] else [])
  }

  // The rows a node means when the input tables hold these columns.
  ghost function Denote(plan: Plan, rank: seq<nat>, tables: seq<seq<seq<Datum>>>, n: nat): seq<seq<Datum>>
    requires PlanOk(plan, rank) && |tables| == |plan.inputs| && n < |plan.nodes|
    decreases rank[n]
  {
    assert NodeOk(plan, rank, n);
    var node := plan.nodes[n];
    match node.data
    case Scan(t) => RowsOf(Missing, Picked(tables[t], node.attrs))
    case JoinNode(_, l, r, la, ra) =>
      EquiJoin(OfDatums(), Denote(plan, rank, tables, l), Denote(plan, rank, tables, r), la, ra, Idxs(node))
  }

  // ---- execution ----

  // How a run of execute_impl went: one set of schedules and choices for each join executed.
  datatype Trace = ScanRun | JoinRun(left: Trace, right: Trace, setup: Setup)

  // What execute_scan returns (PlanInputs.ScanTable).
  ghost function ScanColumns(t: InputTable, attrs: seq<Attr>, table: nat): (cols: seq<Column>)
    ensures |cols| == |attrs|
  {
    seq(|attrs|, a requires 0 <= a < |attrs| =>
      if attrs[a].idx < |t.columns| && ColumnOk(t.columns[attrs[a].idx])
      then Scanned(t.columns[attrs[a].idx], table, attrs[a].idx) else [])
  }

  function JoinOf(node: PlanNode, left: seq<Column>, right: seq<Column>): Join
    requires node.data.JoinNode?
  {
    Join(node.data.buildLeft, left, right, node.data.leftAttr, node.data.rightAttr,
         Idxs(node), RowCount(left), RowCount(right))
  }

  // The run went through: every worker of every join returned.
  ghost predicate Ran(plan: Plan, rank: seq<nat>, n: nat, run: Trace)
    requires PlanOk(plan, rank) && n < |plan.nodes|
    decreases run, 0
  {
    assert NodeOk(plan, rank, n);
    match plan.nodes[n].data
    case Scan(_) => run.ScanRun?
    case JoinNode(_, l, r, _, _) =>
      && run.JoinRun? && Ran(plan, rank, l, run.left) && Ran(plan, rank, r, run.right)
      && Completed(JoinOf(plan.nodes[n], Execute(plan, rank, l, run.left), Execute(plan, rank, r, run.right)), run.setup)
  }

  ghost function Execute(plan: Plan, rank: seq<nat>, n: nat, run: Trace): seq<Column>
    requires PlanOk(plan, rank) && n < |plan.nodes| && Ran(plan, rank, n, run)
    decreases run, 1
  {
    assert NodeOk(plan, rank, n);
    var node := plan.nodes[n];
    match node.data
    case Scan(t) => ScanColumns(plan.inputs[t], node.attrs, t)
    case JoinNode(_, l, r, _, _) =>
      var j := JoinOf(node, Execute(plan, rank, l, run.left), Execute(plan, rank, r, run.right));
      ColumnsOf(Result(j, run.setup), |node.attrs|)
  }

  // ---- executed columns are well-typed ----

  ghost predicate ColumnsOk(cols: seq<Column>, attrs: seq<Attr>) {
    && |cols| == |attrs| > 0
    && (forall c :: 0 <= c < |cols| ==> |cols[c]| == RowCount(cols) && TypeOk(attrs[c].dt, cols[c]))
  }

  lemma {:induction false} SumMember<T, U>(s: seq<T>, f: T -> multiset<U>, u: U) returns (i: nat)
    requires u in Sum(s, f)
    ensures i < |s| && u in f(s[i])
  {
    if u in f(s[0]) {
      i := 0;
    } else {
      i := SumMember(s[1..], f, u);
      i := i + 1;
    }
  }

  // A row of the nested-loop join is the output of a pair of rows.
  lemma NestedLoopRow(j: Join, row: Row) returns (l: nat, r: nat)
    requires JoinOk(j) && row in NestedLoop(j)
    ensures l < j.leftRows && r < j.rightRows && row == Output(j, l, r)
  {
    hide Sum, WorkQueue.Range, Output;
    var ls, rs := WorkQueue.Range(0, j.leftRows), WorkQueue.Range(0, j.rightRows);
    RangeMember(0, j.leftRows);
    RangeMember(0, j.rightRows);
    var a := SumMember(ls, RowSum(rs, Pairing(j)), row);
    var b := SumMember(rs, Across(Pairing(j), ls[a]), row);
    l, r := ls[a], rs[b];
  }

  lemma JoinInputsOk(plan: Plan, rank: seq<nat>, n: nat, left: seq<Column>, right: seq<Column>)
    requires PlanOk(plan, rank) && n < |plan.nodes| && plan.nodes[n].data.JoinNode?
    requires NodeOk(plan, rank, n) && ColumnsOk(left, plan.nodes[plan.nodes[n].data.left].attrs)
    requires ColumnsOk(right, plan.nodes[plan.nodes[n].data.right].attrs)
    requires RowCount(left) < TWO48 && RowCount(right) < TWO48
    ensures JoinOk(JoinOf(plan.nodes[n], left, right))
  {
  }

  lemma JoinIsTyped(plan: Plan, rank: seq<nat>, n: nat, left: seq<Column>, right: seq<Column>, setup: Setup)
    requires PlanOk(plan, rank) && n < |plan.nodes| && plan.nodes[n].data.JoinNode?
    requires NodeOk(plan, rank, n) && ColumnsOk(left, plan.nodes[plan.nodes[n].data.left].attrs)
    requires ColumnsOk(right, plan.nodes[plan.nodes[n].data.right].attrs)
    requires Completed(JoinOf(plan.nodes[n], left, right), setup)
    ensures var j := JoinOf(plan.nodes[n], left, right);
            && (forall i :: 0 <= i < |Result(j, setup)| ==> |Result(j, setup)[i]| == |plan.nodes[n].attrs|)
            && ColumnsOk(ColumnsOf(Result(j, setup), |plan.nodes[n].attrs|), plan.nodes[n].attrs)
  {
    hide NestedLoop, Completed, Result, Map, JoinOk;
    var j := JoinOf(plan.nodes[n], left, right);
    var attrs := plan.nodes[n].attrs;
    var rows := Result(j, setup);
    JoinIsNestedLoop(j, setup);
    CompletedIsOk(j, setup);
    forall i | 0 <= i < |rows| ensures RowTyped(attrs, rows[i]) {
      assert rows[i] in multiset(rows);
      var l, r := NestedLoopRow(j, rows[i]);
      OutputIsTyped(plan, rank, n, left, right, l, r);
    }
    var cols := ColumnsOf(rows, |attrs|);
    forall c | 0 <= c < |attrs| ensures TypeOk(attrs[c].dt, cols[c]) {
      forall i | 0 <= i < |cols[c]| ensures ValueOk(attrs[c].dt, cols[c][i]) {
        assert RowTyped(attrs, rows[i]) && cols[c][i] == At(c)(rows[i]) == rows[i][c];
      }
    }
  }

  predicate RowTyped(attrs: seq<Attr>, row: Row) {
    |row| == |attrs| && forall c :: 0 <= c < |row| ==> ValueOk(attrs[c].dt, row[c])
  }

  lemma CompletedIsOk(j: Join, setup: Setup)
    requires Completed(j, setup)
    ensures JoinOk(j)
  {
  }

  lemma OutputIsTyped(plan: Plan, rank: seq<nat>, n: nat, left: seq<Column>, right: seq<Column>, l: nat, r: nat)
    requires PlanOk(plan, rank) && n < |plan.nodes| && plan.nodes[n].data.JoinNode?
    requires NodeOk(plan, rank, n) && ColumnsOk(left, plan.nodes[plan.nodes[n].data.left].attrs)
    requires ColumnsOk(right, plan.nodes[plan.nodes[n].data.right].attrs)
    requires JoinOk(JoinOf(plan.nodes[n], left, right)) && l < RowCount(left) && r < RowCount(right)
    ensures RowTyped(plan.nodes[n].attrs, Output(JoinOf(plan.nodes[n], left, right), l, r))
  {
    var attrs := plan.nodes[n].attrs;
    var j := JoinOf(plan.nodes[n], left, right);
    var row := Output(j, l, r);
    var la := plan.nodes[plan.nodes[n].data.left].attrs;
    var ra := plan.nodes[plan.nodes[n].data.right].attrs;
    forall c | 0 <= c < |row| ensures ValueOk(attrs[c].dt, row[c]) {
      var a := attrs[c].idx;
      assert j.attrs[c] == a;
      var both: seq<Attr> := la + ra;
      assert attrs[c].dt == both[a].dt;
      if a < |left| {
        assert row[c] == left[a][l] && TypeOk(la[a].dt, left[a]);
      } else {
        assert row[c] == right[a - |left|][r] && TypeOk(ra[a - |left|].dt, right[a - |left|]);
      }
    }
  }

  lemma ScanIsTyped(t: InputTable, attrs: seq<Attr>, table: nat)
    requires TableOk(t) && attrs != []
    requires forall a :: 0 <= a < |attrs| ==> attrs[a].idx < |t.columns| && attrs[a].dt == t.columns[attrs[a].idx].dt
    ensures ColumnsOk(ScanColumns(t, attrs, table), attrs)
  {
    hide ColumnOk, Scanned, TypeOk;
    var cols := ScanColumns(t, attrs, table);
    forall a | 0 <= a < |cols| ensures |cols[a]| == t.rows && TypeOk(attrs[a].dt, cols[a]) {
      ScannedLength(t.columns[attrs[a].idx], table, attrs[a].idx);
      ScannedIsTyped(t.columns[attrs[a].idx], table, attrs[a].idx);
    }
  }

  lemma ScannedIsTyped(c: InputColumn, table: nat, column: nat)
    requires ColumnOk(c)
    ensures TypeOk(c.dt, Scanned(c, table, column))
  {
    hide ColumnOk;
    ScannedKinds(c, table, column);
  }

  // What a node's children and a completed run of it are.
  lemma JoinRan(plan: Plan, rank: seq<nat>, n: nat, run: Trace)
    requires PlanOk(plan, rank) && n < |plan.nodes| && Ran(plan, rank, n, run) && plan.nodes[n].data.JoinNode?
    ensures NodeOk(plan, rank, n) && run.JoinRun?
    ensures var node := plan.nodes[n];
            && node.data.left < |plan.nodes| && node.data.right < |plan.nodes|
            && rank[node.data.left] < rank[n] && rank[node.data.right] < rank[n]
            && Ran(plan, rank, node.data.left, run.left) && Ran(plan, rank, node.data.right, run.right)
            && var left, right := Execute(plan, rank, node.data.left, run.left), Execute(plan, rank, node.data.right, run.right);
               var j := JoinOf(node, left, right);
               && Completed(j, run.setup)
               && Execute(plan, rank, n, run) == ColumnsOf(Result(j, run.setup), |node.attrs|)
  {
    hide Completed, Result, JoinOk, JoinOf, TableOk;
    assert NodeOk(plan, rank, n);
  }

  lemma ScanRan(plan: Plan, rank: seq<nat>, n: nat, run: Trace)
    requires PlanOk(plan, rank) && n < |plan.nodes| && Ran(plan, rank, n, run) && plan.nodes[n].data.Scan?
    ensures var t, attrs := plan.nodes[n].data.table, plan.nodes[n].attrs;
            && t < |plan.inputs| && TableOk(plan.inputs[t]) && attrs != []
            && (forall a :: 0 <= a < |attrs| ==>
                  attrs[a].idx < |plan.inputs[t].columns| && attrs[a].dt == plan.inputs[t].columns[attrs[a].idx].dt)
            && Execute(plan, rank, n, run) == ScanColumns(plan.inputs[t], attrs, t)
  {
    hide Completed, Result, JoinOk, JoinOf, TableOk;
    assert NodeOk(plan, rank, n);
  }

  lemma {:induction false} ExecuteIsTyped(plan: Plan, rank: seq<nat>, n: nat, run: Trace)
    requires PlanOk(plan, rank) && n < |plan.nodes| && Ran(plan, rank, n, run)
    ensures ColumnsOk(Execute(plan, rank, n, run), plan.nodes[n].attrs)
    decreases run
  {
    hide Completed, Result, JoinOk, Ran, Execute, NodeOk, ColumnsOk, TableOk, PlanOk;
    var node := plan.nodes[n];
    match node.data
    case Scan(t) =>
      ScanRan(plan, rank, n, run);
      ScanIsTyped(plan.inputs[t], node.attrs, t);
    case JoinNode(_, l, r, _, _) =>
      JoinRan(plan, rank, n, run);
      ExecuteIsTyped(plan, rank, l, run.left);
      ExecuteIsTyped(plan, rank, r, run.right);
      JoinIsTyped(plan, rank, n, Execute(plan, rank, l, run.left), Execute(plan, rank, r, run.right), run.setup);
  }

  // ---- rows of a join ----

  lemma OutputIsProject(node: PlanNode, left: seq<Column>, right: seq<Column>, l: nat, r: nat)
    requires node.data.JoinNode? && JoinOk(JoinOf(node, left, right)) && l < RowCount(left) && r < RowCount(right)
    ensures var j := JoinOf(node, left, right);
            && Pairing(j)(l, r) == CellOf(OfValues(), j.leftCol, j.rightCol, j.attrs)(RowOf(Null, left)(l), RowOf(Null, right)(r))
  {
    var j := JoinOf(node, left, right);
    var lr, rr := RowOf(Null, left)(l), RowOf(Null, right)(r);
    forall c | 0 <= c < |node.attrs| ensures Output(j, l, r)[c] == Project(Null, j.attrs, lr + rr)[c] {
    }
    assert Output(j, l, r) == Project(Null, j.attrs, lr + rr);
    assert lr[j.leftCol] == left[j.leftCol][l] && rr[j.rightCol] == right[j.rightCol][r];
    var p, cell := Pairing(j), CellOf(OfValues(), j.leftCol, j.rightCol, j.attrs);
    var matches := left[j.leftCol][l].Int32? && left[j.leftCol][l] == right[j.rightCol][r];
    var out := Output(j, l, r);
    assert p(l, r) == if matches then multiset{out} else multiset{};
    var f := Match(OfValues(), j.leftCol, j.rightCol, j.attrs);
    assert f(lr, rr) == if matches then [out] else [];
    assert cell(lr, rr) == multiset(f(lr, rr));
  }

  // The nested-loop join over row numbers is the equi-join of the rows.
  lemma NestedLoopIsEquiJoin(node: PlanNode, left: seq<Column>, right: seq<Column>)
    requires node.data.JoinNode? && JoinOk(JoinOf(node, left, right))
    ensures NestedLoop(JoinOf(node, left, right)) ==
            multiset(EquiJoin(OfValues(), RowsOf(Null, left), RowsOf(Null, right), node.data.leftAttr, node.data.rightAttr,
                              Idxs(node)))
  {
    hide Sum, Map, WorkQueue.Range, EquiJoin, JoinOk, Match, Pairing, RowOf, CellOf;
    var j := JoinOf(node, left, right);
    var cell := CellOf(OfValues(), j.leftCol, j.rightCol, j.attrs);
    var ln, rn := WorkQueue.Range(0, j.leftRows), WorkQueue.Range(0, j.rightRows);
    var rs := RowsOf(Null, right);
    RangeMember(0, j.leftRows);
    RangeMember(0, j.rightRows);
    EquiJoinBag(OfValues(), RowsOf(Null, left), rs, j.leftCol, j.rightCol, j.attrs);
    SumMap(ln, RowOf(Null, left), RowSum(rs, cell));
    forall i | 0 <= i < |ln| ensures RowSum(rn, Pairing(j))(ln[i]) == After(RowSum(rs, cell), RowOf(Null, left))(ln[i]) {
      var l := ln[i];
      var across := Across(cell, RowOf(Null, left)(l));
      SumMap(rn, RowOf(Null, right), across);
      forall k | 0 <= k < |rn| ensures Across(Pairing(j), l)(rn[k]) == After(across, RowOf(Null, right))(rn[k]) {
        OutputIsProject(node, left, right, l, rn[k]);
      }
      SumSame(rn, Across(Pairing(j), l), After(across, RowOf(Null, right)));
    }
    SumSame(ln, RowSum(rn, Pairing(j)), After(RowSum(rs, cell), RowOf(Null, left)));
  }

  // ---- what executed values stand for ----

  function DecodedRow(plan: Plan): Row -> seq<Datum> {
    Mapped(Decoded(Pages(plan)))
  }

  // A typed pair of rows joins as values exactly when it joins as datums.
  lemma KeysAreKept(plan: Plan, l: Row, r: Row, la: nat, ra: nat)
    requires la < |l| && ra < |r| && !l[la].Text? && !r[ra].Text?
    ensures KeepsKeys(Decoded(Pages(plan)), OfValues(), OfDatums(), l, r, la, ra)
  {
  }

  lemma RowsAreTyped(cols: seq<Column>, attrs: seq<Attr>, i: nat, c: nat)
    requires ColumnsOk(cols, attrs) && i < |RowsOf(Null, cols)| && c < |attrs| && attrs[c].dt == INT32
    ensures |RowsOf(Null, cols)[i]| == |attrs| && !RowsOf(Null, cols)[i][c].Text?
  {
    hide WorkQueue.Range, Map;
    RangeMember(0, RowCount(cols));
    assert ValueOk(attrs[c].dt, cols[c][i]);
  }

  // The decoded rows of a scan are the rows of the columns as they are seen.
  lemma ScanIsSeen(plan: Plan, t: nat, attrs: seq<Attr>)
    requires t < |plan.inputs| && TableOk(plan.inputs[t]) && attrs != []
    requires forall a :: 0 <= a < |attrs| ==> attrs[a].idx < |plan.inputs[t].columns|
    ensures Map(RowsOf(Null, ScanColumns(plan.inputs[t], attrs, t)), DecodedRow(plan)) ==
            RowsOf(Missing, Picked(SeenTables(plan)[t], attrs))
  {
    hide WorkQueue.Range, Map, Scanned, ColumnOk, StringRefs.RepText;
    var cols, seen := ScanColumns(plan.inputs[t], attrs, t), Picked(SeenTables(plan)[t], attrs);
    var f := Decoded(Pages(plan));
    forall a | 0 <= a < |attrs| ensures seen[a] == Map(cols[a], f) {
    }
    DecodedRows(f, cols, seen);
  }

  lemma DecodedRows(f: Value -> Datum, cols: seq<Column>, seen: seq<seq<Datum>>)
    requires cols != [] && f(Null) == Missing
    requires |seen| == |cols| && forall a :: 0 <= a < |cols| ==> seen[a] == Map(cols[a], f)
    ensures Map(RowsOf(Null, cols), Mapped(f)) == RowsOf(Missing, seen)
  {
    hide WorkQueue.Range, Map;
    RangeMember(0, RowCount(cols));
    var range := WorkQueue.Range(0, RowCount(cols));
    assert |seen[0]| == |cols[0]|;
    var here, there := Map(RowsOf(Null, cols), Mapped(f)), RowsOf(Missing, seen);
    forall i | 0 <= i < |range| ensures here[i] == there[i] {
      var l, r := RowOf(Null, cols)(range[i]), RowOf(Missing, seen)(range[i]);
      forall a | 0 <= a < |cols| ensures f(l[a]) == r[a] {
      }
      assert Map(l, f) == r;
    }
  }

  lemma MapKeepsBags<T, U>(a: seq<T>, b: seq<T>, f: T -> U)
    requires multiset(a) == multiset(b)
    ensures multiset(Map(a, f)) == multiset(Map(b, f))
  {
    MapBag(a, f);
    MapBag(b, f);
    SumPermute(a, b, Single(f));
  }

  // Whatever the schedules of its joins, a plan yields the rows it means over the input tables
  // as they are seen, each as often.
  lemma {:induction false} ExecutedAsSeen(plan: Plan, rank: seq<nat>, n: nat, run: Trace)
    requires PlanOk(plan, rank) && n < |plan.nodes| && Ran(plan, rank, n, run)
    ensures multiset(Map(RowsOf(Null, Execute(plan, rank, n, run)), DecodedRow(plan))) ==
            multiset(Denote(plan, rank, SeenTables(plan), n))
    decreases run
  {
    hide Completed, Result, JoinOk, EquiJoin, RowsOf, ColumnsOf, Map, DecodedRow, SeenTables, Picked, ScanColumns, JoinOf, Ran,
         Execute, NodeOk, TableOk, PlanOk, Denote;
    match plan.nodes[n].data
    case Scan(t) =>
      ScanRan(plan, rank, n, run);
      ScanIsSeen(plan, t, plan.nodes[n].attrs);
      DenoteScan(plan, rank, SeenTables(plan), n);
    case JoinNode(_, l, r, la, ra) =>
      JoinRan(plan, rank, n, run);
      ExecutedAsSeen(plan, rank, l, run.left);
      ExecutedAsSeen(plan, rank, r, run.right);
      DenoteJoin(plan, rank, SeenTables(plan), n);
      var left, right := Execute(plan, rank, l, run.left), Execute(plan, rank, r, run.right);
      ExecuteIsTyped(plan, rank, l, run.left);
      ExecuteIsTyped(plan, rank, r, run.right);
      JoinAsSeen(plan, rank, n, left, right, run.setup, Denote(plan, rank, SeenTables(plan), l),
                 Denote(plan, rank, SeenTables(plan), r));
  }

  lemma DenoteScan(plan: Plan, rank: seq<nat>, tables: seq<seq<seq<Datum>>>, n: nat)
    requires PlanOk(plan, rank) && |tables| == |plan.inputs| && n < |plan.nodes| && plan.nodes[n].data.Scan?
    ensures plan.nodes[n].data.table < |tables|
    ensures Denote(plan, rank, tables, n) == RowsOf(Missing, Picked(tables[plan.nodes[n].data.table], plan.nodes[n].attrs))
  {
    hide TableOk, RowsOf, Picked;
    assert NodeOk(plan, rank, n);
  }

  lemma DenoteJoin(plan: Plan, rank: seq<nat>, tables: seq<seq<seq<Datum>>>, n: nat)
    requires PlanOk(plan, rank) && |tables| == |plan.inputs| && n < |plan.nodes| && plan.nodes[n].data.JoinNode?
    ensures NodeOk(plan, rank, n)
    ensures var node := plan.nodes[n];
            && node.data.left < |plan.nodes| && node.data.right < |plan.nodes|
            && rank[node.data.left] < rank[n] && rank[node.data.right] < rank[n]
            && Denote(plan, rank, tables, n) ==
               EquiJoin(OfDatums(), Denote(plan, rank, tables, node.data.left), Denote(plan, rank, tables, node.data.right),
                        node.data.leftAttr, node.data.rightAttr, Idxs(node))
  {
    hide TableOk, EquiJoin, RowsOf, Picked;
    assert NodeOk(plan, rank, n);
  }

  // One join, given what its inputs decode to.
  lemma JoinAsSeen(plan: Plan, rank: seq<nat>, n: nat, left: seq<Column>, right: seq<Column>, setup: Setup,
                   ls: seq<seq<Datum>>, rs: seq<seq<Datum>>)
    requires PlanOk(plan, rank) && n < |plan.nodes| && NodeOk(plan, rank, n) && plan.nodes[n].data.JoinNode?
    requires ColumnsOk(left, plan.nodes[plan.nodes[n].data.left].attrs)
    requires ColumnsOk(right, plan.nodes[plan.nodes[n].data.right].attrs)
    requires Completed(JoinOf(plan.nodes[n], left, right), setup)
    requires multiset(Map(RowsOf(Null, left), DecodedRow(plan))) == multiset(ls)
    requires multiset(Map(RowsOf(Null, right), DecodedRow(plan))) == multiset(rs)
    ensures var node := plan.nodes[n];
            var cols := ColumnsOf(Result(JoinOf(node, left, right), setup), |node.attrs|);
            multiset(Map(RowsOf(Null, cols), DecodedRow(plan))) ==
            multiset(EquiJoin(OfDatums(), ls, rs, node.data.leftAttr, node.data.rightAttr, Idxs(node)))
  {
    hide Completed, Result, JoinOk, EquiJoin, NestedLoop, RowsOf, ColumnsOk, ColumnsOf, Map, PlanOk, TableOk, DecodedRow;
    var node, f := plan.nodes[n], DecodedRow(plan);
    var la, ra := node.data.leftAttr, node.data.rightAttr;
    var j := JoinOf(node, left, right);
    JoinIsTyped(plan, rank, n, left, right, setup);
    RowsOfColumns(Result(j, setup), |node.attrs|);
    JoinIsNestedLoop(j, setup);
    CompletedIsOk(j, setup);
    NestedLoopIsEquiJoin(node, left, right);
    var joined := EquiJoin(OfValues(), RowsOf(Null, left), RowsOf(Null, right), la, ra, Idxs(node));
    MapKeepsBags(Result(j, setup), joined, f);
    JoinDecodes(plan, rank, n, left, right);
    EquiJoinPermutes(OfDatums(), Map(RowsOf(Null, left), f), Map(RowsOf(Null, right), f), ls, rs, la, ra, Idxs(node));
  }

  lemma JoinDecodes(plan: Plan, rank: seq<nat>, n: nat, left: seq<Column>, right: seq<Column>)
    requires PlanOk(plan, rank) && n < |plan.nodes| && NodeOk(plan, rank, n) && plan.nodes[n].data.JoinNode?
    requires ColumnsOk(left, plan.nodes[plan.nodes[n].data.left].attrs)
    requires ColumnsOk(right, plan.nodes[plan.nodes[n].data.right].attrs)
    ensures var node, f := plan.nodes[n], DecodedRow(plan);
            var ls, rs := RowsOf(Null, left), RowsOf(Null, right);
            Map(EquiJoin(OfValues(), ls, rs, node.data.leftAttr, node.data.rightAttr, Idxs(node)), f) ==
            EquiJoin(OfDatums(), Map(ls, f), Map(rs, f), node.data.leftAttr, node.data.rightAttr, Idxs(node))
  {
    hide EquiJoin, RowsOf, ColumnsOk, Map, KeepsKeys;
    var node := plan.nodes[n];
    var la, ra := node.data.leftAttr, node.data.rightAttr;
    var ls, rs := RowsOf(Null, left), RowsOf(Null, right);
    forall i, k | 0 <= i < |ls| && 0 <= k < |rs|
      ensures KeepsKeys(Decoded(Pages(plan)), OfValues(), OfDatums(), ls[i], rs[k], la, ra)
    {
      RowsAreTyped(left, plan.nodes[node.data.left].attrs, i, la);
      RowsAreTyped(right, plan.nodes[node.data.right].attrs, k, ra);
      KeysAreKept(plan, ls[i], rs[k], la, ra);
    }
    EquiJoinMaps(Decoded(Pages(plan)), OfValues(), OfDatums(), ls, rs, la, ra, Idxs(node));
  }

  // ---- when the seen tables are the meant ones ----

  // Every column that a scan of the plan reads is faithful.
  ghost predicate FaithfulPlan(plan: Plan) {
    forall n :: 0 <= n < |plan.nodes| ==> FaithfulNode(plan, n)
  }

  ghost predicate FaithfulNode(plan: Plan, n: nat)
    requires n < |plan.nodes|
  {
    match plan.nodes[n].data
    case Scan(t) => t < |plan.inputs| ==> FaithfulColumns(plan.inputs[t], plan.nodes[n].attrs)
    case JoinNode(_, _, _, _, _) => true
  }

  ghost predicate FaithfulColumns(t: InputTable, attrs: seq<Attr>) {
    forall a :: 0 <= a < |attrs| && attrs[a].idx < |t.columns| ==> Faithful(t.columns[attrs[a].idx])
  }

  lemma ColumnsAsMeant(plan: Plan, t: nat, c: nat)
    requires t < |plan.inputs| <= 0x20 && TableOk(plan.inputs[t]) && c < |plan.inputs[t].columns|
    ensures SeenTables(plan)[t][c] == MeantTables(plan)[t][c] <==> Faithful(plan.inputs[t].columns[c])
    ensures |SeenTables(plan)[t][c]| == |MeantTables(plan)[t][c]| == plan.inputs[t].rows
  {
    hide ColumnOk, Faithful, Seen, Meant;
    SeenIsMeant(Pages(plan), plan.inputs[t].columns[c], t, c);
    SeenLength(Pages(plan), plan.inputs[t].columns[c], t, c);
  }

  lemma SeenLength(inputs: seq<seq<seq<Page>>>, c: InputColumn, table: nat, column: nat)
    requires ColumnOk(c)
    ensures |Seen(inputs, c, table, column)| == |Meant(c)| == |c.cells|
  {
    hide Scanned, ColumnOk;
    ScannedLength(c, table, column);
  }

  // A scan yields the rows that the table's cells mean if and only if it reads no 64-bit value
  // and no string that is not recoverable.
  lemma ScanMeansItsCells(plan: Plan, rank: seq<nat>, n: nat, run: Trace)
    requires PlanOk(plan, rank) && n < |plan.nodes| && Ran(plan, rank, n, run) && plan.nodes[n].data.Scan?
    ensures Map(RowsOf(Null, Execute(plan, rank, n, run)), DecodedRow(plan)) == Denote(plan, rank, MeantTables(plan), n) <==>
            FaithfulNode(plan, n)
  {
    hide RowsOf, Map, DecodedRow, SeenTables, MeantTables, Faithful, TableOk, ScanColumns, Ran, Execute, NodeOk, PlanOk, Denote;
    ScanRan(plan, rank, n, run);
    DenoteScan(plan, rank, MeantTables(plan), n);
    AtMost32(plan, rank);
    var t, attrs := plan.nodes[n].data.table, plan.nodes[n].attrs;
    ScanIsSeen(plan, t, attrs);
    TablesHaveColumns(plan, t);
    var seen, meant := Picked(SeenTables(plan)[t], attrs), Picked(MeantTables(plan)[t], attrs);
    forall a | 0 <= a < |attrs|
      ensures |seen[a]| == |meant[a]| == plan.inputs[t].rows
      ensures seen[a] == meant[a] <==> Faithful(plan.inputs[t].columns[attrs[a].idx])
    {
      ColumnsAsMeant(plan, t, attrs[a].idx);
    }
    RowsDetermineColumns(Missing, seen, meant);
    if FaithfulNode(plan, n) {
      assert seen == meant;
    }
  }

  lemma AtMost32(plan: Plan, rank: seq<nat>)
    requires PlanOk(plan, rank)
    ensures |plan.inputs| <= 0x20 && |rank| == |plan.nodes|
  {
  }

  lemma TablesHaveColumns(plan: Plan, t: nat)
    requires t < |plan.inputs|
    ensures |SeenTables(plan)| == |MeantTables(plan)| == |plan.inputs|
    ensures |SeenTables(plan)[t]| == |MeantTables(plan)[t]| == |plan.inputs[t].columns|
  {
  }

  lemma RowsDetermineColumns<T>(blank: T, a: seq<seq<T>>, b: seq<seq<T>>)
    requires |a| == |b| > 0 && forall c :: 0 <= c < |a| ==> |a[c]| == |b[c]| == |a[0]|
    ensures RowsOf(blank, a) == RowsOf(blank, b) <==> a == b
  {
    hide Map, WorkQueue.Range;
    RangeMember(0, |a[0]|);
    var range := WorkQueue.Range(0, |a[0]|);
    if RowsOf(blank, a) == RowsOf(blank, b) {
      forall c | 0 <= c < |a| ensures a[c] == b[c] {
        forall i | 0 <= i < |a[0]| ensures a[c][i] == b[c][i] {
          assert RowsOf(blank, a)[i] == RowOf(blank, a)(range[i]) && RowsOf(blank, b)[i] == RowOf(blank, b)(range[i]);
          assert RowOf(blank, a)(i)[c] == a[c][i] && RowOf(blank, b)(i)[c] == b[c][i];
        }
      }
    }
  }

  lemma {:induction false} DenotedAsMeant(plan: Plan, rank: seq<nat>, n: nat)
    requires PlanOk(plan, rank) && n < |plan.nodes| && FaithfulPlan(plan)
    ensures Denote(plan, rank, SeenTables(plan), n) == Denote(plan, rank, MeantTables(plan), n)
    decreases rank[n]
  {
    hide EquiJoin, RowsOf, SeenTables, MeantTables, Faithful, ColumnOk;
    assert NodeOk(plan, rank, n) && FaithfulNode(plan, n);
    match plan.nodes[n].data
    case Scan(t) =>
      var attrs := plan.nodes[n].attrs;
      TablesHaveColumns(plan, t);
      var seen, meant := Picked(SeenTables(plan)[t], attrs), Picked(MeantTables(plan)[t], attrs);
      forall a | 0 <= a < |attrs| ensures seen[a] == meant[a] {
        ColumnsAsMeant(plan, t, attrs[a].idx);
      }
      assert seen == meant;
    case JoinNode(_, l, r, _, _) =>
      DenotedAsMeant(plan, rank, l);
      DenotedAsMeant(plan, rank, r);
  }

  // Whatever the schedules of its joins, a plan whose scans read faithful columns yields the
  // rows it means over the cells of its input tables, each as often.
  lemma PlanMeansItsDenotation(plan: Plan, rank: seq<nat>, n: nat, run: Trace)
    requires PlanOk(plan, rank) && n < |plan.nodes| && Ran(plan, rank, n, run) && FaithfulPlan(plan)
    ensures multiset(Map(RowsOf(Null, Execute(plan, rank, n, run)), DecodedRow(plan))) ==
            multiset(Denote(plan, rank, MeantTables(plan), n))
  {
    hide PlanOk, Ran, FaithfulPlan, Execute, DecodedRow, SeenTables, MeantTables, Denote, RowsOf, Map;
    ExecutedAsSeen(plan, rank, n, run);
    DenotedAsMeant(plan, rank, n);
  }

  // The workers' columns hold their result rows.
  ghost predicate LocalColumns(local: seq<seq<seq<seq<Value>>>>, gots: seq<seq<Row>>, width: nat) {
    && |local| == |gots|
    && forall p :: 0 <= p < |local| ==>
         |local[p]| == width && forall c :: 0 <= c < width ==> Concat(local[p][c]) == ColumnsOf(gots[p], width)[c]
  }

  // Merging the workers' columns (ColumnStore.MergeResults) gives the columns of the result.
  lemma MergedIsResult(local: seq<seq<seq<seq<Value>>>>, gots: seq<seq<Row>>, width: nat, c: nat)
    requires LocalColumns(local, gots, width) && c < width
    ensures Concat(Map(local, ColumnStore.ColumnOf(c))) == ColumnsOf(Concat(gots), width)[c]
  {
    hide Concat, Map;
    MapConcat(gots, At(c));
    forall p | 0 <= p < |local| ensures ColumnStore.ColumnOf(c)(local[p]) == Mapped(At(c))(gots[p]) {
      assert Concat(local[p][c]) == ColumnsOf(gots[p], width)[c];
    }
    assert Map(local, ColumnStore.ColumnOf(c)) == Map(gots, Mapped(At(c)));
  }

  // ---- runs exist ----

  lemma ExecutedRowCount(plan: Plan, rank: seq<nat>, n: nat, run: Trace)
    requires PlanOk(plan, rank) && n < |plan.nodes| && Ran(plan, rank, n, run)
    ensures RowCount(Execute(plan, rank, n, run)) == |Denote(plan, rank, SeenTables(plan), n)|
  {
    hide Denote, Execute, WorkQueue.Range, Map, SeenTables, DecodedRow, PlanOk, Ran;
    ExecutedAsSeen(plan, rank, n, run);
    var rows := RowsOf(Null, Execute(plan, rank, n, run));
    RangeMember(0, RowCount(Execute(plan, rank, n, run)));
    assert |multiset(Map(rows, DecodedRow(plan)))| == |multiset(Denote(plan, rank, SeenTables(plan), n))|;
  }

  // Every plan whose nodes mean fewer than 2^48 rows can be executed to its end.
  lemma {:induction false} PlanCanRun(plan: Plan, rank: seq<nat>, n: nat, hash: int -> Hash, tags: seq<bv16>)
    returns (run: Trace)
    requires PlanOk(plan, rank) && n < |plan.nodes| && |tags| == 2048
    requires forall m :: 0 <= m < |plan.nodes| ==> |Denote(plan, rank, SeenTables(plan), m)| < TWO48
    ensures Ran(plan, rank, n, run)
    decreases rank[n]
  {
    hide Denote, Execute, JoinOk, Completed;
    assert NodeOk(plan, rank, n);
    match plan.nodes[n].data
    case Scan(_) =>
      run := ScanRun;
    case JoinNode(_, l, r, _, _) =>
      var a := PlanCanRun(plan, rank, l, hash, tags);
      var b := PlanCanRun(plan, rank, r, hash, tags);
      ExecuteIsTyped(plan, rank, l, a);
      ExecuteIsTyped(plan, rank, r, b);
      ExecutedRowCount(plan, rank, l, a);
      ExecutedRowCount(plan, rank, r, b);
      var left, right := Execute(plan, rank, l, a), Execute(plan, rank, r, b);
      JoinInputsOk(plan, rank, n, left, right);
      var setup := JoinCanComplete(JoinOf(plan.nodes[n], left, right), seq(WORKERS, _ => []), hash, 5, tags);
      run := JoinRun(a, b, setup);
  }
}
