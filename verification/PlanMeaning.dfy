// What the rows of a plan are (src/execute.cpp), cell by cell: scans row by row, joins pair by
// pair, each output cell found by its attribute's index, the left side's cells first.
module PlanMeaning {
  import opened Bags
  import opened ColumnStore
  import opened FixedPages
  import opened HashJoin
  import opened PlanExecution
  import opened PlanInputs
  import opened Relational
  import opened Values
  import WorkQueue

  // Rows of columns and columns of rows, cell by cell.
  lemma CellsOfRows(blank: Datum, cols: seq<seq<Datum>>, n: nat)
    requires cols != [] && forall c :: 0 <= c < |cols| ==> |cols[c]| == n
    ensures |RowsOf(blank, cols)| == n
    ensures forall i :: 0 <= i < n ==>
              |RowsOf(blank, cols)[i]| == |cols| && forall c :: 0 <= c < |cols| ==> RowsOf(blank, cols)[i][c] == cols[c][i]
  {
    hide Map, WorkQueue.Range;
    RangeMember(0, n);
  }

  lemma CellsOfColumns(rows: seq<Row>, width: nat, c: nat, i: nat)
    requires c < width && i < |rows| && |rows[i]| == width
    ensures |ColumnsOf(rows, width)| == width && |ColumnsOf(rows, width)[c]| == |rows|
    ensures ColumnsOf(rows, width)[c][i] == rows[i][c]
  {
    hide Map;
  }

  // ---- scans ----

  // Row i of a scan: cell c is row i of the column that the attribute names.
  lemma RowsOfScan(plan: Plan, rank: seq<nat>, tables: seq<seq<seq<Datum>>>, n: nat, rows: nat)
    requires PlanOk(plan, rank) && |tables| == |plan.inputs| && n < |plan.nodes| && plan.nodes[n].data.Scan?
    requires plan.nodes[n].data.table < |tables|
    requires var t := tables[plan.nodes[n].data.table];
             && |t| == |plan.inputs[plan.nodes[n].data.table].columns|
             && forall c :: 0 <= c < |t| ==> |t[c]| == rows
    ensures var t, attrs, all := tables[plan.nodes[n].data.table], plan.nodes[n].attrs, Denote(plan, rank, tables, n);
            |all| == rows && forall i :: 0 <= i < rows ==>
              |all[i]| == |attrs| && forall c :: 0 <= c < |attrs| ==> attrs[c].idx < |t| && all[i][c] == t[attrs[c].idx][i]
  {
    hide TableOk, Map, WorkQueue.Range;
    DenoteScan(plan, rank, tables, n);
    assert NodeOk(plan, rank, n);
    RangeMember(0, rows);
  }

  // What a cell of an input table means.
  lemma CellsMean(plan: Plan, t: nat, c: nat, i: nat)
    requires t < |plan.inputs| && TableOk(plan.inputs[t]) && c < |plan.inputs[t].columns| && i < plan.inputs[t].rows
    ensures |MeantTables(plan)| == |plan.inputs| && |MeantTables(plan)[t]| == |plan.inputs[t].columns|
    ensures |MeantTables(plan)[t][c]| == |plan.inputs[t].columns[c].cells| == plan.inputs[t].rows
    ensures var cell, d := plan.inputs[t].columns[c].cells[i], MeantTables(plan)[t][c][i];
            if cell.None? then d == Missing
            else
              match plan.inputs[t].columns[c].dt
              case INT32 =>
                && d.Number? && -2147483648 <= d.i <= 2147483647 && |cell.value| == 4
                && var b := cell.value;
                   var u := b[0] as int + 256 * (b[1] as int) + 65536 * (b[2] as int) + 16777216 * (b[3] as int);
                   d.i == u || d.i == u - 4294967296
              case VARCHAR => d == Chars(cell.value)
              case _ => d == Wide(cell.value)
  {
    hide Map, Concat, PagesHold, Int32Of;
    var column := plan.inputs[t].columns[c];
    if column.dt == INT32 && column.cells[i].Some? {
      CellHasWidth(column.chunks, 4, column.cells, i);
      Int32IsItsBytes(column.cells[i].value);
    }
  }

  lemma {:induction false} CellHasWidth(chunks: seq<seq<Cell>>, w: nat, cells: seq<Cell>, i: nat)
    requires ChunksOk(w, chunks) && Concat(chunks) == cells && i < |cells| && cells[i].Some?
    ensures |cells[i].value| == w
  {
    if i < |chunks[0]| {
      assert CellsOk(w, chunks[0]) && cells[i] == chunks[0][i];
    } else {
      CellHasWidth(chunks[1..], w, Concat(chunks[1..]), i - |chunks[0]|);
    }
  }

  // ---- joins ----

  // Rows l and r have the same number as their keys, and x is their output row.
  ghost predicate JoinsTo(node: PlanNode, l: seq<Datum>, r: seq<Datum>, x: seq<Datum>)
    requires node.data.JoinNode?
  {
    && node.data.leftAttr < |l| && node.data.rightAttr < |r|
    && l[node.data.leftAttr].Number? && l[node.data.leftAttr] == r[node.data.rightAttr]
    && |x| == |node.attrs|
    && forall c :: 0 <= c < |x| ==>
         x[c] == if node.attrs[c].idx < |l| then l[node.attrs[c].idx]
                 else if node.attrs[c].idx - |l| < |r| then r[node.attrs[c].idx - |l|] else Missing
  }

  lemma JoinsToIsPair(node: PlanNode, l: seq<Datum>, r: seq<Datum>, x: seq<Datum>)
    requires node.data.JoinNode?
    ensures JoinsTo(node, l, r, x) <==> IsPairOf(OfDatums(), node.data.leftAttr, node.data.rightAttr, Idxs(node), l, r, x)
  {
    hide Map;
  }

  // A row comes out of a join once for each pair of rows of its sides that it is the output of.
  lemma RowsOfJoin(plan: Plan, rank: seq<nat>, tables: seq<seq<seq<Datum>>>, n: nat, x: seq<Datum>)
    requires PlanOk(plan, rank) && |tables| == |plan.inputs| && n < |plan.nodes| && plan.nodes[n].data.JoinNode?
    ensures plan.nodes[n].data.left < |plan.nodes| && plan.nodes[n].data.right < |plan.nodes|
    ensures var node := plan.nodes[n];
            var ls, rs := Denote(plan, rank, tables, node.data.left), Denote(plan, rank, tables, node.data.right);
            multiset(Denote(plan, rank, tables, n))[x] ==
            |set i, j | 0 <= i < |ls| && 0 <= j < |rs| && JoinsTo(node, ls[i], rs[j], x) :: (i, j)|
  {
    hide EquiJoin, Denote, JoinsTo, IsPairOf, PlanOk;
    DenoteJoin(plan, rank, tables, n);
    var node := plan.nodes[n];
    var la, ra := node.data.leftAttr, node.data.rightAttr;
    var ls, rs := Denote(plan, rank, tables, node.data.left), Denote(plan, rank, tables, node.data.right);
    EquiJoinCounts(OfDatums(), ls, rs, la, ra, Idxs(node), x);
    forall i, j | 0 <= i < |ls| && 0 <= j < |rs|
      ensures JoinsTo(node, ls[i], rs[j], x) <==> IsPairOf(OfDatums(), la, ra, Idxs(node), ls[i], rs[j], x)
    {
      JoinsToIsPair(node, ls[i], rs[j], x);
    }
    assert (set i, j | 0 <= i < |ls| && 0 <= j < |rs| && JoinsTo(node, ls[i], rs[j], x) :: (i, j)) ==
           (set i, j | 0 <= i < |ls| && 0 <= j < |rs| && IsPairOf(OfDatums(), la, ra, Idxs(node), ls[i], rs[j], x) :: (i, j));
  }

  // And so it comes out of every run of the join, decoded.
  lemma RowsOfJoinRun(plan: Plan, rank: seq<nat>, n: nat, run: Trace, x: seq<Datum>)
    requires PlanOk(plan, rank) && n < |plan.nodes| && Ran(plan, rank, n, run) && plan.nodes[n].data.JoinNode?
    requires FaithfulPlan(plan)
    ensures plan.nodes[n].data.left < |plan.nodes| && plan.nodes[n].data.right < |plan.nodes|
    ensures var node, tables := plan.nodes[n], MeantTables(plan);
            var ls, rs := Denote(plan, rank, tables, node.data.left), Denote(plan, rank, tables, node.data.right);
            multiset(Map(RowsOf(Null, Execute(plan, rank, n, run)), DecodedRow(plan)))[x] ==
            |set i, j | 0 <= i < |ls| && 0 <= j < |rs| && JoinsTo(node, ls[i], rs[j], x) :: (i, j)|
  {
    hide Denote, Execute, Ran, PlanOk, FaithfulPlan, JoinsTo, MeantTables, RowsOf, Map, DecodedRow;
    PlanMeansItsDenotation(plan, rank, n, run);
    RowsOfJoin(plan, rank, MeantTables(plan), n, x);
  }
}
