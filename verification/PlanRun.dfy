// execute_impl of src/execute.cpp as a program: a plan tree of scans and joins, every join on the
// same context.
module PlanRun {
  import opened Bags
  import opened BuildPhase
  import opened ColumnStore
  import opened Directory
  import opened HashJoin
  import opened JoinRun
  import opened PlanExecution
  import opened PlanInputs
  import opened SlabAllocator

  // A run whose joins hash alike and start with new vectors.
  ghost predicate Starts(run: Trace, hash: int -> Hash) {
    match run
    case ScanRun => true
    case JoinRun(left, right, setup) => setup.hash == hash && NewVectors(setup) && Starts(left, hash) && Starts(right, hash)
  }

  // What get_value gives for each row.
  method ReadColumn(c: ColumnT) returns (values: Column)
    requires c.Valid()
    ensures values == c.Contents()
  {
    hide ColumnT.Valid, ColumnT.Contents;
    values := [];
    for row := 0 to c.numRows
      invariant values == c.Contents()[..row]
    {
      values := values + [c.GetValue(row)];
    }
  }

  // execute_scan
  method RunScan(plan: Plan, attrs: seq<Attr>, t: nat) returns (cols: seq<Column>)
    requires t < |plan.inputs| && TableOk(plan.inputs[t])
    requires forall a :: 0 <= a < |attrs| ==> attrs[a].idx < |plan.inputs[t].columns|
    ensures cols == ScanColumns(plan.inputs[t], attrs, t)
  {
    hide Scanned, ColumnOk, ColumnT.Valid, ColumnT.Contents;
    var scanned := ScanTable(plan.inputs[t], Map(attrs, IdxOf), t);
    cols := [];
    for a := 0 to |attrs|
      invariant forall k :: 0 <= k < |attrs| ==>
                  scanned[k].Valid() && scanned[k].Contents() == Scanned(plan.inputs[t].columns[attrs[k].idx], t, attrs[k].idx)
      invariant |cols| == a && forall k :: 0 <= k < a ==> cols[k] == ScanColumns(plan.inputs[t], attrs, t)[k]
    {
      var col := ReadColumn(scanned[a]);
      cols := cols + [col];
    }
  }

  // execute_hash_join
  method RunJoin(j: Join, e: Setup, collectors: seq<TupleCollector>) returns (cols: seq<Column>)
    requires Completed(j, e) && NewVectors(e) && ContextOk(collectors, e.hash)
    modifies collectors
    ensures ContextOk(collectors, e.hash) && cols == ColumnsOf(Result(j, e), |j.attrs|)
  {
    hide Completed, NewVectors, ContextOk, Result, NestedLoop, Concat, PagesFilled;
    var results := RunUnchained(j, e, collectors);
    cols := [];
    for c := 0 to |results|
      invariant |cols| == c && forall k :: 0 <= k < c ==> cols[k] == ColumnsOf(Result(j, e), |j.attrs|)[k]
    {
      cols := cols + [Concat(results[c])];
    }
  }

  // A whole plan: whatever is left in the context, and under every schedule of every phase, the
  // columns are those of the run, which PlanMeansItsDenotation says the meaning of.
  method RunPlan(plan: Plan, rank: seq<nat>, n: nat, run: Trace, collectors: seq<TupleCollector>, ghost hash: int -> Hash)
    returns (cols: seq<Column>)
    requires PlanOk(plan, rank) && n < |plan.nodes| && Ran(plan, rank, n, run) && Starts(run, hash)
    requires ContextOk(collectors, hash)
    modifies collectors
    decreases run
    ensures ContextOk(collectors, hash) && cols == Execute(plan, rank, n, run)
  {
    hide ContextOk, TableOk, NewVectors, Completed, ScanColumns, Result;
    assert NodeOk(plan, rank, n);
    var node := plan.nodes[n];
    match node.data
    case Scan(t) =>
      cols := RunScan(plan, node.attrs, t);
    case JoinNode(_, l, r, _, _) =>
      var left := RunPlan(plan, rank, l, run.left, collectors, hash);
      var right := RunPlan(plan, rank, r, run.right, collectors, hash);
      cols := RunJoin(JoinOf(node, left, right), run.setup, collectors);
  }
}
