// run_unchained of src/execute.cpp as one program: the three phases one after the other over the
// context's collectors, the hash map and the result columns.
module JoinRun {
  import opened Bags
  import opened BuildPhase
  import opened ColumnStore
  import opened Directory
  import opened HashJoin
  import opened PlanExecution
  import opened ProbePhase
  import opened SlabAllocator
  import opened UnchainedMap
  import MergePhase
  import ParallelBuild
  import WorkQueue

  // The new vectors hold blank tuples and zeros.
  predicate NewVectors(e: Setup) {
    e.tuples == Blanks(|e.tuples|) && e.cursor == seq(|e.cursor|, _ => 0)
  }

  lemma MergeFinishes(j: Join, e: Setup)
    requires Completed(j, e) && NewVectors(e)
    ensures MergePhase.InputOk(MergeInput(j, e)) && ParallelBuild.Finishes(MergeInput(j, e), e.schedule.merge)
    ensures MergeEnd(j, e) ==
            MergePhase.Run(MergeInput(j, e), ParallelBuild.Blank(MergeInput(j, e)), e.schedule.merge)
  {
    hide MergePhase.Run, MergePhase.Finished, MergePhase.All, BuildEnd, Shl, PartitionLists;
    BuildFeedsMerge(j, e);
    assert MergePhase.Init(MergeInput(j, e), e.tuples, e.cursor) == ParallelBuild.Blank(MergeInput(j, e));
  }

  lemma BuildStartsEmpty(j: Join, e: Setup)
    requires Completed(j, e)
    ensures JoinOk(j) && IsKeyColumn(BuildKeys(j)) && ScheduleOk(e.schedule.build) && |e.context| == WORKERS
    ensures BuildEnd(j, e) ==
            WorkQueue.Run(WorkQueue.Init(WORKERS), |BuildKeys(j)|, BuildRow(BuildKeys(j), e.hash), e.schedule.build)
    ensures MergeInput(j, e) ==
            MergePhase.Input(e.k, PartitionLists(Map(BuildEnd(j, e).workers, WorkQueue.Got), e.hash), e.tags)
  {
    assert Start(Reset(e.context)) == WorkQueue.Init(WORKERS);
  }

  lemma MergedIsBuilt(table: HashMapUnchained, j: Join, e: Setup)
    requires Completed(j, e) && NewVectors(e)
    requires table.Valid() && table.hash == e.hash && table.bits == e.k && table.tags == e.tags
    requires (MergeFinishes(j, e); ParallelBuild.Merged(MergeInput(j, e), e.schedule.merge, table.directory, table.tuples))
    requires table.tupleCount == |MergePhase.All(MergeInput(j, e))|
    ensures IsBuiltBy(table, j, e)
  {
    hide MergePhase.Run, MergePhase.Finished, MergePhase.All, BuildEnd, Shl, WorkQueue.Run, PartitionLists;
    MergeFinishes(j, e);
  }

  // Whatever earlier joins have left in the collectors and under every schedule of the three
  // phases, the result columns are columns of rows that make up the nested-loop join, and the
  // context is fit for the next join.
  method RunUnchained(j: Join, e: Setup, collectors: seq<TupleCollector>) returns (results: Columns)
    requires Completed(j, e) && NewVectors(e) && ContextOk(collectors, e.hash)
    modifies collectors
    ensures ContextOk(collectors, e.hash)
    ensures |results| == |j.attrs| && multiset(Result(j, e)) == NestedLoop(j)
    ensures forall c :: 0 <= c < |j.attrs| ==>
              PagesFilled(results[c]) && Concat(results[c]) == ColumnsOf(Result(j, e), |j.attrs|)[c]
  {
    hide *;
    MergeFinishes(j, e);
    BuildStartsEmpty(j, e);
    BuildRows(BuildKeys(j), e.hash, collectors, e.schedule.build);
    ghost var gots := Map(BuildEnd(j, e).workers, WorkQueue.Got);
    var lists := CollectedLists(collectors, e.hash, gots);
    var inp := MergePhase.Input(e.k, lists, e.tags);
    var table := ParallelBuild.MergeTuples(inp, e.hash, e.schedule.merge);
    MergedIsBuilt(table, j, e);
    results := ProbeAndMerge(j, e, table, e.schedule.probe);
    JoinIsNestedLoop(j, e);
  }
}
