// probe_phase and merge_results of src/execute.cpp over the workers' own result columns: every
// matched pair is inserted column by column, and the workers step in the order of a schedule.
module ProbePhase {
  import opened Bags
  import opened ColumnStore
  import opened Directory
  import opened HashIndex
  import opened HashJoin
  import opened PlanExecution
  import opened UnchainedMap
  import opened Values
  import MergePhase
  import ParallelBuild
  import WorkQueue

  type Columns = seq<seq<seq<Value>>>

  // The columns hold the rows.
  ghost predicate Holding(cols: Columns, rows: seq<Row>, width: nat) {
    && |cols| == width && ColumnStore.Table(cols, |rows|)
    && forall c :: 0 <= c < width ==> Concat(cols[c]) == Map(rows, At(c))
  }

  lemma NoRowsYet(width: nat)
    ensures Holding(seq(width, _ => []), [], width)
  {
  }

  // The pair of a left row and a right row goes to the end of every output column.
  method InsertOutput(j: Join, cols: Columns, l: nat, r: nat, ghost rows: seq<Row>) returns (after: Columns)
    requires JoinOk(j) && l < j.leftRows && r < j.rightRows && Holding(cols, rows, |j.attrs|)
    ensures Holding(after, rows + [Output(j, l, r)], |j.attrs|)
  {
    hide Concat, Map, PagesFilled, JoinOk, Output;
    after := cols;
    ghost var more := rows + [Output(j, l, r)];
    for c := 0 to |j.attrs|
      invariant |after| == |cols| && forall d :: c <= d < |cols| ==> after[d] == cols[d]
      invariant forall d :: 0 <= d < c ==> PagesFilled(after[d]) && Concat(after[d]) == Map(more, At(d))
    {
      OutputCell(j, l, r, c);
      var val := Cell(j, j.attrs[c], l, r);
      var pages := InsertValue(after[c], val);
      after := after[c := pages];
      assert more[..|rows| + 1] == more && more[..|rows|] == rows;
      MapNext(more, At(c), |rows|);
    }
    forall c | 0 <= c < |j.attrs| ensures |Map(more, At(c))| == |more| {
    }
  }

  lemma OutputCell(j: Join, l: nat, r: nat, c: nat)
    requires JoinOk(j) && l < j.leftRows && r < j.rightRows && c < |j.attrs|
    ensures j.attrs[c] < |j.left| + |j.right| && At(c)(Output(j, l, r)) == Cell(j, j.attrs[c], l, r)
  {
  }

  // What the map must hold for the probe: an index over the tuples of the build side.
  ghost predicate Built(j: Join, table: HashMapUnchained, ts: seq<Tuple>)
    requires JoinOk(j)
    reads table
  {
    && table.Valid() && table.tupleCount == |ts| < TWO48
    && Index(table.directory, table.tuples, ts, table.bits, table.tags)
    && multiset(ts) == multiset(BuildTuples(j, table.hash))
  }

  lemma MapIsValid(j: Join, table: HashMapUnchained, ts: seq<Tuple>)
    requires JoinOk(j) && Built(j, table, ts)
    ensures table.Valid()
  {
  }

  ghost function Probe(j: Join, table: HashMapUnchained): nat -> seq<Row>
    requires JoinOk(j) && table.Valid()
    reads table
  {
    ProbeRow(j, table.hash, table.directory, table.tuples, table.tupleCount, table.bits, table.tags)
  }

  // The matches of one probe row.
  method ProbeOneRow(j: Join, table: HashMapUnchained, row: nat, cols: Columns, ghost rows: seq<Row>, ghost ts: seq<Tuple>)
    returns (after: Columns)
    requires JoinOk(j) && Built(j, table, ts) && row < |ProbeKeys(j)| && Holding(cols, rows, |j.attrs|)
    ensures Holding(after, rows + Probe(j, table)(row), |j.attrs|)
  {
    hide Concat, Map, Filter, Index, Holding, LookupRange, BuildTuples, Joined, JoinOk;
    after := cols;
    var v := ProbeKeys(j)[row];
    KeyOfRow(j, row);
    if v.Null? {
      assert rows + [] == rows;
      return;
    }
    TuplesHaveTheirHash(j, table.hash, ts);
    var lo, hi := table.Lookup(v.i, ts);
    FilterUnfold(table.tuples[lo..lo], KeyIs(v.i));
    MapOfNothing(Filter(table.tuples[lo..lo], KeyIs(v.i)), Joined(j, row));
    assert rows + [] == rows;
    for i := lo to hi
      invariant Holding(after, rows + Map(Filter(table.tuples[lo..i], KeyIs(v.i)), Joined(j, row)), |j.attrs|)
    {
      var tuple := table.tuples[i];
      OneMoreTuple(table.tuples[lo..hi], i - lo, v.i, Joined(j, row), rows);
      assert table.tuples[lo..hi][..i - lo] == table.tuples[lo..i];
      assert table.tuples[lo..hi][..i - lo + 1] == table.tuples[lo..i + 1];
      if tuple.key == v.i {
        FoundIsBuilt(j, table.hash, table.tuples[lo..hi], ts, v.i, i - lo);
        JoinedPair(j, row, tuple);
        var leftRow := if j.buildLeft then tuple.value else row;
        var rightRow := if j.buildLeft then row else tuple.value;
        after := InsertOutput(j, after, leftRow, rightRow, rows + Map(Filter(table.tuples[lo..i], KeyIs(v.i)), Joined(j, row)));
      }
    }
  }

  lemma KeyOfRow(j: Join, row: nat)
    requires JoinOk(j) && row < |ProbeKeys(j)|
    ensures !ProbeKeys(j)[row].Text?
  {
  }

  lemma MapOfNothing<T, U>(s: seq<T>, f: T -> U)
    ensures s == [] ==> Map(s, f) == []
  {
  }

  lemma OneMoreTuple(found: seq<Tuple>, i: nat, key: int, f: Tuple -> Row, rows: seq<Row>)
    requires i < |found|
    ensures var so := rows + Map(Filter(found[..i], KeyIs(key)), f);
            rows + Map(Filter(found[..i + 1], KeyIs(key)), f) == if found[i].key == key then so + [f(found[i])] else so
  {
    hide Filter, Map;
    FilterNext(found, KeyIs(key), i);
    var before := Filter(found[..i], KeyIs(key));
    if found[i].key == key {
      var more := before + [found[i]];
      assert more[..|before| + 1] == more && more[..|before|] == before;
      MapNext(more, f, |before|);
    }
  }

  // A tuple found for the key stands for a row of the build side.
  lemma FoundIsBuilt(j: Join, hash: int -> Hash, found: seq<Tuple>, ts: seq<Tuple>, key: int, i: nat)
    requires JoinOk(j) && multiset(ts) == multiset(BuildTuples(j, hash)) && i < |found| && found[i].key == key
    requires multiset(Filter(found, KeyIs(key))) == multiset(Filter(ts, KeyIs(key)))
    ensures found[i].value < |BuildKeys(j)|
  {
    hide Filter, Concat, Map;
    var t := found[i];
    assert t in multiset(found);
    FilterBag(found, KeyIs(key), t);
    FilterBag(ts, KeyIs(key), t);
    assert t in multiset(ts);
    assert t in BuildTuples(j, hash);
    BuiltRowsExist(WorkQueue.Range(0, |BuildKeys(j)|), BuildKeys(j), hash, t);
  }

  lemma {:induction false} BuiltRowsExist(rows: seq<nat>, keys: Column, hash: int -> Hash, t: Tuple)
    requires t in Concat(Map(rows, BuildRow(keys, hash)))
    ensures t.value < |keys|
  {
    if rows != [] && t !in BuildRow(keys, hash)(rows[0]) {
      assert Map(rows, BuildRow(keys, hash))[1..] == Map(rows[1..], BuildRow(keys, hash));
      BuiltRowsExist(rows[1..], keys, hash, t);
    }
  }

  lemma JoinedPair(j: Join, row: nat, t: Tuple)
    requires JoinOk(j) && row < |ProbeKeys(j)| && t.value < |BuildKeys(j)|
    ensures var l, r := if j.buildLeft then t.value else row, if j.buildLeft then row else t.value;
            l < j.leftRows && r < j.rightRows && Joined(j, row)(t) == Output(j, l, r)
  {
    hide Output;
  }

  // The probe workers, each with its own result columns; `queue` is the state of the claim
  // protocol (WorkQueue) that the fields stand for.
  class ProbeRun {
    const j: Join
    const table: HashMapUnchained
    ghost const ts: seq<Tuple>
    var nextRow: nat
    var row: seq<nat>
    var end: seq<nat>
    var done: seq<bool>
    var local: seq<Columns>
    ghost var queue: WorkQueue.Queue<Row>

    ghost predicate Tied()
      reads this
    {
      && queue.next == nextRow && |row| == |end| == |done| == |local| == |queue.workers|
      && forall w :: 0 <= w < |row| ==>
           row[w] == queue.workers[w].row && end[w] == queue.workers[w].end && done[w] == queue.workers[w].done
    }

    ghost predicate Valid()
      reads this, table
    {
      && JoinOk(j) && Built(j, table, ts) && Tied()
      && (forall w :: 0 <= w < |end| ==> end[w] <= |ProbeKeys(j)|)
      && (forall w :: 0 <= w < |local| ==> Holding(local[w], queue.workers[w].got, |j.attrs|))
    }

    constructor (j: Join, table: HashMapUnchained, ghost ts: seq<Tuple>, workers: nat)
      requires JoinOk(j) && Built(j, table, ts)
      ensures Valid() && this.j == j && this.table == table && this.ts == ts && queue == WorkQueue.Init(workers)
    {
      this.j, this.table, this.ts, nextRow, queue := j, table, ts, 0, WorkQueue.Init(workers);
      row, end, done := seq(workers, _ => 0), seq(workers, _ => 0), seq(workers, _ => false);
      local := seq(workers, _ => seq(|j.attrs|, _ => []));
      NoRowsYet(|j.attrs|);
    }

    method ProbeNext(w: nat)
      requires Valid() && w < |row| && !done[w] && row[w] < end[w]
      modifies this`row, this`local, this`queue
      ensures Valid() && |row| == old(|row|)
      ensures queue == WorkQueue.Step(old(queue), |ProbeKeys(j)|, Probe(j, table), w)
    {
      hide Holding, JoinOk, ProbeKeys, Built, Probe;
      MapIsValid(j, table, ts);
      var cols := ProbeOneRow(j, table, row[w], local[w], queue.workers[w].got, ts);
      queue := WorkQueue.Step(queue, |ProbeKeys(j)|, Probe(j, table), w);
      local := local[w := cols];
      row := row[w := row[w] + 1];
    }

    method Claim(w: nat)
      requires Valid() && w < |row| && !done[w] && row[w] >= end[w]
      modifies this`nextRow, this`row, this`end, this`done, this`queue
      ensures Valid() && |row| == old(|row|)
      ensures queue == WorkQueue.Step(old(queue), |ProbeKeys(j)|, Probe(j, table), w)
    {
      hide Holding, JoinOk, ProbeKeys, Built, Probe;
      MapIsValid(j, table, ts);
      queue := WorkQueue.Step(queue, |ProbeKeys(j)|, Probe(j, table), w);
      var start, rows := nextRow, |ProbeKeys(j)|;
      nextRow := nextRow + WorkQueue.BLOCK;
      if start >= rows {
        done := done[w := true];
      } else {
        row := row[w := start];
        end := end[w := if start + WorkQueue.BLOCK > rows then rows else start + WorkQueue.BLOCK];
      }
    }

    // One step of worker w: probe its next row, claim a block, or stop.
    method Step(w: nat)
      requires Valid() && w < |row|
      modifies this
      ensures Valid() && |row| == old(|row|)
      ensures queue == WorkQueue.Step(old(queue), |ProbeKeys(j)|, Probe(j, table), w)
    {
      hide Holding, Built, JoinOk, Probe;
      MapIsValid(j, table, ts);
      if !done[w] {
        if row[w] < end[w] {
          ProbeNext(w);
        } else {
          Claim(w);
        }
      }
    }

    // The workers step in the order of the schedule.
    method Play(schedule: seq<nat>)
      requires Valid() && forall i :: 0 <= i < |schedule| ==> schedule[i] < |row|
      modifies this
      ensures Valid() && |row| == old(|row|)
      ensures queue == WorkQueue.Run(old(queue), |ProbeKeys(j)|, Probe(j, table), schedule)
    {
      hide Holding, Built, JoinOk, WorkQueue.Step, Probe;
      MapIsValid(j, table, ts);
      ghost var whole := WorkQueue.Run(queue, |ProbeKeys(j)|, Probe(j, table), schedule);
      assert schedule[0..] == schedule;
      for i := 0 to |schedule|
        invariant Valid() && |row| == old(|row|)
        invariant WorkQueue.Run(queue, |ProbeKeys(j)|, Probe(j, table), schedule[i..]) == whole
      {
        assert schedule[i..][0] == schedule[i] && schedule[i..][1..] == schedule[i + 1..];
        Step(schedule[i]);
      }
      assert schedule[|schedule|..] == [];
    }
  }

  // The map that the merge phase of a run has built.
  ghost predicate IsBuiltBy(table: HashMapUnchained, j: Join, e: Setup)
    requires JoinOk(j) && SetupOk(j, e)
    reads table
  {
    BuildFeedsMerge(j, e);
    var inp, s := MergeInput(j, e), MergeEnd(j, e);
    && table.Valid() && table.hash == e.hash && table.bits == e.k && table.tags == e.tags
    && table.directory == MergePhase.Finalized(inp, s.directory) && table.tuples == s.tuples
    && table.tupleCount == |MergePhase.All(inp)|
  }

  lemma BuiltByRun(table: HashMapUnchained, j: Join, e: Setup)
    requires Completed(j, e) && IsBuiltBy(table, j, e)
    ensures Built(j, table, MergePhase.All(MergeInput(j, e)))
    ensures Probe(j, table) == ProbeRow(j, e.hash, table.directory, table.tuples, table.tupleCount, e.k, e.tags)
  {
    hide Index, MergePhase.Run, MergePhase.Finalized, BuildTuples, MergePhase.All;
    BuildFeedsMerge(j, e);
    MergePhase.MergeBuildsIndex(MergeInput(j, e), e.tuples, e.cursor, e.schedule.merge);
    ParallelBuild.InputFacts(MergeInput(j, e));
  }

  lemma RunFacts(j: Join, e: Setup)
    requires Completed(j, e)
    ensures JoinOk(j) && SetupOk(j, e) && ScheduleOk(e.schedule.build) && ScheduleOk(e.schedule.probe) && |e.context| == WORKERS
  {
  }

  // part[0].num_rows
  function NumRows(cols: Columns): nat {
    if cols == [] then 0 else |Concat(cols[0])|
  }

  lemma LocalsHold(local: seq<Columns>, gots: seq<seq<Row>>, width: nat)
    requires |local| == |gots| && forall w :: 0 <= w < |local| ==> Holding(local[w], gots[w], width)
    ensures LocalColumns(local, gots, width) && Parts(local, Map(local, NumRows), width)
  {
    hide Concat, PagesFilled, Holding, NumRows, Map;
    forall w | 0 <= w < |local|
      ensures ColumnStore.Table(local[w], NumRows(local[w])) && |local[w]| == width
      ensures forall c :: 0 <= c < width ==> Concat(local[w][c]) == ColumnsOf(gots[w], width)[c]
    {
      LocalHolds(local[w], gots[w], width);
    }
  }

  lemma LocalHolds(cols: Columns, rows: seq<Row>, width: nat)
    requires Holding(cols, rows, width)
    ensures |cols| == width && ColumnStore.Table(cols, NumRows(cols))
    ensures forall c :: 0 <= c < width ==> Concat(cols[c]) == ColumnsOf(rows, width)[c]
  {
    hide Concat, PagesFilled, Map;
  }

  // The probe phase and merge_results, under any schedule.
  method ProbeRows(j: Join, table: HashMapUnchained, schedule: seq<nat>, ghost ts: seq<Tuple>) returns (results: Columns)
    requires JoinOk(j) && Built(j, table, ts) && ScheduleOk(schedule)
    ensures |results| == |j.attrs|
    ensures var q := WorkQueue.Run(WorkQueue.Init(WORKERS), |ProbeKeys(j)|, Probe(j, table), schedule);
            forall c :: 0 <= c < |j.attrs| ==>
              PagesFilled(results[c]) && Concat(results[c]) == ColumnsOf(WorkQueue.Gathered(q), |j.attrs|)[c]
  {
    hide Concat, Map, PagesFilled, Built, Holding, WorkQueue.Run, JoinOk, ProbeKeys, Probe;
    MapIsValid(j, table, ts);
    var run := new ProbeRun(j, table, ts, WORKERS);
    run.Play(schedule);
    ghost var gots := Map(run.queue.workers, WorkQueue.Got);
    LocalsHold(run.local, gots, |j.attrs|);
    results := MergeResults(run.local, Map(run.local, NumRows), |j.attrs|);
    forall c | 0 <= c < |j.attrs| ensures Concat(results[c]) == ColumnsOf(Concat(gots), |j.attrs|)[c] {
      MergedIsResult(run.local, gots, |j.attrs|, c);
    }
  }

  // At the end of a completed run the result columns are those of its result rows.
  method ProbeAndMerge(j: Join, ghost e: Setup, table: HashMapUnchained, schedule: seq<nat>) returns (results: Columns)
    requires Completed(j, e) && IsBuiltBy(table, j, e) && schedule == e.schedule.probe
    ensures |results| == |j.attrs|
    ensures forall c :: 0 <= c < |j.attrs| ==>
              PagesFilled(results[c]) && Concat(results[c]) == ColumnsOf(Result(j, e), |j.attrs|)[c]
  {
    RunFacts(j, e);
    BuiltByRun(table, j, e);
    EndOfProbe(table, j, e);
    hide *;
    results := ProbeRows(j, table, schedule, MergePhase.All(MergeInput(j, e)));
  }

  lemma EndOfProbe(table: HashMapUnchained, j: Join, e: Setup)
    requires Completed(j, e) && IsBuiltBy(table, j, e)
    ensures Built(j, table, MergePhase.All(MergeInput(j, e)))
    ensures table.Valid()
    ensures Result(j, e) ==
            WorkQueue.Gathered(WorkQueue.Run(WorkQueue.Init(WORKERS), |ProbeKeys(j)|, Probe(j, table), e.schedule.probe))
  {
    hide Index, WorkQueue.Run, WorkQueue.Gathered, MergePhase.Run, MergePhase.Finalized, BuildTuples, MergePhase.All,
         ProbeRow, Built;
    BuiltByRun(table, j, e);
    MapIsValid(j, table, MergePhase.All(MergeInput(j, e)));
  }
}
