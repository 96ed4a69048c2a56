// run_unchained (src/execute.cpp): build, merge and probe phases with a barrier between them,
// each under any schedule of the 32 workers, against the nested-loop join.
module HashJoin {
  import opened Bags
  import opened Directory
  import opened HashIndex
  import WorkQueue
  import MergePhase
  import SlabAllocator
  import opened Values

  type Column = seq<Value>
  type Row = seq<Value>

  const WORKERS: nat := 32

  // The two inputs as columns, the key columns, and the output columns: indexes below
  // |left| name columns of left, the others columns of right.
  datatype Join = Join(buildLeft: bool, left: seq<Column>, right: seq<Column>, leftCol: nat, rightCol: nat,
                       attrs: seq<nat>, leftRows: nat, rightRows: nat)

  predicate IsKeyColumn(c: Column) {
    forall i :: 0 <= i < |c| ==> !c[i].Text?
  }

  predicate JoinOk(j: Join) {
    && (forall c :: 0 <= c < |j.left| ==> |j.left[c]| == j.leftRows)
    && (forall c :: 0 <= c < |j.right| ==> |j.right[c]| == j.rightRows)
    && j.leftCol < |j.left| && j.rightCol < |j.right|
    && IsKeyColumn(j.left[j.leftCol]) && IsKeyColumn(j.right[j.rightCol])
    && (forall c :: 0 <= c < |j.attrs| ==> j.attrs[c] < |j.left| + |j.right|)
    && j.leftRows < TWO48 && j.rightRows < TWO48
  }

  function Cell(j: Join, attr: nat, l: nat, r: nat): Value
    requires JoinOk(j) && l < j.leftRows && r < j.rightRows && attr < |j.left| + |j.right|
  {
    if attr < |j.left| then j.left[attr][l] else j.right[attr - |j.left|][r]
  }

  function Output(j: Join, l: nat, r: nat): Row
    requires JoinOk(j) && l < j.leftRows && r < j.rightRows
  {
    seq(|j.attrs|, c requires 0 <= c < |j.attrs| => Cell(j, j.attrs[c], l, r))
  }

  // The output of one pair of rows: a row when the keys are equal and not null.
  ghost function Pairing(j: Join): (nat, nat) -> multiset<Row>
    requires JoinOk(j)
  {
    (l: nat, r: nat) =>
      if l < j.leftRows && r < j.rightRows && j.left[j.leftCol][l].Int32? && j.left[j.leftCol][l] == j.right[j.rightCol][r]
      then multiset{Output(j, l, r)} else multiset{}
  }

  // The nested-loop join.
  ghost function NestedLoop(j: Join): multiset<Row>
    requires JoinOk(j)
  {
    Sum(WorkQueue.Range(0, j.leftRows), RowSum(WorkQueue.Range(0, j.rightRows), Pairing(j)))
  }

  function BuildKeys(j: Join): Column
    requires JoinOk(j)
  {
    if j.buildLeft then j.left[j.leftCol] else j.right[j.rightCol]
  }

  function ProbeKeys(j: Join): Column
    requires JoinOk(j)
  {
    if j.buildLeft then j.right[j.rightCol] else j.left[j.leftCol]
  }

  // What build_phase consumes for a row.
  function BuildRow(keys: Column, hash: int -> Hash): nat -> seq<Tuple> {
    (row: nat) => if row < |keys| && keys[row].Int32? then [Tuple(keys[row].i, row, hash(keys[row].i))] else []
  }

  function Joined(j: Join, probeRow: nat): Tuple -> Row
    requires JoinOk(j) && probeRow < |ProbeKeys(j)|
  {
    (t: Tuple) =>
      if t.value >= |BuildKeys(j)| then []
      else if j.buildLeft then Output(j, t.value, probeRow) else Output(j, probeRow, t.value)
  }

  // What probe_phase inserts for a row.
  function ProbeRow(j: Join, hash: int -> Hash, directory: seq<Word>, tuples: seq<Tuple>, count: nat, k: Bits,
                    tags: seq<bv16>): nat -> seq<Row>
    requires JoinOk(j) && |tags| == TAGS && |directory| == Shl(1, k) + 1
  {
    (row: nat) =>
      if row >= |ProbeKeys(j)| || ProbeKeys(j)[row].Null? then []
      else
        var key := (match ProbeKeys(j)[row] case Int32(i) => i case _ => 0);
        var (lo, hi) := LookupRange(directory, count, hash(key), k, tags);
        if lo <= hi <= |tuples| then Map(Filter(tuples[lo..hi], KeyIs(key)), Joined(j, row)) else []
  }

  // The tuples of the build side in row order.
  function BuildTuples(j: Join, hash: int -> Hash): seq<Tuple>
    requires JoinOk(j)
  {
    Concat(Map(WorkQueue.Range(0, |BuildKeys(j)|), BuildRow(BuildKeys(j), hash)))
  }

  ghost function PairWith(j: Join, probeRow: nat): nat -> multiset<Row>
    requires JoinOk(j)
  {
    (b: nat) => if j.buildLeft then Pairing(j)(b, probeRow) else Pairing(j)(probeRow, b)
  }

  lemma {:induction false} RangeMember(a: nat, b: nat)
    ensures forall i :: 0 <= i < |WorkQueue.Range(a, b)| ==> WorkQueue.Range(a, b)[i] == a + i < b
    ensures |WorkQueue.Range(a, b)| == if a < b then b - a else 0
    decreases b - a
  {
    if a < b {
      RangeMember(a + 1, b);
      var rest := WorkQueue.Range(a + 1, b);
      assert WorkQueue.Range(a, b) == [a] + rest;
      forall i | 0 <= i < |WorkQueue.Range(a, b)| ensures WorkQueue.Range(a, b)[i] == a + i < b {
        if i > 0 {
          assert rest[i - 1] == a + 1 + (i - 1);
        }
      }
    }
  }

  // One probe row yields its pairings with every build row.
  lemma ProbeRowIsPairings(j: Join, hash: int -> Hash, directory: seq<Word>, tuples: seq<Tuple>, ts: seq<Tuple>,
                           k: Bits, tags: seq<bv16>, row: nat)
    requires JoinOk(j) && |tags| == TAGS && |ts| < TWO48
    requires Index(directory, tuples, ts, k, tags) && multiset(ts) == multiset(BuildTuples(j, hash))
    requires row < |ProbeKeys(j)|
    ensures |directory| == Shl(1, k) + 1
    ensures multiset(ProbeRow(j, hash, directory, tuples, |ts|, k, tags)(row)) ==
            Sum(WorkQueue.Range(0, |BuildKeys(j)|), PairWith(j, row))
  {
    hide Sum, Filter, Map, Concat, WorkQueue.Range, Index, LookupRange, Output;
    var keys := BuildKeys(j);
    var range := WorkQueue.Range(0, |keys|);
    RangeMember(0, |keys|);
    ShlIsMonotone(0, 1, k);
    IndexAt(directory, tuples, ts, k, tags, 0);
    match ProbeKeys(j)[row]
    case Null =>
      forall i | 0 <= i < |range| ensures PairWith(j, row)(range[i]) == multiset{} {
        PairAt(j, row, range[i]);
      }
      SumEmpty(range, PairWith(j, row));
    case Int32(key) =>
      TuplesHaveTheirHash(j, hash, ts);
      LookupFindsAll(directory, tuples, ts, k, tags, key, hash(key));
      var (lo, hi) := LookupRange(directory, |ts|, hash(key), k, tags);
      FoundArePairings(j, hash, Filter(tuples[lo..hi], KeyIs(key)), ts, key, row);
  }

  // The tuples found for a key, joined with the probe row.
  lemma FoundArePairings(j: Join, hash: int -> Hash, found: seq<Tuple>, ts: seq<Tuple>, key: int, row: nat)
    requires JoinOk(j) && row < |ProbeKeys(j)| && ProbeKeys(j)[row] == Int32(key)
    requires multiset(ts) == multiset(BuildTuples(j, hash)) && multiset(found) == multiset(Filter(ts, KeyIs(key)))
    ensures multiset(Map(found, Joined(j, row))) == Sum(WorkQueue.Range(0, |BuildKeys(j)|), PairWith(j, row))
  {
    hide Sum, Filter, Map, Concat, WorkQueue.Range, Output;
    var keys := BuildKeys(j);
    var range := WorkQueue.Range(0, |keys|);
    RangeMember(0, |keys|);
    var f := Single(Joined(j, row));
    var g := Gate(KeyIs(key), f);
    MapBag(found, Joined(j, row));
    SumPermute(found, Filter(ts, KeyIs(key)), f);
    SumFilter(ts, KeyIs(key), f);
    SumPermute(ts, BuildTuples(j, hash), g);
    SumOfConcat(Map(range, BuildRow(keys, hash)), g);
    SumMap(range, BuildRow(keys, hash), Inner(g));
    forall i | 0 <= i < |range| ensures After(Inner(g), BuildRow(keys, hash))(range[i]) == PairWith(j, row)(range[i]) {
      RowPairs(j, hash, key, row, range[i]);
    }
    SumSame(range, After(Inner(g), BuildRow(keys, hash)), PairWith(j, row));
  }

  lemma PairAt(j: Join, row: nat, b: nat)
    requires JoinOk(j) && row < |ProbeKeys(j)| && b < |BuildKeys(j)|
    ensures PairWith(j, row)(b) ==
            if BuildKeys(j)[b].Int32? && BuildKeys(j)[b] == ProbeKeys(j)[row]
            then multiset{if j.buildLeft then Output(j, b, row) else Output(j, row, b)} else multiset{}
  {
    hide Output;
    var p := Pairing(j);
    if j.buildLeft {
      assert PairWith(j, row)(b) == p(b, row);
    } else {
      assert PairWith(j, row)(b) == p(row, b);
    }
  }

  lemma RowPairs(j: Join, hash: int -> Hash, key: int, row: nat, b: nat)
    requires JoinOk(j) && row < |ProbeKeys(j)| && ProbeKeys(j)[row] == Int32(key) && b < |BuildKeys(j)|
    ensures Sum(BuildRow(BuildKeys(j), hash)(b), Gate(KeyIs(key), Single(Joined(j, row)))) == PairWith(j, row)(b)
  {
    hide Sum, Output;
    var g := Gate(KeyIs(key), Single(Joined(j, row)));
    var v := BuildKeys(j)[b];
    PairAt(j, row, b);
    if v.Int32? {
      var t := Tuple(v.i, b, hash(v.i));
      SumOne(t, g);
      assert g(t) == if v.i == key then multiset{Joined(j, row)(t)} else multiset{};
    } else {
      SumUnfold(BuildRow(BuildKeys(j), hash)(b), g);
    }
  }

  lemma TuplesHaveTheirHash(j: Join, hash: int -> Hash, ts: seq<Tuple>)
    requires JoinOk(j) && multiset(ts) == multiset(BuildTuples(j, hash))
    ensures forall i :: 0 <= i < |ts| ==> ts[i].hash == hash(ts[i].key)
  {
    forall i | 0 <= i < |ts| ensures ts[i].hash == hash(ts[i].key) {
      assert ts[i] in multiset(BuildTuples(j, hash));
      RowTuplesHaveTheirHash(WorkQueue.Range(0, |BuildKeys(j)|), BuildKeys(j), hash, ts[i]);
    }
  }

  lemma {:induction false} RowTuplesHaveTheirHash(rows: seq<nat>, keys: Column, hash: int -> Hash, t: Tuple)
    requires t in Concat(Map(rows, BuildRow(keys, hash)))
    ensures t.hash == hash(t.key)
  {
    if rows != [] && t !in BuildRow(keys, hash)(rows[0]) {
      assert Map(rows, BuildRow(keys, hash))[1..] == Map(rows[1..], BuildRow(keys, hash));
      RowTuplesHaveTheirHash(rows[1..], keys, hash, t);
    }
  }

  // The walks of partition p's chunks in the 32 collectors, one collector after the other
  // (BuildPhase.CollectedLists: a walk is what was consumed, filtered by partition).
  function PartitionList(gots: seq<seq<Tuple>>, hash: int -> Hash): nat -> seq<Tuple> {
    (p: nat) => Concat(Map(gots, Filtered(SlabAllocator.InPartition(p, hash))))
  }

  function PartitionLists(gots: seq<seq<Tuple>>, hash: int -> Hash): seq<seq<Tuple>> {
    Map(WorkQueue.Range(0, WORKERS), PartitionList(gots, hash))
  }

  ghost function Hot(hash: int -> Hash): (nat, Tuple) -> multiset<Tuple> {
    (p: nat, t: Tuple) => if PartitionOf(hash(t.key)) == p then multiset{t} else multiset{}
  }

  lemma {:induction false} OneHot(a: nat, b: nat, hash: int -> Hash, t: Tuple)
    ensures Sum(WorkQueue.Range(a, b), Down(Hot(hash), t)) ==
            if a <= PartitionOf(hash(t.key)) < b then multiset{t} else multiset{}
    decreases b - a
  {
    hide PartitionOf;
    if a < b {
      OneHot(a + 1, b, hash, t);
    }
  }

  lemma {:induction false} SumOfSingles<T>(s: seq<T>, f: T -> multiset<T>)
    requires forall i :: 0 <= i < |s| ==> f(s[i]) == multiset{s[i]}
    ensures Sum(s, f) == multiset(s)
  {
    if s != [] {
      SumOfSingles(s[1..], f);
      assert s == [s[0]] + s[1..];
    }
  }

  // Splitting by partition loses nothing.
  lemma PartitionListsKeepAll(gots: seq<seq<Tuple>>, hash: int -> Hash)
    ensures multiset(Concat(PartitionLists(gots, hash))) == multiset(Concat(gots))
  {
    hide Sum, Filter, Map, Concat, WorkQueue.Range, PartitionOf;
    var all := Concat(gots);
    var range := WorkQueue.Range(0, WORKERS);
    ConcatBag(PartitionLists(gots, hash));
    SumMap(range, PartitionList(gots, hash), Bag);
    forall i | 0 <= i < |range| ensures After(Bag, PartitionList(gots, hash))(range[i]) == RowSum(all, Hot(hash))(range[i]) {
      var p := range[i];
      var f := SlabAllocator.InPartition(p, hash);
      FilterOfConcat(gots, f);
      FilterSum(all, f);
      SumSame(all, Kept(f), Across(Hot(hash), p));
    }
    SumSame(range, After(Bag, PartitionList(gots, hash)), RowSum(all, Hot(hash)));
    SumExchange(range, all, Hot(hash));
    forall i | 0 <= i < |all| ensures ColSum(range, Hot(hash))(all[i]) == multiset{all[i]} {
      OneHot(0, WORKERS, hash, all[i]);
      SlabAllocator.PartitionBound(hash(all[i].key));
    }
    SumOfSingles(all, ColSum(range, Hot(hash)));
  }

  // How the three phases ran.
  datatype Schedule = Schedule(build: seq<nat>, merge: seq<nat>, probe: seq<nat>)

  ghost predicate ScheduleOk(s: seq<nat>) {
    forall i :: 0 <= i < |s| ==> s[i] < WORKERS
  }

  // What the code leaves open: the tuples that earlier joins left in the context's collectors,
  // the hash function, the bucket count 2^k, the tag table, what the fresh arrays hold, and the
  // schedule.
  datatype Setup = Setup(context: seq<seq<Tuple>>, hash: int -> Hash, k: Bits, tags: seq<bv16>, tuples: seq<Tuple>,
                         cursor: seq<nat>, schedule: Schedule)

  // con->reset(): every collector is empty again (SlabAllocator.TupleCollector.Reset).
  function Reset(context: seq<seq<Tuple>>): seq<seq<Tuple>> {
    seq(|context|, _ => [])
  }

  // The build workers, each with its own collector.
  function Start(collectors: seq<seq<Tuple>>): WorkQueue.Queue<Tuple> {
    WorkQueue.Queue(0, seq(|collectors|, w requires 0 <= w < |collectors| => WorkQueue.Worker(0, 0, false, collectors[w])))
  }

  ghost function BuildEnd(j: Join, e: Setup): WorkQueue.Queue<Tuple>
    requires JoinOk(j) && ScheduleOk(e.schedule.build) && |e.context| == WORKERS
  {
    WorkQueue.Run(Start(Reset(e.context)), |BuildKeys(j)|, BuildRow(BuildKeys(j), e.hash), e.schedule.build)
  }

  ghost function MergeInput(j: Join, e: Setup): MergePhase.Input
    requires JoinOk(j) && ScheduleOk(e.schedule.build) && |e.context| == WORKERS
  {
    MergePhase.Input(e.k, PartitionLists(Map(BuildEnd(j, e).workers, WorkQueue.Got), e.hash), e.tags)
  }

  ghost predicate SetupOk(j: Join, e: Setup)
    requires JoinOk(j)
  {
    && |e.context| == WORKERS && 5 <= e.k <= MOST_BITS && |e.tags| == TAGS
    && ScheduleOk(e.schedule.build) && ScheduleOk(e.schedule.merge) && ScheduleOk(e.schedule.probe)
    && WorkQueue.Finished(BuildEnd(j, e))
    && |e.tuples| == |MergePhase.All(MergeInput(j, e))| && |e.cursor| == Shl(1, e.k)
  }

  // The barrier after the build phase hands the merge phase a proper input.
  lemma BuildFeedsMerge(j: Join, e: Setup)
    requires JoinOk(j) && SetupOk(j, e)
    ensures MergePhase.InputOk(MergeInput(j, e))
    ensures multiset(MergePhase.All(MergeInput(j, e))) == multiset(BuildTuples(j, e.hash))
  {
    hide Sum, Filter, Map, Concat, WorkQueue.Range, PartitionOf, WorkQueue.Run;
    var keys := BuildKeys(j);
    var range := WorkQueue.Range(0, |keys|);
    var gots := Map(BuildEnd(j, e).workers, WorkQueue.Got);
    var f := BuildRow(keys, e.hash);
    assert Start(Reset(e.context)) == WorkQueue.Init(WORKERS);
    WorkQueue.FinishedRunHandlesEachRowOnce(WORKERS, |keys|, f, e.schedule.build);
    ConcatBag(Map(range, f));
    SumMap(range, f, Bag);
    SumSame(range, After(Bag, f), WorkQueue.YieldBag(f));
    PartitionListsKeepAll(gots, e.hash);
    BuildTuplesAreFew(range, keys, e.hash);
    RangeMember(0, |keys|);
    assert |multiset(BuildTuples(j, e.hash))| == |multiset(MergePhase.All(MergeInput(j, e)))|;
    PartitionListsArePartitioned(j, gots, e.hash);
  }

  lemma {:induction false} BuildTuplesAreFew(rows: seq<nat>, keys: Column, hash: int -> Hash)
    ensures |Concat(Map(rows, BuildRow(keys, hash)))| <= |rows|
  {
    if rows != [] {
      BuildTuplesAreFew(rows[1..], keys, hash);
      assert Map(rows, BuildRow(keys, hash))[1..] == Map(rows[1..], BuildRow(keys, hash));
    }
  }

  lemma PartitionListsArePartitioned(j: Join, gots: seq<seq<Tuple>>, hash: int -> Hash)
    requires JoinOk(j) && multiset(Concat(gots)) == multiset(BuildTuples(j, hash))
    ensures |PartitionLists(gots, hash)| == WORKERS
    ensures forall p, i :: 0 <= p < WORKERS && 0 <= i < |PartitionLists(gots, hash)[p]| ==>
              PartitionOf(PartitionLists(gots, hash)[p][i].hash) == p
  {
    hide Filter, Map, Concat, WorkQueue.Range, PartitionOf;
    RangeMember(0, WORKERS);
    TuplesHaveTheirHash(j, hash, Concat(gots));
    forall p, i | 0 <= p < WORKERS && 0 <= i < |PartitionLists(gots, hash)[p]|
      ensures PartitionOf(PartitionLists(gots, hash)[p][i].hash) == p
    {
      var f := SlabAllocator.InPartition(p, hash);
      FilterOfConcat(gots, f);
      FilterHolds(Concat(gots), f);
    }
  }

  ghost function MergeEnd(j: Join, e: Setup): MergePhase.State
    requires JoinOk(j) && SetupOk(j, e)
  {
    BuildFeedsMerge(j, e);
    var inp := MergeInput(j, e);
    MergePhase.Run(inp, MergePhase.Init(inp, e.tuples, e.cursor), e.schedule.merge)
  }

  ghost predicate MergeDone(j: Join, e: Setup)
    requires JoinOk(j) && SetupOk(j, e)
  {
    BuildFeedsMerge(j, e);
    MergePhase.Finished(MergeInput(j, e), MergeEnd(j, e))
  }

  ghost function ProbeEnd(j: Join, e: Setup): WorkQueue.Queue<Row>
    requires JoinOk(j) && SetupOk(j, e)
  {
    BuildFeedsMerge(j, e);
    var inp := MergeInput(j, e);
    var s := MergeEnd(j, e);
    var probe := ProbeRow(j, e.hash, MergePhase.Finalized(inp, s.directory), s.tuples, |MergePhase.All(inp)|, e.k, e.tags);
    WorkQueue.Run(WorkQueue.Init(WORKERS), |ProbeKeys(j)|, probe, e.schedule.probe)
  }

  // A run of run_unchained that went through: every worker of every phase has returned.
  ghost predicate Completed(j: Join, e: Setup) {
    JoinOk(j) && SetupOk(j, e) && MergeDone(j, e) && WorkQueue.Finished(ProbeEnd(j, e))
  }

  // merge_results: the workers' result rows one worker after the other.
  ghost function Result(j: Join, e: Setup): seq<Row>
    requires Completed(j, e)
  {
    WorkQueue.Gathered(ProbeEnd(j, e))
  }

  // Under every interleaving of all three phases, and whichever side is built, the result is
  // the nested-loop join.
  lemma JoinIsNestedLoop(j: Join, e: Setup)
    requires Completed(j, e)
    ensures multiset(Result(j, e)) == NestedLoop(j)
  {
    hide Sum, Filter, Map, Concat, WorkQueue.Range, WorkQueue.Run, MergePhase.Run, Output, Index;
    BuildFeedsMerge(j, e);
    var inp := MergeInput(j, e);
    var ts := MergePhase.All(inp);
    var s := MergeEnd(j, e);
    var directory := MergePhase.Finalized(inp, s.directory);
    MergePhase.MergeBuildsIndex(inp, e.tuples, e.cursor, e.schedule.merge);
    var probe := ProbeRow(j, e.hash, directory, s.tuples, |ts|, e.k, e.tags);
    WorkQueue.FinishedRunHandlesEachRowOnce(WORKERS, |ProbeKeys(j)|, probe, e.schedule.probe);
    var probeRows, buildRows := WorkQueue.Range(0, |ProbeKeys(j)|), WorkQueue.Range(0, |BuildKeys(j)|);
    RangeMember(0, |ProbeKeys(j)|);
    var total := if j.buildLeft then ColSum(buildRows, Pairing(j)) else RowSum(buildRows, Pairing(j));
    forall i | 0 <= i < |probeRows| ensures WorkQueue.YieldBag(probe)(probeRows[i]) == total(probeRows[i]) {
      var row := probeRows[i];
      ProbeRowIsPairings(j, e.hash, directory, s.tuples, ts, e.k, e.tags, row);
      SumSame(buildRows, PairWith(j, row), if j.buildLeft then Down(Pairing(j), row) else Across(Pairing(j), row));
    }
    SumSame(probeRows, WorkQueue.YieldBag(probe), total);
    SumExchange(WorkQueue.Range(0, j.leftRows), WorkQueue.Range(0, j.rightRows), Pairing(j));
  }

  // Whatever the hash function, the bucket count, the tags and the context, some schedule
  // brings the join to its end.
  lemma JoinCanComplete(j: Join, context: seq<seq<Tuple>>, hash: int -> Hash, k: Bits, tags: seq<bv16>)
    returns (e: Setup)
    requires JoinOk(j) && |context| == WORKERS && 5 <= k <= MOST_BITS && |tags| == TAGS
    ensures Completed(j, e) && e.context == context && e.hash == hash && e.k == k && e.tags == tags
  {
    hide WorkQueue.Run, MergePhase.Run, MergePhase.Inv, ProbeRow, BuildRow, PartitionLists, MergePhase.Finalized;
    var collectors := Start(Reset(context));
    var build := WorkQueue.CanFinish(collectors, |BuildKeys(j)|, BuildRow(BuildKeys(j), hash));
    e := Setup(context, hash, k, tags, [], [], Schedule(build, [], []));
    var n := |MergePhase.All(MergeInput(j, e))|;
    e := e.(tuples := seq(n, _ => Tuple(0, 0, 0)), cursor := seq(Shl(1, k), _ => 0));
    assert SetupOk(j, e);
    var inp := MergeInput(j, e);
    BuildFeedsMerge(j, e);
    MergePhase.InitIsInv(inp, e.tuples, e.cursor);
    var merge := MergePhase.CanFinish(inp, MergePhase.Init(inp, e.tuples, e.cursor));
    e := e.(schedule := Schedule(build, merge, []));
    assert SetupOk(j, e) && MergeInput(j, e) == inp;
    assert MergeDone(j, e);
    var s := MergeEnd(j, e);
    var probe := ProbeRow(j, hash, MergePhase.Finalized(inp, s.directory), s.tuples, |MergePhase.All(inp)|, k, tags);
    var probing := WorkQueue.CanFinish(WorkQueue.Init(WORKERS), |ProbeKeys(j)|, probe);
    var e' := e.(schedule := Schedule(build, merge, probing));
    assert SetupOk(j, e') && MergeInput(j, e') == inp;
    assert MergeEnd(j, e') == s;
    e := e';
  }
}
