// The two ways to build a HashMapUnchained, driven through its methods: emplace and
// create_directory (src/hashmap_unchained.hpp), and the 32 merge workers of run_unchained
// (src/execute.cpp), which step in the order of a schedule.
module ParallelBuild {
  import opened Bags
  import opened Directory
  import opened HashIndex
  import opened MergePhase
  import opened UnchainedMap

  // What the workers share besides the map, and how far each is.
  class MergeRun {
    const table: HashMapUnchained
    const inp: Input
    var cursor: seq<nat>
    var pc: seq<nat>
    var cur: seq<nat>
    var failed: bool

    // The abstract state that the map and these fields stand for.
    ghost function Abstract(): State
      reads this, table
    {
      State(table.directory, table.tuples, cursor, pc, cur, failed)
    }

    ghost predicate Valid()
      reads this, table
    {
      && InputOk(inp) && table.Valid() && table.bits == inp.k && table.tags == inp.tags
      && Shaped(inp, Abstract())
    }

    constructor (table: HashMapUnchained, inp: Input, cursor: seq<nat>, prefix: seq<nat>)
      requires InputOk(inp) && table.Valid() && table.bits == inp.k && table.tags == inp.tags
      requires table.directory == seq(Shl(1, inp.k) + 1, _ => 0) && |table.tuples| == |All(inp)| && |cursor| == Shl(1, inp.k)
      requires |prefix| == PARTITIONS && forall p :: 0 <= p < PARTITIONS ==> prefix[p] == Prefix(inp, p)
      ensures Valid() && this.table == table && this.inp == inp && Abstract() == Init(inp, table.tuples, cursor)
    {
      this.table, this.inp, this.cursor := table, inp, cursor;
      pc, cur, failed := seq(PARTITIONS, _ => 0), prefix, false;
    }

    method CountNext(p: nat, t: Tuple)
      requires Valid() && p < PARTITIONS
      modifies this`pc, table
      ensures Valid() && Abstract() == StepCount(inp, old(Abstract()), p, t)
    {
      hide CountAndTagWord, TagOf, BucketOf, InputOk;
      table.CountAndTag(t);
      pc := pc[p := pc[p] + 1];
    }

    method SumNext(p: nat, i: nat)
      requires Valid() && p < PARTITIONS && i < Shl(1, inp.k)
      modifies this`pc, this`cur, this`cursor, table
      ensures Valid() && Abstract() == StepSum(inp, old(Abstract()), p, i)
    {
      hide PackEntry, UnpackStart, UnpackFilter, InputOk;
      var bucketSize := table.PrefixSum(i, cur[p]);
      cursor := cursor[i := cur[p]];
      cur := cur[p := cur[p] + bucketSize];
      pc := pc[p := pc[p] + 1];
    }

    method PlaceNext(p: nat, t: Tuple)
      requires Valid() && p < PARTITIONS
      modifies this`pc, this`cursor, this`failed, table
      ensures Valid() && Abstract() == StepPlace(inp, old(Abstract()), p, t)
    {
      hide BucketOf, InputOk;
      var slot := table.BucketIndexFromHash(t.hash);
      var pos := cursor[slot];
      cursor := cursor[slot := pos + 1];
      var ok := table.Insert(t, pos);
      failed := failed || !ok;
      pc := pc[p := pc[p] + 1];
    }

    // One step of worker p: count and tag a tuple, sum up a slot, or place a tuple.
    method Step(p: nat)
      requires Valid() && p < PARTITIONS
      modifies this, table
      ensures Valid() && Abstract() == MergePhase.Step(inp, old(Abstract()), p)
    {
      hide StepCount, StepSum, StepPlace, FirstBucket;
      var n, m, c := |inp.lists[p]|, Slots(inp, p), pc[p];
      RangesFit(p, inp.k);
      if c < n {
        CountNext(p, inp.lists[p][c]);
      } else if c < n + m {
        SumNext(p, FirstBucket(p, inp.k) + (c - n));
      } else if c < n + m + n {
        PlaceNext(p, inp.lists[p][c - n - m]);
      }
    }

    // The workers step in the order of the schedule.
    method Play(schedule: seq<nat>)
      requires Valid() && forall i :: 0 <= i < |schedule| ==> schedule[i] < PARTITIONS
      modifies this, table
      ensures Valid() && Abstract() == Run(inp, old(Abstract()), schedule)
    {
      hide InputOk, Shaped, MergePhase.Step;
      ghost var whole := Run(inp, Abstract(), schedule);
      assert schedule[0..] == schedule;
      for i := 0 to |schedule|
        invariant Valid() && Run(inp, Abstract(), schedule[i..]) == whole
      {
        assert schedule[i..][0] == schedule[i] && schedule[i..][1..] == schedule[i + 1..];
        Step(schedule[i]);
      }
      assert schedule[|schedule|..] == [];
    }
  }

  // The partition counts and their prefix sums.
  method PrefixSums(inp: Input) returns (prefix: seq<nat>, total: nat)
    requires InputOk(inp)
    ensures |prefix| == PARTITIONS && total == |All(inp)|
    ensures forall p :: 0 <= p < PARTITIONS ==> prefix[p] == Prefix(inp, p)
  {
    hide Concat, PartitionOf;
    prefix, total := [], 0;
    assert inp.lists[..0] == [];
    ConcatUnfold(inp.lists[..0]);
    for p := 0 to PARTITIONS
      invariant |prefix| == p && total == |Concat(inp.lists[..p])|
      invariant forall q :: 0 <= q < p ==> prefix[q] == Prefix(inp, q)
    {
      prefix := prefix + [total];
      assert inp.lists[..p + 1] == inp.lists[..p] + [inp.lists[p]];
      ConcatSnoc(inp.lists[..p], inp.lists[p]);
      total := total + |inp.lists[p]|;
    }
    assert inp.lists[..PARTITIONS] == inp.lists;
  }

  lemma BitsOfBuckets(a: nat, k: nat)
    requires Shl(1, k) <= Shl(1, a) && (a > 0 ==> Shl(1, a - 1) < Shl(1, k))
    ensures a == k
  {
    if a < k {
      ShlGrows(a, k);
    } else if a > k && a - 1 > k {
      ShlGrows(k, a - 1);
    }
  }

  // The state in which the merge workers start.
  function Blank(inp: Input): State
    requires InputOk(inp)
  {
    Init(inp, Blanks(|All(inp)|), seq(Shl(1, inp.k), _ => 0))
  }

  lemma BlankIsInv(inp: Input)
    requires InputOk(inp)
    ensures Inv(inp, Blank(inp)) && Shaped(inp, Blank(inp))
  {
    hide InputOk, Inv, Shaped, Init;
    InitIsInv(inp, Blanks(|All(inp)|), seq(Shl(1, inp.k), _ => 0));
    InvShaped(inp, Blank(inp));
  }

  // A schedule under which every merge worker finishes.
  ghost predicate Finishes(inp: Input, schedule: seq<nat>)
    requires InputOk(inp)
  {
    BlankIsInv(inp);
    && (forall i :: 0 <= i < |schedule| ==> schedule[i] < PARTITIONS)
    && Finished(inp, Run(inp, Blank(inp), schedule))
  }

  // What the merge workers leave in the map.
  ghost predicate Merged(inp: Input, schedule: seq<nat>, directory: seq<Word>, tuples: seq<Tuple>)
    requires InputOk(inp) && Finishes(inp, schedule)
  {
    var s := (BlankIsInv(inp); Run(inp, Blank(inp), schedule));
    directory == Finalized(inp, s.directory) && tuples == s.tuples
  }

  // The merge part of run_unchained: under every schedule that lets the workers finish it
  // leaves an index over the collected tuples.
  method MergeTuples(inp: Input, hash: int -> Hash, schedule: seq<nat>) returns (table: HashMapUnchained)
    requires InputOk(inp) && Finishes(inp, schedule)
    ensures fresh(table) && table.Valid() && table.hash == hash && table.bits == inp.k && table.tags == inp.tags
    ensures table.tupleCount == |All(inp)| && Index(table.directory, table.tuples, All(inp), inp.k, inp.tags)
    ensures Merged(inp, schedule, table.directory, table.tuples)
  {
    hide Index, Inv, Finished, InputOk, All, Prefix;
    InputFacts(inp);
    BlankIsInv(inp);
    var prefix, total := PrefixSums(inp);
    table := new HashMapUnchained(Shl(1, inp.k), hash, inp.tags);
    BitsOfBuckets(table.bits, inp.k);
    table.Resize(total);
    var run := new MergeRun(table, inp, seq(table.bucketCnt, _ => 0), prefix);
    assert [] + Blanks(total) == Blanks(total);
    assert run.Abstract() == Blank(inp);
    run.Play(schedule);
    table.SetTupleCount(total);
    table.FinalizeDirectory();
    MergeBuildsIndex(inp, Blanks(total), seq(Shl(1, inp.k), _ => 0), schedule);
  }

  lemma InputFacts(inp: Input)
    requires InputOk(inp)
    ensures |inp.tags| == TAGS && 5 <= inp.k <= MOST_BITS && |inp.lists| == PARTITIONS && 0 < Shl(1, inp.k) <= Shl(1, 64)
  {
    ShlGrows(inp.k, 64);
    ShlPositive(inp.k);
  }

  function TupleOf(hash: int -> Hash): ((int, nat)) -> Tuple {
    (pair: (int, nat)) => Tuple(pair.0, pair.1, hash(pair.0))
  }

  // The sequential use of the map: emplace every pair, then create the directory.
  method BuildSequentially(pairs: seq<(int, nat)>, buckets: nat, hash: int -> Hash, tags: seq<bv16>)
    returns (table: HashMapUnchained)
    requires |tags| == TAGS && buckets <= Shl(1, 64) && |pairs| < TWO48
    ensures fresh(table) && table.Valid() && table.hash == hash && table.tags == tags && table.tupleCount == |pairs|
    ensures Index(table.directory, table.tuples, Map(pairs, TupleOf(hash)), table.bits, tags)
    ensures var wanted := if buckets == 0 then 1 else buckets;
            wanted <= Shl(1, table.bits) && (table.bits > 0 ==> Shl(1, table.bits - 1) < wanted)
  {
    hide Index, Map;
    table := new HashMapUnchained(buckets, hash, tags);
    ShlPositive(table.bits);
    assert pairs[..0] == [] && Map(pairs[..0], TupleOf(hash)) == [];
    for i := 0 to |pairs|
      invariant fresh(table) && table.Valid() && table.hash == hash && table.tags == tags && table.tupleCount == i
      invariant table.tuples == Map(pairs[..i], TupleOf(hash))
    {
      MapNext(pairs, TupleOf(hash), i);
      table.Emplace(pairs[i].0, pairs[i].1);
    }
    assert pairs[..|pairs|] == pairs;
    table.CreateDirectory();
  }

  // Both builds over the same tuples give the same directory, and both find every tuple of a key.
  method BuildsAgree(pairs: seq<(int, nat)>, inp: Input, hash: int -> Hash, schedule: seq<nat>, key: int)
    returns (d1: seq<Word>, d2: seq<Word>, found1: seq<Tuple>, found2: seq<Tuple>)
    requires InputOk(inp) && Finishes(inp, schedule) && |pairs| < TWO48
    requires multiset(All(inp)) == multiset(Map(pairs, TupleOf(hash)))
    ensures d1 == d2
    ensures multiset(Filter(found1, KeyIs(key))) == multiset(Filter(found2, KeyIs(key)))
    ensures multiset(Filter(found1, KeyIs(key))) == multiset(Filter(Map(pairs, TupleOf(hash)), KeyIs(key)))
  {
    hide Index, Finishes, InputOk, All, Filter, Map, LookupRange;
    InputFacts(inp);
    ghost var ts := Map(pairs, TupleOf(hash));
    SameBagSameFacts(ts, All(inp), hash, key);
    var sequential := BuildSequentially(pairs, Shl(1, inp.k), hash, inp.tags);
    BitsOfBuckets(sequential.bits, inp.k);
    var parallel := MergeTuples(inp, hash, schedule);
    IndexesAgree(sequential.directory, sequential.tuples, ts, parallel.directory, parallel.tuples, All(inp), inp.k, inp.tags);
    d1, d2 := sequential.directory, parallel.directory;
    var lo, hi := sequential.Lookup(key, ts);
    found1 := sequential.tuples[lo..hi];
    lo, hi := parallel.Lookup(key, All(inp));
    found2 := parallel.tuples[lo..hi];
    FilterPermute(ts, All(inp), KeyIs(key));
  }

  lemma SameBagSameFacts(ts: seq<Tuple>, us: seq<Tuple>, hash: int -> Hash, key: int)
    requires multiset(us) == multiset(ts) && forall i :: 0 <= i < |ts| ==> ts[i].hash == hash(ts[i].key)
    ensures |us| == |ts| && forall i :: 0 <= i < |us| && us[i].key == key ==> us[i].hash == hash(key)
  {
    assert |multiset(us)| == |us| && |multiset(ts)| == |ts|;
    forall i | 0 <= i < |us| ensures us[i].hash == hash(us[i].key) {
      assert us[i] in multiset(ts);
    }
  }
}
