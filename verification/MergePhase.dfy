// merge_phase (src/execute.cpp) as 32 workers stepping in any order over one directory, one
// cursor array and one tuple array. Worker p counts and tags the tuples of partition p, turns
// its own slots' counts into start positions, and scatters its tuples.
module MergePhase {
  import opened Bags
  import opened Directory
  import opened HashIndex

  const PARTITIONS: nat := 32

  // lists[p]: the tuples of partition p, in the order in which worker p walks the chunks.
  datatype Input = Input(k: Bits, lists: seq<seq<Tuple>>, tags: seq<bv16>)

  function All(inp: Input): seq<Tuple> { Concat(inp.lists) }

  ghost predicate InputOk(inp: Input) {
    && 5 <= inp.k <= MOST_BITS && |inp.lists| == PARTITIONS && |inp.tags| == TAGS && |All(inp)| < TWO48
    && forall p, i :: 0 <= p < PARTITIONS && 0 <= i < |inp.lists[p]| ==> PartitionOf(inp.lists[p][i].hash) == p
  }

  datatype State = State(directory: seq<Word>, tuples: seq<Tuple>, cursor: seq<nat>, pc: seq<nat>, cur: seq<nat>, failed: bool)

  // prefix[p]: how many tuples the partitions before p hold
  function Prefix(inp: Input, p: nat): nat
    requires p <= |inp.lists|
  {
    |Concat(inp.lists[..p])|
  }

  function Init(inp: Input, tuples: seq<Tuple>, cursor: seq<nat>): State
    requires |inp.lists| == PARTITIONS
  {
    State(seq(Shl(1, inp.k) + 1, _ => 0), tuples, cursor, seq(PARTITIONS, _ => 0),
          seq(PARTITIONS, p requires 0 <= p < PARTITIONS => Prefix(inp, p)), false)
  }

  ghost predicate Shaped(inp: Input, s: State) {
    && |s.directory| == Shl(1, inp.k) + 1 && |s.cursor| == Shl(1, inp.k) && |s.tuples| == |All(inp)|
    && |s.pc| == |s.cur| == PARTITIONS
  }

  function Slots(inp: Input, p: nat): nat {
    if FirstBucket(p, inp.k) <= FirstBucket(p + 1, inp.k) then FirstBucket(p + 1, inp.k) - FirstBucket(p, inp.k) else 0
  }

  // hash_map.count_and_tag(t)
  function StepCount(inp: Input, s: State, p: nat, t: Tuple): (s': State)
    requires Shaped(inp, s) && |inp.tags| == TAGS && p < PARTITIONS
    ensures Shaped(inp, s')
  {
    BucketBound(t.hash, inp.k);
    var b := BucketOf(t.hash, inp.k);
    s.(directory := s.directory[b := CountAndTagWord(s.directory[b], TagOf(inp.tags, t.hash))], pc := s.pc[p := s.pc[p] + 1])
  }

  // bucket_size = hash_map.prefix_sum(i, cur); write_cursor[i] = cur; cur += bucket_size
  function StepSum(inp: Input, s: State, p: nat, i: nat): (s': State)
    requires Shaped(inp, s) && p < PARTITIONS && i < Shl(1, inp.k)
    ensures Shaped(inp, s')
  {
    s.(directory := s.directory[i := PackEntry(s.cur[p], UnpackFilter(s.directory[i]))],
       cursor := s.cursor[i := s.cur[p]],
       cur := s.cur[p := s.cur[p] + UnpackStart(s.directory[i])],
       pc := s.pc[p := s.pc[p] + 1])
  }

  // pos = write_cursor[slot]++; hash_map.insert(t, pos), which throws when pos is out of bounds
  function StepPlace(inp: Input, s: State, p: nat, t: Tuple): (s': State)
    requires Shaped(inp, s) && p < PARTITIONS
    ensures Shaped(inp, s')
  {
    BucketBound(t.hash, inp.k);
    var b := BucketOf(t.hash, inp.k);
    var pos := s.cursor[b];
    var s' := s.(cursor := s.cursor[b := pos + 1], pc := s.pc[p := s.pc[p] + 1]);
    if pos < |s.tuples| then s'.(tuples := s.tuples[pos := t]) else s'.(failed := true)
  }

  ghost function Step(inp: Input, s: State, p: nat): (s': State)
    requires InputOk(inp) && Shaped(inp, s) && p < PARTITIONS
    ensures Shaped(inp, s')
  {
    var n, m, c := |inp.lists[p]|, Slots(inp, p), s.pc[p];
    if c < n then StepCount(inp, s, p, inp.lists[p][c])
    else if c < n + m then
      RangesFit(p, inp.k);
      StepSum(inp, s, p, FirstBucket(p, inp.k) + (c - n))
    else if c < n + m + n then StepPlace(inp, s, p, inp.lists[p][c - n - m])
    else s
  }

  lemma RangesFit(p: nat, k: Bits)
    requires 5 <= k <= MOST_BITS && p < PARTITIONS
    ensures FirstBucket(p, k) < FirstBucket(p + 1, k) <= Shl(1, k)
  {
    RangesTileDirectory(p, k);
    RangesInOrder(p + 1, PARTITIONS, k);
  }

  lemma RangesInOrder(p: nat, q: nat, k: Bits)
    requires 5 <= k <= MOST_BITS && q <= PARTITIONS
    ensures p <= q ==> FirstBucket(p, k) <= FirstBucket(q, k)
    decreases q
  {
    if p < q {
      RangesTileDirectory(q - 1, k);
      RangesInOrder(p, q - 1, k);
    }
  }

  function Min(a: nat, b: nat): nat { if a < b then a else b }

  // How far worker p is: tuples counted, slots summed, tuples placed.
  function Counted(inp: Input, p: nat, c: nat): (r: nat)
    requires p < |inp.lists|
    ensures r <= |inp.lists[p]|
  {
    Min(c, |inp.lists[p]|)
  }

  function Summed(inp: Input, p: nat, c: nat): nat
    requires p < |inp.lists|
  {
    if c <= |inp.lists[p]| then 0 else Min(c - |inp.lists[p]|, Slots(inp, p))
  }

  function Placed(inp: Input, p: nat, c: nat): (r: nat)
    requires p < |inp.lists|
    ensures r <= |inp.lists[p]|
  {
    if c <= |inp.lists[p]| + Slots(inp, p) then 0 else Min(c - |inp.lists[p]| - Slots(inp, p), |inp.lists[p]|)
  }

  ghost predicate Owns(inp: Input, p: nat, b: nat) {
    p < PARTITIONS && FirstBucket(p, inp.k) <= b < FirstBucket(p + 1, inp.k)
  }

  // Slot b of worker p, as far as p has come, whatever the others do.
  ghost predicate SlotOk(inp: Input, s: State, p: nat, b: nat)
    requires InputOk(inp) && Shaped(inp, s) && p < PARTITIONS && b < Shl(1, inp.k)
  {
    var c := s.pc[p];
    var seen := Bucket(inp.lists[p][..Counted(inp, p, c)], inp.k, b);
    var put := Bucket(inp.lists[p][..Placed(inp, p, c)], inp.k, b);
    if b < FirstBucket(p, inp.k) + Summed(inp, p, c) then
      && s.directory[b] == EntryOf(All(inp), inp.k, b, inp.tags)
      && s.cursor[b] == Below(All(inp), inp.k, b) + |put|
      && s.cursor[b] <= |s.tuples|
      && s.tuples[Below(All(inp), inp.k, b)..s.cursor[b]] == put
    else
      s.directory[b] == PackEntry(|seen|, OrTags(seen, inp.tags))
  }

  ghost predicate WorkerOk(inp: Input, s: State, p: nat)
    requires InputOk(inp) && Shaped(inp, s) && p < PARTITIONS
  {
    && s.pc[p] <= |inp.lists[p]| + Slots(inp, p) + |inp.lists[p]|
    && s.cur[p] == Below(All(inp), inp.k, FirstBucket(p, inp.k) + Summed(inp, p, s.pc[p]))
  }

  ghost predicate Inv(inp: Input, s: State)
    requires InputOk(inp)
  {
    && Shaped(inp, s) && !s.failed
    && (forall p :: 0 <= p < PARTITIONS ==> WorkerOk(inp, s, p))
    && (forall p, b :: 0 <= p < PARTITIONS && 0 <= b < Shl(1, inp.k) && Owns(inp, p, b) ==> SlotOk(inp, s, p, b))
  }

  lemma {:induction false} PartitionsOfConcat(lists: seq<seq<Tuple>>, first: nat)
    requires forall p, i :: 0 <= p < |lists| && 0 <= i < |lists[p]| ==> PartitionOf(lists[p][i].hash) == first + p
    ensures forall i :: 0 <= i < |Concat(lists)| ==> first <= PartitionOf(Concat(lists)[i].hash) < first + |lists|
  {
    if lists != [] {
      forall p, i | 0 <= p < |lists[1..]| && 0 <= i < |lists[1..][p]|
        ensures PartitionOf(lists[1..][p][i].hash) == first + 1 + p
      {
        assert lists[1..][p] == lists[p + 1];
      }
      PartitionsOfConcat(lists[1..], first + 1);
    }
  }

  // The tuples before partition p, of it, and after it.
  lemma SplitAt(inp: Input, p: nat) returns (before: seq<Tuple>, after: seq<Tuple>)
    requires InputOk(inp) && p < PARTITIONS
    ensures All(inp) == before + inp.lists[p] + after && |before| == Prefix(inp, p)
    ensures forall i :: 0 <= i < |before| ==> PartitionOf(before[i].hash) < p
    ensures forall i :: 0 <= i < |after| ==> PartitionOf(after[i].hash) > p
  {
    hide PartitionOf, Concat;
    var lower, upper := inp.lists[..p], inp.lists[p + 1..];
    before, after := Concat(lower), Concat(upper);
    assert inp.lists == lower + ([inp.lists[p]] + upper);
    ConcatAppend(lower, [inp.lists[p]] + upper);
    ConcatUnfold([inp.lists[p]] + upper);
    assert ([inp.lists[p]] + upper)[1..] == upper;
    assert before + (inp.lists[p] + after) == before + inp.lists[p] + after;
    PartitionsOfConcat(lower, 0);
    forall q, i | 0 <= q < |upper| && 0 <= i < |upper[q]| ensures PartitionOf(upper[q][i].hash) == p + 1 + q {
      assert upper[q] == inp.lists[p + 1 + q];
    }
    PartitionsOfConcat(upper, p + 1);
  }

  lemma OwnBucket(inp: Input, p: nat, b: nat)
    requires InputOk(inp) && Owns(inp, p, b)
    ensures Bucket(All(inp), inp.k, b) == Bucket(inp.lists[p], inp.k, b)
  {
    hide Filter, Concat, PartitionOf;
    var f := InBucket(inp.k, b);
    var before, after := SplitAt(inp, p);
    FilterConcat(before + inp.lists[p], after, f);
    FilterConcat(before, inp.lists[p], f);
    forall i | 0 <= i < |before| ensures !f(before[i]) {
      PartitionOwnsBuckets(before[i].hash, p, inp.k);
    }
    forall i | 0 <= i < |after| ensures !f(after[i]) {
      PartitionOwnsBuckets(after[i].hash, p + 1, inp.k);
    }
    FilterNone(before, f);
    FilterNone(after, f);
  }

  // The partition prefix sums are where the partitions' first buckets start.
  lemma PrefixIsBelow(inp: Input, p: nat)
    requires InputOk(inp) && p < PARTITIONS
    ensures Prefix(inp, p) == Below(All(inp), inp.k, FirstBucket(p, inp.k))
  {
    hide Filter, Concat, PartitionOf;
    var f := BelowBucket(inp.k, FirstBucket(p, inp.k));
    var before, after := SplitAt(inp, p);
    var rest := inp.lists[p] + after;
    assert All(inp) == before + rest;
    FilterConcat(before, rest, f);
    forall i | 0 <= i < |before| ensures f(before[i]) {
      PartitionOwnsBuckets(before[i].hash, p, inp.k);
    }
    forall i | 0 <= i < |rest| ensures !f(rest[i]) {
      PartitionOwnsBuckets(rest[i].hash, p, inp.k);
    }
    FilterAll(before, f);
    FilterNone(rest, f);
  }

  lemma OwnersDiffer(inp: Input, p: nat, q: nat, b: nat)
    requires InputOk(inp) && Owns(inp, p, b) && Owns(inp, q, b)
    ensures p == q
  {
    RangesInOrder(p + 1, q, inp.k);
    RangesInOrder(q + 1, p, inp.k);
  }

  // A slot that the step leaves alone stays as it was when its worker's progress reads the same.
  lemma OtherSlot(inp: Input, s: State, s': State, q: nat, b: nat)
    requires InputOk(inp) && Shaped(inp, s) && Shaped(inp, s') && q < PARTITIONS && b < Shl(1, inp.k)
    requires SlotOk(inp, s, q, b) && s'.pc[q] == s.pc[q]
    requires s'.directory[b] == s.directory[b] && s'.cursor[b] == s.cursor[b]
    requires s'.tuples == s.tuples
    ensures SlotOk(inp, s', q, b)
  {
    hide Filter, OrTags, PackEntry;
  }

  lemma BucketGrows(ts: seq<Tuple>, k: Bits, b: nat, i: nat, tags: seq<bv16>)
    requires i < |ts| && |tags| == TAGS
    ensures BucketOf(ts[i].hash, k) != b ==> Bucket(ts[..i + 1], k, b) == Bucket(ts[..i], k, b)
    ensures BucketOf(ts[i].hash, k) == b ==>
              && Bucket(ts[..i + 1], k, b) == Bucket(ts[..i], k, b) + [ts[i]]
              && OrTags(Bucket(ts[..i + 1], k, b), tags) == OrTags(Bucket(ts[..i], k, b), tags) | TagOf(tags, ts[i].hash)
    ensures |Bucket(ts[..i], k, b)| <= i
  {
    hide Filter, BucketOf, TagOf;
    FilterNext(ts, InBucket(k, b), i);
    FilterHolds(ts[..i], InBucket(k, b));
    OrTagsConcat(Bucket(ts[..i], k, b), [ts[i]], tags);
    assert OrTags([ts[i]], tags) == TagOf(tags, ts[i].hash) | OrTags([], tags);
  }

  lemma SizesFit(inp: Input, p: nat)
    requires InputOk(inp) && p < PARTITIONS
    ensures |inp.lists[p]| <= |All(inp)|
  {
    var before, after := SplitAt(inp, p);
  }

  lemma CountKeepsInv(inp: Input, s: State, p: nat)
    requires InputOk(inp) && Inv(inp, s) && p < PARTITIONS && s.pc[p] < |inp.lists[p]|
    ensures Inv(inp, StepCount(inp, s, p, inp.lists[p][s.pc[p]]))
  {
    hide Filter, OrTags, PackEntry, BucketOf, TagOf, CountAndTagWord, FirstBucket, PartitionOf;
    var c := s.pc[p];
    var t := inp.lists[p][c];
    var own := BucketOf(t.hash, inp.k);
    var s' := StepCount(inp, s, p, t);
    BucketBound(t.hash, inp.k);
    PartitionOwnsBuckets(t.hash, p, inp.k);
    SizesFit(inp, p);
    forall q, b | 0 <= q < PARTITIONS && 0 <= b < Shl(1, inp.k) && Owns(inp, q, b) ensures SlotOk(inp, s', q, b) {
      assert SlotOk(inp, s, q, b);
      if q != p {
        if b == own {
          OwnersDiffer(inp, p, q, b);
        }
        OtherSlot(inp, s, s', q, b);
      } else {
        BucketGrows(inp.lists[p], inp.k, b, c, inp.tags);
        var seen := Bucket(inp.lists[p][..c], inp.k, b);
        CountAndTag(|seen|, OrTags(seen, inp.tags), TagOf(inp.tags, t.hash));
      }
    }
    forall q | 0 <= q < PARTITIONS ensures WorkerOk(inp, s', q) {
      assert WorkerOk(inp, s, q);
    }
  }

  lemma SumKeepsInv(inp: Input, s: State, p: nat)
    requires InputOk(inp) && Inv(inp, s) && p < PARTITIONS
    requires |inp.lists[p]| <= s.pc[p] < |inp.lists[p]| + Slots(inp, p)
    ensures Inv(inp, Step(inp, s, p))
  {
    hide Filter, OrTags, PackEntry, BucketOf, FirstBucket, UnpackStart, UnpackFilter;
    RangesFit(p, inp.k);
    var own := FirstBucket(p, inp.k) + (s.pc[p] - |inp.lists[p]|);
    var s' := StepSum(inp, s, p, own);
    assert WorkerOk(inp, s, p) && SlotOk(inp, s, p, own);
    OwnBucket(inp, p, own);
    BelowNext(All(inp), inp.k, own);
    BelowNext(All(inp), inp.k, own + 1);
    assert inp.lists[p][..|inp.lists[p]|] == inp.lists[p];
    SizesFit(inp, p);
    FilterHolds(inp.lists[p], InBucket(inp.k, own));
    var seen := Bucket(inp.lists[p], inp.k, own);
    PackUnpack(|seen|, OrTags(seen, inp.tags));
    forall q, b | 0 <= q < PARTITIONS && 0 <= b < Shl(1, inp.k) && Owns(inp, q, b) ensures SlotOk(inp, s', q, b) {
      assert SlotOk(inp, s, q, b);
      if q != p {
        if b == own {
          OwnersDiffer(inp, p, q, b);
        }
        OtherSlot(inp, s, s', q, b);
      } else if b == own {
        assert Bucket(inp.lists[p][..0], inp.k, b) == [] by {
          FilterUnfold(inp.lists[p][..0], InBucket(inp.k, b));
        }
      }
    }
    forall q | 0 <= q < PARTITIONS ensures WorkerOk(inp, s', q) {
      assert WorkerOk(inp, s, q);
    }
  }

  lemma PutFits(inp: Input, q: nat, b: nat, j: nat)
    requires InputOk(inp) && Owns(inp, q, b) && j <= |inp.lists[q]|
    ensures Below(All(inp), inp.k, b) + |Bucket(inp.lists[q][..j], inp.k, b)| <= Below(All(inp), inp.k, b + 1) <= |All(inp)|
  {
    hide Filter;
    OwnBucket(inp, q, b);
    BelowNext(All(inp), inp.k, b);
    BelowNext(All(inp), inp.k, b + 1);
    assert inp.lists[q] == inp.lists[q][..j] + inp.lists[q][j..];
    FilterConcat(inp.lists[q][..j], inp.lists[q][j..], InBucket(inp.k, b));
  }

  // Writing at a position inside bucket `own` leaves every other slot's tuples alone.
  lemma SlotAfterPlace(inp: Input, s: State, s': State, q: nat, b: nat, own: nat, pos: nat, t: Tuple)
    requires InputOk(inp) && Shaped(inp, s) && Shaped(inp, s') && b < Shl(1, inp.k) && b != own
    requires Owns(inp, q, b) && SlotOk(inp, s, q, b)
    requires Below(All(inp), inp.k, own) <= pos < Below(All(inp), inp.k, own + 1) && pos < |s.tuples|
    requires s'.tuples == s.tuples[pos := t] && s'.directory == s.directory && s'.cursor[b] == s.cursor[b]
    requires Counted(inp, q, s'.pc[q]) == Counted(inp, q, s.pc[q])
             && Summed(inp, q, s'.pc[q]) == Summed(inp, q, s.pc[q])
    requires Bucket(inp.lists[q][..Placed(inp, q, s'.pc[q])], inp.k, b) ==
             Bucket(inp.lists[q][..Placed(inp, q, s.pc[q])], inp.k, b)
    ensures SlotOk(inp, s', q, b)
  {
    hide Filter, OrTags, PackEntry, Below, FirstBucket, EntryOf;
    PutFits(inp, q, b, Placed(inp, q, s.pc[q]));
    if b < own {
      BelowIsMonotone(All(inp), inp.k, b + 1, own);
    } else {
      BelowIsMonotone(All(inp), inp.k, own + 1, b);
    }
    if s.cursor[b] <= |s.tuples| && Below(All(inp), inp.k, b) <= s.cursor[b] {
      assert pos < Below(All(inp), inp.k, b) || s.cursor[b] <= pos || s.cursor[b] > Below(All(inp), inp.k, b + 1);
      if s.cursor[b] <= Below(All(inp), inp.k, b + 1) {
        assert s'.tuples[Below(All(inp), inp.k, b)..s.cursor[b]] == s.tuples[Below(All(inp), inp.k, b)..s.cursor[b]];
      }
    }
  }

  lemma PlaceKeepsInv(inp: Input, s: State, p: nat)
    requires InputOk(inp) && Inv(inp, s) && p < PARTITIONS
    requires |inp.lists[p]| + Slots(inp, p) <= s.pc[p] < |inp.lists[p]| + Slots(inp, p) + |inp.lists[p]|
    ensures Inv(inp, Step(inp, s, p))
  {
    hide Filter, OrTags, PackEntry, BucketOf, FirstBucket, PartitionOf, Below, EntryOf;
    var j := s.pc[p] - |inp.lists[p]| - Slots(inp, p);
    var t := inp.lists[p][j];
    var own := BucketOf(t.hash, inp.k);
    BucketBound(t.hash, inp.k);
    PartitionOwnsBuckets(t.hash, p, inp.k);
    RangesFit(p, inp.k);
    var s' := StepPlace(inp, s, p, t);
    var pos := s.cursor[own];
    assert SlotOk(inp, s, p, own);
    BucketGrows(inp.lists[p], inp.k, own, j, inp.tags);
    PutFits(inp, p, own, j + 1);
    forall q, b | 0 <= q < PARTITIONS && 0 <= b < Shl(1, inp.k) && Owns(inp, q, b) ensures SlotOk(inp, s', q, b) {
      assert SlotOk(inp, s, q, b);
      if b == own {
        OwnersDiffer(inp, p, q, b);
        PlacedSlot(inp, s, p, own, j);
      } else {
        if q == p {
          BucketGrows(inp.lists[p], inp.k, b, j, inp.tags);
        }
        SlotAfterPlace(inp, s, s', q, b, own, pos, t);
      }
    }
    forall q | 0 <= q < PARTITIONS ensures WorkerOk(inp, s', q) {
      assert WorkerOk(inp, s, q);
    }
  }

  lemma PlacedSlot(inp: Input, s: State, p: nat, own: nat, j: nat)
    requires InputOk(inp) && Shaped(inp, s) && p < PARTITIONS && own < Shl(1, inp.k) && Owns(inp, p, own)
    requires j < |inp.lists[p]| && s.pc[p] == |inp.lists[p]| + Slots(inp, p) + j
    requires BucketOf(inp.lists[p][j].hash, inp.k) == own && SlotOk(inp, s, p, own)
    requires s.cursor[own] < |s.tuples|
    ensures SlotOk(inp, StepPlace(inp, s, p, inp.lists[p][j]), p, own)
  {
    hide Filter, OrTags, PackEntry, BucketOf, FirstBucket, PartitionOf, Below, EntryOf;
    var t := inp.lists[p][j];
    BucketBound(t.hash, inp.k);
    BucketGrows(inp.lists[p], inp.k, own, j, inp.tags);
    RangesFit(p, inp.k);
    var lo, pos := Below(All(inp), inp.k, own), s.cursor[own];
    assert s.tuples[pos := t][lo..pos + 1] == s.tuples[lo..pos] + [t];
  }

  lemma StepKeepsInv(inp: Input, s: State, p: nat)
    requires InputOk(inp) && Inv(inp, s) && p < PARTITIONS
    ensures Inv(inp, Step(inp, s, p))
  {
    hide Inv;
    assert Shaped(inp, s) by { InvShaped(inp, s); }
    var n, m, c := |inp.lists[p]|, Slots(inp, p), s.pc[p];
    if c < n {
      CountKeepsInv(inp, s, p);
    } else if c < n + m {
      SumKeepsInv(inp, s, p);
    } else if c < n + m + n {
      PlaceKeepsInv(inp, s, p);
    }
  }

  lemma InvShaped(inp: Input, s: State)
    requires InputOk(inp) && Inv(inp, s)
    ensures Shaped(inp, s)
  {
  }

  ghost function Run(inp: Input, s: State, schedule: seq<nat>): (s': State)
    requires InputOk(inp) && Shaped(inp, s)
    requires forall i :: 0 <= i < |schedule| ==> schedule[i] < PARTITIONS
    ensures Shaped(inp, s')
    decreases |schedule|
  {
    if schedule == [] then s else Run(inp, Step(inp, s, schedule[0]), schedule[1..])
  }

  ghost predicate Finished(inp: Input, s: State)
    requires InputOk(inp) && Shaped(inp, s)
  {
    forall p :: 0 <= p < PARTITIONS ==> s.pc[p] == |inp.lists[p]| + Slots(inp, p) + |inp.lists[p]|
  }

  lemma InitIsInv(inp: Input, tuples: seq<Tuple>, cursor: seq<nat>)
    requires InputOk(inp) && |tuples| == |All(inp)| && |cursor| == Shl(1, inp.k)
    ensures Inv(inp, Init(inp, tuples, cursor))
  {
    hide Filter, PartitionOf, FirstBucket, Concat;
    var s := Init(inp, tuples, cursor);
    forall p | 0 <= p < PARTITIONS ensures WorkerOk(inp, s, p) {
      PrefixIsBelow(inp, p);
    }
    forall p, b | 0 <= p < PARTITIONS && 0 <= b < Shl(1, inp.k) && Owns(inp, p, b) ensures SlotOk(inp, s, p, b) {
      FilterUnfold(inp.lists[p][..0], InBucket(inp.k, b));
      EmptyEntry(inp.tags);
    }
  }

  lemma EmptyEntry(tags: seq<bv16>)
    requires |tags| == TAGS
    ensures PackEntry(0, OrTags([], tags)) == 0
  {
  }

  lemma {:induction false} RunKeepsInv(inp: Input, s: State, schedule: seq<nat>)
    requires InputOk(inp) && Inv(inp, s)
    requires forall i :: 0 <= i < |schedule| ==> schedule[i] < PARTITIONS
    ensures Inv(inp, Run(inp, s, schedule))
    decreases |schedule|
  {
    if schedule != [] {
      hide Inv;
      assert Shaped(inp, s) by { InvShaped(inp, s); }
      StepKeepsInv(inp, s, schedule[0]);
      RunKeepsInv(inp, Step(inp, s, schedule[0]), schedule[1..]);
    }
  }

  lemma EverySlotIsOwned(inp: Input, b: nat) returns (p: nat)
    requires InputOk(inp) && b < Shl(1, inp.k)
    ensures p < PARTITIONS && Owns(inp, p, b)
  {
    p := Shr(b, inp.k - 5);
    ShlShl(1, 5, inp.k - 5);
    ShlIs32(1);
    ShrIsFloor(b, 32, inp.k - 5);
    FirstBucketIs(p, inp.k);
    FirstBucketIs(p + 1, inp.k);
    ShrIsFloor(b, p, inp.k - 5);
    ShrIsFloor(b, p + 1, inp.k - 5);
  }

  // finalize_directory()
  function Finalized(inp: Input, directory: seq<Word>): (d: seq<Word>)
    requires |directory| == Shl(1, inp.k) + 1
    ensures |d| == |directory|
  {
    directory[Shl(1, inp.k) := PackEntry(|All(inp)|, 0)]
  }

  lemma FinishedSlot(inp: Input, s: State, b: nat)
    requires InputOk(inp) && Inv(inp, s) && Finished(inp, s) && b < Shl(1, inp.k)
    ensures s.directory[b] == EntryOf(All(inp), inp.k, b, inp.tags) && BucketHolds(s.tuples, All(inp), inp.k, b)
  {
    hide Filter, OrTags, PackEntry, Concat, FirstBucket, EntryOf;
    var p := EverySlotIsOwned(inp, b);
    assert SlotOk(inp, s, p, b);
    assert inp.lists[p][..|inp.lists[p]|] == inp.lists[p];
    OwnBucket(inp, p, b);
    BelowNext(All(inp), inp.k, b);
  }

  // Every interleaving of the merge workers builds the same index, and no insert is out of bounds.
  lemma MergeBuildsIndex(inp: Input, tuples: seq<Tuple>, cursor: seq<nat>, schedule: seq<nat>)
    requires InputOk(inp) && |tuples| == |All(inp)| && |cursor| == Shl(1, inp.k)
    requires forall i :: 0 <= i < |schedule| ==> schedule[i] < PARTITIONS
    requires Finished(inp, Run(inp, Init(inp, tuples, cursor), schedule))
    ensures var s := Run(inp, Init(inp, tuples, cursor), schedule);
            !s.failed && Index(Finalized(inp, s.directory), s.tuples, All(inp), inp.k, inp.tags)
  {
    hide Filter, OrTags, PackEntry, Concat, FirstBucket, Run, EntryOf, BucketHolds;
    InitIsInv(inp, tuples, cursor);
    RunKeepsInv(inp, Init(inp, tuples, cursor), schedule);
    var s := Run(inp, Init(inp, tuples, cursor), schedule);
    forall b | 0 <= b < Shl(1, inp.k)
      ensures s.directory[b] == EntryOf(All(inp), inp.k, b, inp.tags) && BucketHolds(s.tuples, All(inp), inp.k, b)
    {
      FinishedSlot(inp, s, b);
    }
  }

  lemma StepAdvances(inp: Input, s: State, p: nat)
    requires InputOk(inp) && Shaped(inp, s) && p < PARTITIONS
    requires s.pc[p] < |inp.lists[p]| + Slots(inp, p) + |inp.lists[p]|
    ensures Step(inp, s, p).pc == s.pc[p := s.pc[p] + 1]
  {
    hide PackEntry, CountAndTagWord, FirstBucket, TagOf, BucketOf;
    RangesFit(p, inp.k);
  }

  // How many steps the workers from p on still have.
  ghost function Left(inp: Input, pc: seq<nat>, p: nat): nat
    requires |inp.lists| == |pc| == PARTITIONS && p <= PARTITIONS
    decreases PARTITIONS - p
  {
    if p == PARTITIONS then 0
    else
      var total := |inp.lists[p]| + Slots(inp, p) + |inp.lists[p]|;
      (if pc[p] < total then total - pc[p] else 0) + Left(inp, pc, p + 1)
  }

  lemma {:induction false} LeftGetsLess(inp: Input, pc: seq<nat>, p: nat, q: nat)
    requires |inp.lists| == |pc| == PARTITIONS && p < PARTITIONS && q <= PARTITIONS
    requires pc[p] < |inp.lists[p]| + Slots(inp, p) + |inp.lists[p]|
    ensures Left(inp, pc[p := pc[p] + 1], q) == Left(inp, pc, q) - if q <= p then 1 else 0
    decreases PARTITIONS - q
  {
    hide Slots;
    if q < PARTITIONS {
      LeftGetsLess(inp, pc, p, q + 1);
    }
  }

  // From every reachable state some schedule finishes the merge phase.
  lemma {:induction false} CanFinish(inp: Input, s: State) returns (schedule: seq<nat>)
    requires InputOk(inp) && Inv(inp, s)
    ensures Shaped(inp, s) && forall i :: 0 <= i < |schedule| ==> schedule[i] < PARTITIONS
    ensures Finished(inp, Run(inp, s, schedule))
    decreases Shaped(inp, s), if Shaped(inp, s) then Left(inp, s.pc, 0) else 0
  {
    hide Step, Slots, Left;
    schedule := [];
    InvShaped(inp, s);
    StepsAreCounted(inp, s);
    if !Finished(inp, s) {
      var p :| 0 <= p < PARTITIONS && s.pc[p] != |inp.lists[p]| + Slots(inp, p) + |inp.lists[p]|;
      StepAdvances(inp, s, p);
      StepKeepsInv(inp, s, p);
      LeftGetsLess(inp, s.pc, p, 0);
      var rest := CanFinish(inp, Step(inp, s, p));
      schedule := [p] + rest;
      assert schedule[1..] == rest;
    }
  }

  lemma StepsAreCounted(inp: Input, s: State)
    requires InputOk(inp) && Inv(inp, s)
    ensures forall p :: 0 <= p < PARTITIONS ==> s.pc[p] <= |inp.lists[p]| + Slots(inp, p) + |inp.lists[p]|
  {
    hide Slots, SlotOk;
    forall p | 0 <= p < PARTITIONS ensures s.pc[p] <= |inp.lists[p]| + Slots(inp, p) + |inp.lists[p]| {
      assert WorkerOk(inp, s, p);
    }
  }
}
