// Merge workers do not disturb each other: in every reachable state the next steps of two
// workers touch different directory slots, cursors and tuple positions, so they commute.
module Interference {
  import opened Bags
  import opened Directory
  import opened HashIndex
  import opened MergePhase

  ghost predicate Active(inp: Input, s: State, p: nat)
    requires InputOk(inp) && Shaped(inp, s) && p < PARTITIONS
  {
    s.pc[p] < |inp.lists[p]| + Slots(inp, p) + |inp.lists[p]|
  }

  ghost predicate Placing(inp: Input, s: State, p: nat)
    requires InputOk(inp) && Shaped(inp, s) && p < PARTITIONS
  {
    Active(inp, s, p) && s.pc[p] >= |inp.lists[p]| + Slots(inp, p)
  }

  // The directory slot and cursor that worker p's next step reads and writes.
  ghost function NextSlot(inp: Input, s: State, p: nat): (b: nat)
    requires InputOk(inp) && Shaped(inp, s) && p < PARTITIONS && Active(inp, s, p)
    ensures b < Shl(1, inp.k) && Owns(inp, p, b)
  {
    var n, m, c := |inp.lists[p]|, Slots(inp, p), s.pc[p];
    RangesFit(p, inp.k);
    if c < n then
      BucketBound(inp.lists[p][c].hash, inp.k);
      PartitionOwnsBuckets(inp.lists[p][c].hash, p, inp.k);
      BucketOf(inp.lists[p][c].hash, inp.k)
    else if c < n + m then FirstBucket(p, inp.k) + (c - n)
    else
      BucketBound(inp.lists[p][c - n - m].hash, inp.k);
      PartitionOwnsBuckets(inp.lists[p][c - n - m].hash, p, inp.k);
      BucketOf(inp.lists[p][c - n - m].hash, inp.k)
  }

  lemma SlotsDiffer(inp: Input, s: State, p: nat, q: nat)
    requires InputOk(inp) && Shaped(inp, s) && p < PARTITIONS && q < PARTITIONS && p != q && Active(inp, s, p)
             && Active(inp, s, q)
    ensures NextSlot(inp, s, p) != NextSlot(inp, s, q)
  {
    hide NextSlot;
    if NextSlot(inp, s, p) == NextSlot(inp, s, q) {
      OwnersDiffer(inp, p, q, NextSlot(inp, s, p));
    }
  }

  // A placing worker writes inside the bucket of its slot.
  lemma PositionInBucket(inp: Input, s: State, p: nat)
    requires InputOk(inp) && Inv(inp, s) && p < PARTITIONS && Placing(inp, s, p)
    ensures var b := NextSlot(inp, s, p);
            Below(All(inp), inp.k, b) <= s.cursor[b] < Below(All(inp), inp.k, b + 1) <= |s.tuples|
  {
    hide Filter, OrTags, PackEntry, BucketOf, FirstBucket, PartitionOf, Below, EntryOf, NextSlot;
    var j := s.pc[p] - |inp.lists[p]| - Slots(inp, p);
    var b := NextSlot(inp, s, p);
    PlacingSlot(inp, s, p);
    RangesFit(p, inp.k);
    assert SlotOk(inp, s, p, b);
    BucketGrows(inp.lists[p], inp.k, b, j, inp.tags);
    PutFits(inp, p, b, j + 1);
  }

  lemma PlacingSlot(inp: Input, s: State, p: nat)
    requires InputOk(inp) && Shaped(inp, s) && p < PARTITIONS && Placing(inp, s, p)
    ensures NextSlot(inp, s, p) == BucketOf(inp.lists[p][s.pc[p] - |inp.lists[p]| - Slots(inp, p)].hash, inp.k)
  {
  }

  lemma PositionsDiffer(inp: Input, s: State, p: nat, q: nat)
    requires InputOk(inp) && Inv(inp, s) && p < PARTITIONS && q < PARTITIONS && p != q && Placing(inp, s, p)
             && Placing(inp, s, q)
    ensures s.cursor[NextSlot(inp, s, p)] != s.cursor[NextSlot(inp, s, q)]
  {
    hide NextSlot, Below, Inv, Shaped;
    InvShaped(inp, s);
    SlotsDiffer(inp, s, p, q);
    PositionInBucket(inp, s, p);
    PositionInBucket(inp, s, q);
    var b, c := NextSlot(inp, s, p), NextSlot(inp, s, q);
    if b < c {
      BelowIsMonotone(All(inp), inp.k, b + 1, c);
    } else {
      BelowIsMonotone(All(inp), inp.k, c + 1, b);
    }
  }

  lemma UpdatesCommute<T>(s: seq<T>, i: nat, x: T, j: nat, y: T)
    requires i < |s| && j < |s| && i != j
    ensures s[i := x][j := y] == s[j := y][i := x]
  {
  }

  // What a step does: one directory entry, one cursor, the worker's counters, perhaps a tuple.
  datatype Effect = Effect(entry: Word, cursor: nat, cur: nat, put: seq<Tuple>)

  ghost function EffectOf(inp: Input, p: nat, c: nat, entry: Word, cursor: nat, cur: nat): Effect
    requires InputOk(inp) && p < PARTITIONS
  {
    var n, m := |inp.lists[p]|, Slots(inp, p);
    if c < n then Effect(CountAndTagWord(entry, TagOf(inp.tags, inp.lists[p][c].hash)), cursor, cur, [])
    else if c < n + m then Effect(PackEntry(cur, UnpackFilter(entry)), cur, cur + UnpackStart(entry), [])
    else if c < n + m + n then Effect(entry, cursor + 1, cur, [inp.lists[p][c - n - m]])
    else Effect(entry, cursor, cur, [])
  }

  ghost function Apply(s: State, p: nat, b: nat, e: Effect): State
    requires p < |s.pc| == |s.cur| && b < |s.directory| && b < |s.cursor|
  {
    var pos := s.cursor[b];
    State(s.directory[b := e.entry],
          if e.put != [] && pos < |s.tuples| then s.tuples[pos := e.put[0]] else s.tuples,
          s.cursor[b := e.cursor], s.pc[p := s.pc[p] + 1], s.cur[p := e.cur],
          s.failed || (e.put != [] && pos >= |s.tuples|))
  }

  lemma StepIsApply(inp: Input, s: State, p: nat)
    requires InputOk(inp) && Shaped(inp, s) && p < PARTITIONS && Active(inp, s, p)
    ensures var b := NextSlot(inp, s, p);
            Step(inp, s, p) == Apply(s, p, b, EffectOf(inp, p, s.pc[p], s.directory[b], s.cursor[b], s.cur[p]))
  {
    hide PackEntry, CountAndTagWord, FirstBucket, TagOf, BucketOf, UnpackStart, UnpackFilter;
    RangesFit(p, inp.k);
  }

  // A step of q leaves p's slot, cursor and counters as they are.
  lemma OtherStepKeeps(inp: Input, s: State, p: nat, q: nat)
    requires InputOk(inp) && Shaped(inp, s) && p < PARTITIONS && q < PARTITIONS && p != q && Active(inp, s, p)
             && Active(inp, s, q)
    ensures var s', b := Step(inp, s, q), NextSlot(inp, s, p);
            && Active(inp, s', p) && NextSlot(inp, s', p) == b
            && s'.pc[p] == s.pc[p] && s'.cur[p] == s.cur[p] && s'.directory[b] == s.directory[b] && s'.cursor[b] == s.cursor[b]
  {
    hide Step, EffectOf, FirstBucket, BucketOf, Slots;
    SlotsDiffer(inp, s, p, q);
    StepIsApply(inp, s, q);
  }

  lemma ApplyCommutes(s: State, p: nat, b: nat, e: Effect, q: nat, c: nat, f: Effect)
    requires p < |s.pc| == |s.cur| && b < |s.directory| && b < |s.cursor| && q < |s.pc| && c < |s.directory|
             && c < |s.cursor|
    requires p != q && b != c && (e.put != [] && f.put != [] ==> s.cursor[b] != s.cursor[c])
    ensures Apply(Apply(s, p, b, e), q, c, f) == Apply(Apply(s, q, c, f), p, b, e)
  {
    UpdatesCommute(s.directory, b, e.entry, c, f.entry);
    UpdatesCommute(s.cursor, b, e.cursor, c, f.cursor);
    UpdatesCommute(s.pc, p, s.pc[p] + 1, q, s.pc[q] + 1);
    UpdatesCommute(s.cur, p, e.cur, q, f.cur);
    if e.put != [] && f.put != [] && s.cursor[b] < |s.tuples| && s.cursor[c] < |s.tuples| {
      UpdatesCommute(s.tuples, s.cursor[b], e.put[0], s.cursor[c], f.put[0]);
    }
  }

  // In every reachable state the order of two workers' next steps does not matter.
  lemma StepsCommute(inp: Input, s: State, p: nat, q: nat)
    requires InputOk(inp) && Inv(inp, s) && p < PARTITIONS && q < PARTITIONS && p != q
    requires Active(inp, s, p) && Active(inp, s, q)
    ensures Step(inp, Step(inp, s, p), q) == Step(inp, Step(inp, s, q), p)
  {
    hide Inv, Step, NextSlot, Apply, Slots;
    InvShaped(inp, s);
    var b, c := NextSlot(inp, s, p), NextSlot(inp, s, q);
    var e := EffectOf(inp, p, s.pc[p], s.directory[b], s.cursor[b], s.cur[p]);
    var f := EffectOf(inp, q, s.pc[q], s.directory[c], s.cursor[c], s.cur[q]);
    SlotsDiffer(inp, s, p, q);
    if e.put != [] && f.put != [] {
      PositionsDiffer(inp, s, p, q);
    }
    StepIsApply(inp, s, p);
    StepIsApply(inp, s, q);
    OtherStepKeeps(inp, s, p, q);
    OtherStepKeeps(inp, s, q, p);
    StepIsApply(inp, Step(inp, s, q), p);
    StepIsApply(inp, Step(inp, s, p), q);
    ApplyCommutes(s, p, b, e, q, c, f);
  }
}
