// When the displacement loop of emplace_no_rehash (src/hashmap_cuckoo.hpp) finds a free slot.
// Both tables are seen as one sequence of slots, in which each node may sit at its two ends.
module CuckooWalk {
  import opened OpenAddressing
  import opened Options

  datatype Result<N> = Stored(slots: seq<Option<N>>) | Dropped(slots: seq<Option<N>>, node: N)

  ghost predicate Proper<N(!new)>(slots: seq<Option<N>>, ends: N -> (nat, nat)) {
    && (forall n :: ends(n).0 < |slots| && ends(n).1 < |slots| && ends(n).0 != ends(n).1)
    && (forall s :: 0 <= s < |slots| && slots[s].Some? ==> s == ends(slots[s].value).0 || s == ends(slots[s].value).1)
  }

  function Other<N>(ends: N -> (nat, nat), n: N, s: nat): nat {
    if s == ends(n).0 then ends(n).1 else ends(n).0
  }

  // n takes slot s, and the node that was there, if any, goes to its other slot.
  ghost function Push<N(!new)>(slots: seq<Option<N>>, ends: N -> (nat, nat), n: N, s: nat, left: nat): Result<N>
    requires Proper(slots, ends) && (s == ends(n).0 || s == ends(n).1)
    decreases left
  {
    if left == 0 then Dropped(slots, n)
    else if slots[s].None? then Stored(slots[s := Some(n)])
    else Push(slots[s := Some(n)], ends, slots[s].value, Other(ends, slots[s].value, s), left - 1)
  }

  // The slots a walk from p[0] meets: each is taken by a node whose other slot is the next.
  ghost predicate Track<N>(slots: seq<Option<N>>, ends: N -> (nat, nat), p: seq<nat>) {
    && |p| > 0
    && (forall i :: 0 <= i < |p| ==> p[i] < |slots|)
    && (forall i, j :: 0 <= i < j < |p| ==> p[i] != p[j])
    && (forall i, j :: 0 <= i < j < |p| && j == i + 1 ==> Linked(slots, ends, p[i], p[j]))
  }

  ghost predicate Linked<N>(slots: seq<Option<N>>, ends: N -> (nat, nat), s: nat, next: nat)
    requires s < |slots|
  {
    slots[s].Some? && Other(ends, slots[s].value, s) == next
  }

  ghost function SlotsOf(p: seq<nat>): set<nat> {
    set s | s in p
  }

  function Last(p: seq<nat>): nat
    requires |p| > 0
  {
    p[|p| - 1]
  }

  ghost predicate Taken<N>(slots: seq<Option<N>>, p: seq<nat>) {
    forall i :: 0 <= i < |p| ==> p[i] < |slots| && slots[p[i]].Some?
  }

  // The slot after the last one of a track.
  ghost function Next<N>(slots: seq<Option<N>>, ends: N -> (nat, nat), p: seq<nat>): nat
    requires |p| > 0 && Last(p) < |slots| && slots[Last(p)].Some?
  {
    Other(ends, slots[Last(p)].value, Last(p))
  }

  // The table after n has been pushed along p.
  ghost function Shift<N>(slots: seq<Option<N>>, n: N, p: seq<nat>): (r: seq<Option<N>>)
    requires Taken(slots, p)
    ensures |r| == |slots|
    decreases |p|
  {
    if p == [] then slots
    else Shift(slots[p[0] := Some(n)], slots[p[0]].value, p[1..])
  }

  lemma {:induction false} ShiftAt<N>(slots: seq<Option<N>>, n: N, p: seq<nat>)
    requires Taken(slots, p) && forall i, j :: 0 <= i < j < |p| ==> p[i] != p[j]
    ensures p != [] ==> Shift(slots, n, p)[p[0]] == Some(n)
    ensures forall i, j :: 0 <= i < j < |p| && j == i + 1 ==> Shift(slots, n, p)[p[j]] == slots[p[i]]
    ensures forall s :: 0 <= s < |slots| && s !in p ==> Shift(slots, n, p)[s] == slots[s]
    decreases |p|
  {
    if p != [] {
      var rest, moved := p[1..], slots[p[0] := Some(n)];
      ShiftAt(moved, slots[p[0]].value, rest);
      assert p[0] !in rest;
      forall i, j | 0 <= i < j < |p| && j == i + 1 ensures Shift(slots, n, p)[p[j]] == slots[p[i]] {
        assert p[j] == rest[i];
        assert i > 0 ==> p[i] == rest[i - 1];
      }
    }
  }

  lemma ShiftIsTaken<N>(slots: seq<Option<N>>, n: N, p: seq<nat>)
    requires Taken(slots, p) && forall i, j :: 0 <= i < j < |p| ==> p[i] != p[j]
    ensures Taken(Shift(slots, n, p), p)
  {
    hide Shift;
    ShiftAt(slots, n, p);
    forall i | 0 <= i < |p| ensures Shift(slots, n, p)[p[i]].Some? {
      if i > 0 {
        assert Shift(slots, n, p)[p[i]] == slots[p[i - 1]];
      }
    }
  }

  // A walk along taken slots: with too few kicks it stops on the way, else it goes on with
  // the last node.
  lemma {:induction false} PushAlong<N(!new)>(slots: seq<Option<N>>, ends: N -> (nat, nat), n: N, p: seq<nat>, left: nat)
    requires Proper(slots, ends) && Track(slots, ends, p) && Taken(slots, p) && (p[0] == ends(n).0 || p[0] == ends(n).1)
    ensures left < |p| ==> Push(slots, ends, n, p[0], left).Dropped?
    ensures var last := slots[Last(p)].value;
            && Proper(Shift(slots, n, p), ends) && (Next(slots, ends, p) == ends(last).0 || Next(slots, ends, p) == ends(last).1)
            && (left >= |p| ==> Push(slots, ends, n, p[0], left)
                                == Push(Shift(slots, n, p), ends, last, Next(slots, ends, p), left - |p|))
    decreases |p|
  {
    hide Proper, Linked, Other;
    LastStays(slots, ends, n, p);
    var moved, m := slots[p[0] := Some(n)], slots[p[0]].value;
    if |p| == 1 {
      assert Shift(moved, m, p[1..]) == moved;
    } else {
      RestIsTrack(slots, ends, n, p);
      PushAlong(moved, ends, m, p[1..], if left > 0 then left - 1 else 0);
    }
  }

  lemma RestIsTrack<N(!new)>(slots: seq<Option<N>>, ends: N -> (nat, nat), n: N, p: seq<nat>)
    requires Track(slots, ends, p) && Taken(slots, p) && |p| > 1
    ensures var moved, rest := slots[p[0] := Some(n)], p[1..];
            && Track(moved, ends, rest) && Taken(moved, rest) && rest[0] == Other(ends, slots[p[0]].value, p[0])
            && Last(rest) == Last(p) && moved[Last(p)] == slots[Last(p)]
  {
    assert Linked(slots, ends, p[0], p[1]);
  }

  lemma LastStays<N(!new)>(slots: seq<Option<N>>, ends: N -> (nat, nat), n: N, p: seq<nat>)
    requires Proper(slots, ends) && Track(slots, ends, p) && Taken(slots, p) && (p[0] == ends(n).0 || p[0] == ends(n).1)
    ensures var last, m := slots[Last(p)].value, slots[p[0]].value;
            && p[0] < |slots| && Last(p) < |slots| && Proper(slots[p[0] := Some(n)], ends)
            && (Next(slots, ends, p) == ends(last).0 || Next(slots, ends, p) == ends(last).1)
            && (Other(ends, m, p[0]) == ends(m).0 || Other(ends, m, p[0]) == ends(m).1)
  {
  }

  lemma TrackIsTaken<N>(slots: seq<Option<N>>, ends: N -> (nat, nat), p: seq<nat>)
    requires Track(slots, ends, p)
    ensures Taken(slots, p[..|p| - 1]) && (slots[Last(p)].Some? ==> Taken(slots, p))
  {
    forall i | 0 <= i < |p| - 1 ensures slots[p[i]].Some? {
      assert Linked(slots, ends, p[i], p[i + 1]);
    }
  }

  // A walk that ends in a free slot stores after as many kicks as it has slots.
  lemma PushToFree<N(!new)>(slots: seq<Option<N>>, ends: N -> (nat, nat), n: N, p: seq<nat>, left: nat)
    requires Proper(slots, ends) && Track(slots, ends, p) && slots[Last(p)].None?
    requires p[0] == ends(n).0 || p[0] == ends(n).1
    ensures Push(slots, ends, n, p[0], left).Stored? <==> |p| <= left
  {
    var way := p[..|p| - 1];
    TrackIsTaken(slots, ends, p);
    if way != [] {
      PushAlong(slots, ends, n, way, left);
      ShiftAt(slots, n, way);
      assert Next(slots, ends, way) == Last(p) && Last(p) !in way;
    }
  }

  ghost predicate Inside<N>(slot: Option<N>, ends: N -> (nat, nat), c: set<nat>) {
    slot.Some? && ends(slot.value).0 in c && ends(slot.value).1 in c
  }

  ghost predicate Closed<N>(slots: seq<Option<N>>, ends: N -> (nat, nat), c: set<nat>) {
    && (forall s :: s in c ==> s < |slots|)
    && (forall s {:trigger slots[s]} :: 0 <= s < |slots| && s in c ==> Inside(slots[s], ends, c))
  }

  // Both slots of n lie in a set of slots that is full of nodes with both slots in the set.
  ghost predicate Jammed<N(!new)>(slots: seq<Option<N>>, ends: N -> (nat, nat), n: N) {
    exists c: set<nat> :: Closed(slots, ends, c) && ends(n).0 in c && ends(n).1 in c
  }

  lemma {:induction false} ClosedNeverStores<N(!new)>(slots: seq<Option<N>>, ends: N -> (nat, nat), n: N, s: nat, c: set<nat>,
                                                      left: nat)
    requires Proper(slots, ends) && Closed(slots, ends, c) && ends(n).0 in c && ends(n).1 in c
    requires s == ends(n).0 || s == ends(n).1
    ensures Push(slots, ends, n, s, left).Dropped?
    decreases left
  {
    if left > 0 {
      ClosedNeverStores(slots[s := Some(n)], ends, slots[s].value, Other(ends, slots[s].value, s), c, left - 1);
    }
  }

  lemma {:induction false} TrackFits(p: seq<nat>, bound: nat)
    requires (forall i :: 0 <= i < |p| ==> p[i] < bound) && (forall i, j :: 0 <= i < j < |p| ==> p[i] != p[j])
    ensures |p| <= bound
  {
    SlotsBelow(SlotsOf(p), bound);
    CountDistinct(p);
  }

  lemma {:induction false} CountDistinct(p: seq<nat>)
    requires forall i, j :: 0 <= i < j < |p| ==> p[i] != p[j]
    ensures |SlotsOf(p)| == |p|
  {
    if p != [] {
      CountDistinct(p[1..]);
      assert p == [p[0]] + p[1..] && p[0] !in p[1..];
      assert SlotsOf(p) == SlotsOf(p[1..]) + {p[0]};
    }
  }

  lemma {:induction false} SlotsBelow(slots: set<nat>, bound: nat)
    requires forall s :: s in slots ==> s < bound
    ensures |slots| <= bound
  {
    if bound == 0 {
      assert slots == {};
    } else {
      SlotsBelow(slots - {bound - 1}, bound - 1);
    }
  }

  // The walk of the table as it stands, up to a free slot or to one met before.
  ghost function Walk<N(!new)>(slots: seq<Option<N>>, ends: N -> (nat, nat), p: seq<nat>): (q: seq<nat>)
    requires Proper(slots, ends) && Track(slots, ends, p)
    ensures Track(slots, ends, q) && q[0] == p[0] && (slots[Last(q)].None? || Next(slots, ends, q) in q)
    decreases |slots| - |p|
  {
    if slots[Last(p)].None? || Next(slots, ends, p) in p then p
    else
      TrackFits(p + [Next(slots, ends, p)], |slots|);
      Walk(slots, ends, p + [Next(slots, ends, p)])
  }

  ghost function WalkFrom<N(!new)>(slots: seq<Option<N>>, ends: N -> (nat, nat), s: nat): (q: seq<nat>)
    requires Proper(slots, ends) && s < |slots|
    ensures Track(slots, ends, q) && q[0] == s && (slots[Last(q)].None? || Next(slots, ends, q) in q)
  {
    Walk(slots, ends, [s])
  }

  ghost function IndexOf(p: seq<nat>, s: nat): (i: nat)
    requires s in p
    ensures i < |p| && p[i] == s
  {
    if p[0] == s then 0 else IndexOf(p[1..], s) + 1
  }

  // How many kicks an insert needs. When the walk from its first slot runs into itself, the
  // nodes go back to where they were, up to the new one, which then goes to its second slot.
  ghost function KicksNeeded<N(!new)>(slots: seq<Option<N>>, ends: N -> (nat, nat), n: N): Option<nat>
    requires Proper(slots, ends)
  {
    var p := WalkFrom(slots, ends, ends(n).0);
    var q := WalkFrom(slots, ends, ends(n).1);
    if slots[Last(p)].None? then Some(|p|)
    else if slots[Last(q)].None? then Some(|p| + IndexOf(p, Next(slots, ends, p)) + 1 + |q|)
    else None
  }

  lemma ClosedWalk<N(!new)>(slots: seq<Option<N>>, ends: N -> (nat, nat), p: seq<nat>)
    requires Proper(slots, ends) && Track(slots, ends, p) && slots[Last(p)].Some? && Next(slots, ends, p) in p
    ensures Closed(slots, ends, SlotsOf(p)) && Taken(slots, p)
  {
    hide Inside, Track;
    TrackIsTaken(slots, ends, p);
    forall s | s in p ensures s < |slots| && Inside(slots[s], ends, SlotsOf(p)) {
      StaysInside(slots, ends, p, s);
    }
  }

  lemma StaysInside<N(!new)>(slots: seq<Option<N>>, ends: N -> (nat, nat), p: seq<nat>, s: nat)
    requires Proper(slots, ends) && Track(slots, ends, p) && Taken(slots, p) && Next(slots, ends, p) in p && s in p
    ensures s < |slots| && Inside(slots[s], ends, SlotsOf(p))
  {
    var i :| 0 <= i < |p| && p[i] == s;
    if i < |p| - 1 {
      assert Linked(slots, ends, p[i], p[i + 1]);
      assert p[i + 1] in p;
    }
  }

  // A walk that ends in a free slot meets no closed set.
  lemma {:induction false} ApartFromClosed<N(!new)>(slots: seq<Option<N>>, ends: N -> (nat, nat), q: seq<nat>, c: set<nat>,
                                                    i: nat)
    requires Proper(slots, ends) && Track(slots, ends, q) && slots[Last(q)].None? && Closed(slots, ends, c) && i < |q|
    ensures q[i] !in c
    decreases |q| - i
  {
    if i < |q| - 1 {
      ApartFromClosed(slots, ends, q, c, i + 1);
    }
  }

  // The nodes pushed along a closing walk p go back from where it closes.
  ghost function WayBack(p: seq<nat>, c: nat): (q: seq<nat>)
    requires c < |p|
  {
    seq(c + 1, i requires 0 <= i <= c => p[c - i])
  }

  lemma PushRound<N(!new)>(slots: seq<Option<N>>, ends: N -> (nat, nat), n: N, p: seq<nat>, left: nat)
    returns (back: seq<Option<N>>)
    requires Proper(slots, ends) && Track(slots, ends, p) && slots[Last(p)].Some? && Next(slots, ends, p) in p
    requires p[0] == ends(n).0
    ensures |back| == |slots| && Proper(back, ends) && forall s :: 0 <= s < |slots| && s !in p ==> back[s] == slots[s]
    ensures var round := |p| + IndexOf(p, Next(slots, ends, p)) + 1;
            && (left < round ==> Push(slots, ends, n, p[0], left).Dropped?)
            && (left >= round ==> Push(slots, ends, n, p[0], left) == Push(back, ends, n, ends(n).1, left - round))
  {
    hide Shift, Linked, Proper, Push, Closed;
    ClosedWalk(slots, ends, p);
    PushAlong(slots, ends, n, p, left);
    ShiftAt(slots, n, p);
    var c, x := IndexOf(p, Next(slots, ends, p)), slots[Last(p)].value;
    var there, q := Shift(slots, n, p), WayBack(p, c);
    BackIsTrack(slots, ends, n, p, c);
    PushAlong(there, ends, x, q, if left >= |p| then left - |p| else 0);
    ShiftAt(there, x, q);
    back := Shift(there, x, q);
    assert Last(q) == p[0];
  }

  lemma LinkTurned<N(!new)>(slots: seq<Option<N>>, ends: N -> (nat, nat), n: N, p: seq<nat>, i: nat)
    requires Proper(slots, ends) && Track(slots, ends, p) && Taken(slots, p) && i + 1 < |p|
    ensures Linked(Shift(slots, n, p), ends, p[i + 1], p[i])
  {
    hide Shift;
    ShiftAt(slots, n, p);
    assert Linked(slots, ends, p[i], p[i + 1]);
  }

  lemma WayBackRuns(p: seq<nat>, c: nat)
    requires c < |p| && forall i, j :: 0 <= i < j < |p| ==> p[i] != p[j]
    ensures forall i, j :: 0 <= i < j <= c ==> WayBack(p, c)[i] != WayBack(p, c)[j]
    ensures forall i :: 0 <= i <= c ==> WayBack(p, c)[i] in p
  {
  }

  lemma BackIsTaken<N>(slots: seq<Option<N>>, n: N, p: seq<nat>, c: nat)
    requires Taken(slots, p) && c < |p| && forall i, j :: 0 <= i < j < |p| ==> p[i] != p[j]
    ensures Taken(Shift(slots, n, p), WayBack(p, c))
  {
    hide Shift;
    ShiftIsTaken(slots, n, p);
  }

  lemma BackIsTrack<N(!new)>(slots: seq<Option<N>>, ends: N -> (nat, nat), n: N, p: seq<nat>, c: nat)
    requires Proper(slots, ends) && Track(slots, ends, p) && Taken(slots, p) && c < |p|
    ensures var there := Shift(slots, n, p);
            Track(there, ends, WayBack(p, c)) && Taken(there, WayBack(p, c)) && there[p[0]] == Some(n)
    ensures forall i :: 0 <= i <= c ==> WayBack(p, c)[i] in p
  {
    hide Shift, Proper, Linked;
    ShiftAt(slots, n, p);
    BackIsTaken(slots, n, p, c);
    WayBackRuns(p, c);
    var there, q := Shift(slots, n, p), WayBack(p, c);
    forall i, j | 0 <= i < j < |q| && j == i + 1 ensures Linked(there, ends, q[i], q[j]) {
      LinkTurned(slots, ends, n, p, c - j);
    }
  }

  lemma EndsFit<N(!new)>(slots: seq<Option<N>>, ends: N -> (nat, nat), n: N)
    requires Proper(slots, ends)
    ensures ends(n).0 < |slots| && ends(n).1 < |slots| && ends(n).0 != ends(n).1
  {
  }

  // The loop stores if and only if it may kick as often as the insert needs.
  lemma StoresWhenEnough<N(!new)>(slots: seq<Option<N>>, ends: N -> (nat, nat), n: N, left: nat)
    requires Proper(slots, ends)
    ensures Push(slots, ends, n, ends(n).0, left).Stored? <==>
            KicksNeeded(slots, ends, n).Some? && KicksNeeded(slots, ends, n).value <= left
  {
    hide WalkFrom, Closed, Push, Proper, Linked;
    EndsFit(slots, ends, n);
    var p := WalkFrom(slots, ends, ends(n).0);
    var q := WalkFrom(slots, ends, ends(n).1);
    if slots[Last(p)].None? {
      PushToFree(slots, ends, n, p, left);
    } else if slots[Last(q)].None? {
      var back := PushRound(slots, ends, n, p, left);
      var round := |p| + IndexOf(p, Next(slots, ends, p)) + 1;
      ClosedWalk(slots, ends, p);
      FreeElsewhere(slots, back, ends, p, q);
      if left >= round {
        PushToFree(back, ends, n, q, left - round);
      }
    } else {
      BothClosed(slots, ends, n, p, q);
      var c :| Closed(slots, ends, c) && ends(n).0 in c && ends(n).1 in c;
      ClosedNeverStores(slots, ends, n, ends(n).0, c, left);
    }
  }

  lemma FreeElsewhere<N(!new)>(slots: seq<Option<N>>, back: seq<Option<N>>, ends: N -> (nat, nat), p: seq<nat>, q: seq<nat>)
    requires Proper(slots, ends) && Closed(slots, ends, SlotsOf(p)) && Track(slots, ends, q) && slots[Last(q)].None?
    requires |back| == |slots| && forall s :: 0 <= s < |slots| && s !in p ==> back[s] == slots[s]
    ensures Track(back, ends, q) && back[Last(q)].None? && forall i :: 0 <= i < |q| ==> q[i] !in p
  {
    forall i | 0 <= i < |q| ensures q[i] !in p && back[q[i]] == slots[q[i]] {
      ApartFromClosed(slots, ends, q, SlotsOf(p), i);
    }
  }

  lemma ClosedUnion<N>(slots: seq<Option<N>>, ends: N -> (nat, nat), c: set<nat>, d: set<nat>)
    requires Closed(slots, ends, c) && Closed(slots, ends, d)
    ensures Closed(slots, ends, c + d)
  {
  }

  lemma BothClosed<N(!new)>(slots: seq<Option<N>>, ends: N -> (nat, nat), n: N, p: seq<nat>, q: seq<nat>)
    requires Proper(slots, ends) && Track(slots, ends, p) && Track(slots, ends, q)
    requires p[0] == ends(n).0 && slots[Last(p)].Some? && Next(slots, ends, p) in p
    requires q[0] == ends(n).1 && slots[Last(q)].Some? && Next(slots, ends, q) in q
    ensures Jammed(slots, ends, n)
  {
    hide Track, Proper, Closed, WalkFrom;
    ClosedWalk(slots, ends, p);
    ClosedWalk(slots, ends, q);
    ClosedUnion(slots, ends, SlotsOf(p), SlotsOf(q));
  }

  // No number of kicks is enough if and only if the new node is jammed.
  lemma JammedNeedsForever<N(!new)>(slots: seq<Option<N>>, ends: N -> (nat, nat), n: N)
    requires Proper(slots, ends)
    ensures Jammed(slots, ends, n) <==> KicksNeeded(slots, ends, n).None?
  {
    var p := WalkFrom(slots, ends, ends(n).0);
    var q := WalkFrom(slots, ends, ends(n).1);
    if slots[Last(p)].None? || slots[Last(q)].None? {
      forall c: set<nat> | Closed(slots, ends, c) ensures ends(n).0 !in c || ends(n).1 !in c {
        if slots[Last(p)].None? {
          ApartFromClosed(slots, ends, p, c, 0);
        } else {
          ApartFromClosed(slots, ends, q, c, 0);
        }
      }
    } else {
      BothClosed(slots, ends, n, p, q);
    }
  }

  // The nodes met on the way bound the kicks.
  lemma KicksBound<N(!new), U>(slots: seq<Option<N>>, ends: N -> (nat, nat), n: N, view: N -> U)
    requires Proper(slots, ends)
    ensures KicksNeeded(slots, ends, n).Some? ==> KicksNeeded(slots, ends, n).value <= 2 * |Items(slots, view)| + 1
  {
    hide WalkFrom, Items, Closed, Proper, Linked;
    EndsFit(slots, ends, n);
    var p := WalkFrom(slots, ends, ends(n).0);
    var q := WalkFrom(slots, ends, ends(n).1);
    if slots[Last(p)].None? {
      TrackIsTaken(slots, ends, p);
      TakenCount(slots, p[..|p| - 1], view);
    } else if slots[Last(q)].None? {
      ClosedWalk(slots, ends, p);
      FreeElsewhere(slots, slots, ends, p, q);
      TrackIsTaken(slots, ends, q);
      TakenCount(slots, p + q[..|q| - 1], view);
    }
  }

  lemma {:induction false} TakenCount<N, U>(slots: seq<Option<N>>, p: seq<nat>, view: N -> U)
    requires Taken(slots, p) && forall i, j :: 0 <= i < j < |p| ==> p[i] != p[j]
    ensures |p| <= |Items(slots, view)|
    decreases |p|
  {
    hide Items;
    if p != [] {
      ItemsUpdate(slots, view, p[0], None);
      var rest := slots[p[0] := None];
      assert Items(rest, view) + multiset{view(slots[p[0]].value)} == Items(slots, view);
      assert |Items(rest, view) + multiset{view(slots[p[0]].value)}| == |Items(rest, view)| + 1;
      TakenCount(rest, p[1..], view);
    }
  }
}
