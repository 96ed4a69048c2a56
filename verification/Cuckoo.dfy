// src/hashmap_cuckoo.hpp. Kick is the displacement loop of emplace_no_rehash as a function;
// the method runs the loop and is proved against it.
module Cuckoo {
  import opened Bags
  import opened OpenAddressing
  import opened Options

  const MAX_KICKS: nat := 512

  datatype Node<K, V> = Node(key: K, value: V)

  function Pair<K, V>(n: Node<K, V>): (K, V) { (n.key, n.value) }

  datatype Tables<K, V> = Tables(first: seq<Option<Node<K, V>>>, second: seq<Option<Node<K, V>>>)

  // Stored: `last` is the node that found a free slot.
  datatype Outcome<K, V> =
    | Stored(tables: Tables<K, V>, last: Option<Node<K, V>>)
    | Dropped(tables: Tables<K, V>, node: Node<K, V>)

  ghost predicate Placed<K, V>(slots: seq<Option<Node<K, V>>>, h: K -> nat) {
    forall i :: 0 <= i < |slots| && slots[i].Some? ==> h(slots[i].value.key) % |slots| == i
  }

  ghost predicate TablesOk<K, V>(t: Tables<K, V>, h1: K -> nat, h2: K -> nat) {
    0 < |t.first| == |t.second| && Placed(t.first, h1) && Placed(t.second, h2)
  }

  ghost function Contents<K, V>(t: Tables<K, V>): multiset<(K, V)> {
    Items(t.first, Pair) + Items(t.second, Pair)
  }

  ghost function SlotOf<K, V>(t: Tables<K, V>, h1: K -> nat, h2: K -> nat, n: Node<K, V>, inFirst: bool): (i: nat)
    requires TablesOk(t, h1, h2)
    ensures i < |t.first| == |t.second|
  {
    (if inFirst then h1(n.key) else h2(n.key)) % |t.first|
  }

  // What is in the slot of n in the side's table.
  ghost function Occupant<K, V>(t: Tables<K, V>, h1: K -> nat, h2: K -> nat, n: Node<K, V>, inFirst: bool)
    : Option<Node<K, V>>
    requires TablesOk(t, h1, h2)
  {
    var i := SlotOf(t, h1, h2, n, inFirst);
    if inFirst then t.first[i] else t.second[i]
  }

  ghost function Put<K, V>(t: Tables<K, V>, h1: K -> nat, h2: K -> nat, n: Node<K, V>, inFirst: bool): (r: Tables<K, V>)
    requires TablesOk(t, h1, h2)
    ensures TablesOk(r, h1, h2) && |r.first| == |t.first|
  {
    var i := SlotOf(t, h1, h2, n, inFirst);
    if inFirst then t.(first := t.first[i := Some(n)]) else t.(second := t.second[i := Some(n)])
  }

  // The carried node takes its slot in the side's table, and the node that was there, if
  // any, is carried to the other side.
  ghost function Kick<K, V>(t: Tables<K, V>, h1: K -> nat, h2: K -> nat, n: Node<K, V>, inFirst: bool,
                            left: nat): (o: Outcome<K, V>)
    requires TablesOk(t, h1, h2)
    ensures TablesOk(o.tables, h1, h2) && |o.tables.first| == |t.first|
    decreases left
  {
    var was := Occupant(t, h1, h2, n, inFirst);
    if left == 0 then Dropped(t, n)
    else if was.None? then Stored(Put(t, h1, h2, n, inFirst), Some(n))
    else Kick(Put(t, h1, h2, n, inFirst), h1, h2, was.value, !inFirst, left - 1)
  }

  lemma KickUnfold<K, V>(t: Tables<K, V>, h1: K -> nat, h2: K -> nat, n: Node<K, V>, inFirst: bool, left: nat)
    requires TablesOk(t, h1, h2)
    ensures var was := Occupant(t, h1, h2, n, inFirst);
            Kick(t, h1, h2, n, inFirst, left) ==
            if left == 0 then Dropped(t, n)
            else if was.None? then Stored(Put(t, h1, h2, n, inFirst), Some(n))
            else Kick(Put(t, h1, h2, n, inFirst), h1, h2, was.value, !inFirst, left - 1)
  {
  }

  lemma PutConserves<K, V>(t: Tables<K, V>, h1: K -> nat, h2: K -> nat, n: Node<K, V>, inFirst: bool)
    requires TablesOk(t, h1, h2)
    ensures Contents(Put(t, h1, h2, n, inFirst)) + One(Occupant(t, h1, h2, n, inFirst), Pair) == Contents(t) + multiset{Pair(n)}
  {
    hide Items, Placed;
    var i := SlotOf(t, h1, h2, n, inFirst);
    assert One(Some(n), Pair) == multiset{Pair(n)};
    if inFirst {
      ItemsUpdate(t.first, Pair, i, Some(n));
      SumsSwap(Items(t.first[i := Some(n)], Pair), Items(t.second, Pair), One(t.first[i], Pair), Items(t.first, Pair),
               multiset{Pair(n)});
    } else {
      ItemsUpdate(t.second, Pair, i, Some(n));
      Regroup(Items(t.first, Pair), Items(t.second[i := Some(n)], Pair), One(t.second[i], Pair));
      Regroup(Items(t.first, Pair), Items(t.second, Pair), multiset{Pair(n)});
    }
  }

  lemma SumsSwap<U>(a: multiset<U>, b: multiset<U>, x: multiset<U>, c: multiset<U>, y: multiset<U>)
    requires a + x == c + y
    ensures a + b + x == c + b + y
  {
    assert a + b + x == (a + x) + b;
    assert c + b + y == (c + y) + b;
  }

  ghost function Carried<K, V>(o: Outcome<K, V>): multiset<(K, V)> {
    if o.Stored? then multiset{} else multiset{Pair(o.node)}
  }

  // However many kicks it takes, the tables and the carried pair together keep every pair,
  // and every stored node sits in its own slot of its table.
  lemma {:induction false} KickConserves<K, V>(t: Tables<K, V>, h1: K -> nat, h2: K -> nat, n: Node<K, V>,
                                               inFirst: bool, left: nat)
    requires TablesOk(t, h1, h2)
    ensures var o := Kick(t, h1, h2, n, inFirst, left);
            && TablesOk(o.tables, h1, h2) && |o.tables.first| == |t.first|
            && Contents(o.tables) + Carried(o) == Contents(t) + multiset{Pair(n)}
    decreases left
  {
    hide Contents, TablesOk, Kick, Put, Occupant;
    KickUnfold(t, h1, h2, n, inFirst, left);
    PutConserves(t, h1, h2, n, inFirst);
    var was := Occupant(t, h1, h2, n, inFirst);
    if left > 0 && was.Some? {
      KickConserves(Put(t, h1, h2, n, inFirst), h1, h2, was.value, !inFirst, left - 1);
    }
  }

  lemma SizeAfterKick<K, V>(t: Tables<K, V>, h1: K -> nat, h2: K -> nat, n: Node<K, V>, inFirst: bool, left: nat)
    requires TablesOk(t, h1, h2)
    ensures var o := Kick(t, h1, h2, n, inFirst, left);
            |Contents(o.tables)| == |Contents(t)| + if o.Stored? then 1 else 0
  {
    hide Contents, Kick;
    KickConserves(t, h1, h2, n, inFirst, left);
    var o := Kick(t, h1, h2, n, inFirst, left);
    assert |Contents(o.tables) + Carried(o)| == |Contents(t) + multiset{Pair(n)}|;
  }

  // The first attempt to insert a pair.
  ghost function FirstTry<K, V>(t: Tables<K, V>, h1: K -> nat, h2: K -> nat, n: Node<K, V>): (o: Outcome<K, V>)
    requires TablesOk(t, h1, h2)
    ensures TablesOk(o.tables, h1, h2) && |o.tables.first| == |t.first|
  {
    Kick(t, h1, h2, n, true, MAX_KICKS)
  }

  ghost function Empty<K, V>(cap: nat): Tables<K, V> {
    Tables(seq(cap, _ => None), seq(cap, _ => None))
  }

  // The guarded emplace_no_rehash call of a rehash pass.
  ghost function PutBack<K, V>(t: Tables<K, V>, h1: K -> nat, h2: K -> nat, slot: Option<Node<K, V>>): Outcome<K, V>
    requires TablesOk(t, h1, h2)
  {
    if slot.Some? then FirstTry(t, h1, h2, slot.value) else Stored(t, None)
  }

  ghost function PutAll<K, V>(t: Tables<K, V>, h1: K -> nat, h2: K -> nat, slots: seq<Option<Node<K, V>>>)
    : (r: Option<Tables<K, V>>)
    requires TablesOk(t, h1, h2)
    ensures r.Some? ==> TablesOk(r.value, h1, h2) && |r.value.first| == |t.first|
    decreases |slots|
  {
    if slots == [] then Some(t)
    else
      var o := PutBack(t, h1, h2, slots[0]);
      if o.Stored? then PutAll(o.tables, h1, h2, slots[1..]) else None
  }

  // The slots in the order in which rehash visits them.
  ghost function Interleave<T>(a: seq<T>, b: seq<T>): seq<T>
    requires |a| == |b|
  {
    if a == [] then [] else [a[0], b[0]] + Interleave(a[1..], b[1..])
  }

  // One pass of rehash, unless a pair is dropped on the way.
  ghost function Pass<K, V>(t: Tables<K, V>, h1: K -> nat, h2: K -> nat): (r: Option<Tables<K, V>>)
    requires TablesOk(t, h1, h2)
    ensures r.Some? ==> TablesOk(r.value, h1, h2) && |r.value.first| == 2 * |t.first|
  {
    PutAll(Empty(2 * |t.first|), h1, h2, Interleave(t.first, t.second))
  }

  datatype Insertion<K, V> = Done(tables: Tables<K, V>) | PassFailed | GoesOn

  // The attempts of emplace after its check of the load: each one that fails is followed by
  // a rehash and an attempt with the same pair again.
  ghost function Insert<K, V>(t: Tables<K, V>, h1: K -> nat, h2: K -> nat, n: Node<K, V>, retries: nat): Insertion<K, V>
    requires TablesOk(t, h1, h2)
    decreases retries
  {
    var o := FirstTry(t, h1, h2, n);
    if o.Stored? then Done(o.tables)
    else if retries == 0 then GoesOn
    else
      var next := Pass(o.tables, h1, h2);
      if next.None? then PassFailed else Insert(next.value, h1, h2, n, retries - 1)
  }

  // The pairs that the attempts leave outside the tables.
  ghost function Drops<K, V>(t: Tables<K, V>, h1: K -> nat, h2: K -> nat, n: Node<K, V>, retries: nat): seq<Node<K, V>>
    requires TablesOk(t, h1, h2)
    decreases retries
  {
    var o := FirstTry(t, h1, h2, n);
    if o.Stored? then []
    else
      var next := Pass(o.tables, h1, h2);
      [o.node] + if retries == 0 || next.None? then [] else Drops(next.value, h1, h2, n, retries - 1)
  }

  // The load factor is above 90 percent.
  ghost predicate Loaded<K, V>(t: Tables<K, V>) {
    (|Contents(t)| + 1) * 10 >= |t.first| * 9
  }

  // The tables in which emplace makes its first attempt.
  ghost function Start<K, V>(t: Tables<K, V>, h1: K -> nat, h2: K -> nat): (r: Option<Tables<K, V>>)
    requires TablesOk(t, h1, h2)
    ensures r.Some? ==> TablesOk(r.value, h1, h2)
  {
    if Loaded(t) then Pass(t, h1, h2) else Some(t)
  }

  ghost function Emplaced<K, V>(t: Tables<K, V>, h1: K -> nat, h2: K -> nat, n: Node<K, V>, retries: nat): Insertion<K, V>
    requires TablesOk(t, h1, h2)
  {
    var start := Start(t, h1, h2);
    if start.Some? then Insert(start.value, h1, h2, n, retries) else PassFailed
  }

  // What the key and value references of emplace_no_rehash hold when it returns; `moved` is
  // what is left of a node that has been moved from.
  ghost function Leftover<K, V>(o: Outcome<K, V>, moved: Node<K, V> -> Node<K, V>): Option<Node<K, V>> {
    if o.Dropped? then Some(o.node) else if o.last.Some? then Some(moved(o.last.value)) else None
  }

  datatype PassEnd<K, V> = Completed(tables: Tables<K, V>) | Broken(old1: seq<Option<Node<K, V>>>)

  // A pass from slot i on, over the slots that the moved-out tables have left. Each slot of the
  // first one is overwritten by the second one's, and by what re-inserting leaves of it.
  ghost function PassFrom<K, V>(t: Tables<K, V>, h1: K -> nat, h2: K -> nat, moved: Node<K, V> -> Node<K, V>,
                                old1: seq<Option<Node<K, V>>>, old2: seq<Option<Node<K, V>>>, i: nat): (r: PassEnd<K, V>)
    requires TablesOk(t, h1, h2) && i <= |old1| == |old2|
    ensures r.Completed? ==> TablesOk(r.tables, h1, h2) && |r.tables.first| == |t.first|
    ensures r.Broken? ==> |r.old1| == |old1|
    decreases |old1| - i
  {
    if i == |old1| then Completed(t)
    else
      var o1 := PutBack(t, h1, h2, old1[i]);
      if o1.Dropped? then Broken(old1[i := Leftover(o1, moved)])
      else
        var o2 := PutBack(o1.tables, h1, h2, old2[i]);
        var left := old1[i := Leftover(o2, moved)];
        if o2.Dropped? then Broken(left) else PassFrom(o2.tables, h1, h2, moved, left, old2, i + 1)
  }

  // A pass at twice the capacity cap.
  ghost function PassOver<K, V>(cap: nat, h1: K -> nat, h2: K -> nat, moved: Node<K, V> -> Node<K, V>,
                                old1: seq<Option<Node<K, V>>>, old2: seq<Option<Node<K, V>>>): (r: PassEnd<K, V>)
    requires cap > 0 && |old1| == |old2|
    ensures r.Completed? ==> TablesOk(r.tables, h1, h2)
    ensures r.Broken? ==> |r.old1| == |old1|
  {
    PassFrom(Empty(2 * cap), h1, h2, moved, old1, old2, 0)
  }

  // rehash from the capacity cap: passes at twice the capacity before, until one completes.
  ghost function Rehashed<K, V>(cap: nat, h1: K -> nat, h2: K -> nat, moved: Node<K, V> -> Node<K, V>,
                                old1: seq<Option<Node<K, V>>>, old2: seq<Option<Node<K, V>>>, passes: nat)
    : (r: Option<Tables<K, V>>)
    requires cap > 0 && |old1| == |old2|
    ensures r.Some? ==> TablesOk(r.value, h1, h2)
    decreases passes
  {
    match PassOver(cap, h1, h2, moved, old1, old2)
    case Completed(tables) => Some(tables)
    case Broken(left) => if passes == 0 then None else Rehashed(2 * cap, h1, h2, moved, left, old2, passes - 1)
  }

  // What the slots of the first table hold in the pass that completes.
  ghost function LastOld<K, V>(cap: nat, h1: K -> nat, h2: K -> nat, moved: Node<K, V> -> Node<K, V>,
                               old1: seq<Option<Node<K, V>>>, old2: seq<Option<Node<K, V>>>, passes: nat)
    : (r: seq<Option<Node<K, V>>>)
    requires cap > 0 && |old1| == |old2|
    ensures |r| == |old1|
    decreases passes
  {
    match PassOver(cap, h1, h2, moved, old1, old2)
    case Completed(_) => old1
    case Broken(left) => if passes == 0 then left else LastOld(2 * cap, h1, h2, moved, left, old2, passes - 1)
  }

  datatype Ending<K, V> = Returned(tables: Tables<K, V>) | CutOff

  // Insert, with passes of rehash that go on from a broken one.
  ghost function InsertOn<K, V>(t: Tables<K, V>, h1: K -> nat, h2: K -> nat, moved: Node<K, V> -> Node<K, V>, n: Node<K, V>,
                                retries: nat, passes: nat): Ending<K, V>
    requires TablesOk(t, h1, h2)
    decreases retries
  {
    var o := FirstTry(t, h1, h2, n);
    if o.Stored? then Returned(o.tables)
    else if retries == 0 then CutOff
    else
      var next := Rehashed(|t.first|, h1, h2, moved, o.tables.first, o.tables.second, passes);
      if next.None? then CutOff else InsertOn(next.value, h1, h2, moved, n, retries - 1, passes)
  }

  ghost function EmplacedOn<K, V>(t: Tables<K, V>, h1: K -> nat, h2: K -> nat, moved: Node<K, V> -> Node<K, V>,
                                  n: Node<K, V>, retries: nat, passes: nat): Ending<K, V>
    requires TablesOk(t, h1, h2)
  {
    var start := if Loaded(t) then Rehashed(|t.first|, h1, h2, moved, t.first, t.second, passes) else Some(t);
    if start.Some? then InsertOn(start.value, h1, h2, moved, n, retries, passes) else CutOff
  }

  lemma {:induction false} PassIsPutAll<K, V>(t: Tables<K, V>, h1: K -> nat, h2: K -> nat, moved: Node<K, V> -> Node<K, V>,
                                              old1: seq<Option<Node<K, V>>>, old2: seq<Option<Node<K, V>>>, i: nat)
    requires TablesOk(t, h1, h2) && i <= |old1| == |old2|
    ensures var r, all := PassFrom(t, h1, h2, moved, old1, old2, i), PutAll(t, h1, h2, Interleave(old1[i..], old2[i..]));
            if r.Completed? then all == Some(r.tables) else all == None
    decreases |old1| - i
  {
    hide Kick, Placed, PutAll, Interleave, PutBack;
    if i == |old1| {
      NothingToPut(t, h1, h2);
      NothingBetween(old1[i..], old2[i..]);
    } else {
      var rest := Interleave(old1[i + 1..], old2[i + 1..]);
      TwoMore(old1, old2, i);
      PutAllUnfold(t, h1, h2, old1[i], [old2[i]] + rest);
      var o1 := PutBack(t, h1, h2, old1[i]);
      if o1.Stored? {
        PutAllUnfold(o1.tables, h1, h2, old2[i], rest);
        var o2 := PutBack(o1.tables, h1, h2, old2[i]);
        var left := old1[i := Leftover(o2, moved)];
        if o2.Stored? {
          assert left[i + 1..] == old1[i + 1..];
          PassIsPutAll(o2.tables, h1, h2, moved, left, old2, i + 1);
        }
      }
    }
  }

  lemma PassUnfold<K, V>(t: Tables<K, V>, h1: K -> nat, h2: K -> nat, moved: Node<K, V> -> Node<K, V>,
                         old1: seq<Option<Node<K, V>>>, old2: seq<Option<Node<K, V>>>, i: nat)
    requires TablesOk(t, h1, h2) && i < |old1| == |old2|
    ensures var o1 := PutBack(t, h1, h2, old1[i]);
            && TablesOk(o1.tables, h1, h2)
            && var o2 := PutBack(o1.tables, h1, h2, old2[i]);
               var left := old1[i := Leftover(o2, moved)];
               && TablesOk(o2.tables, h1, h2)
               && PassFrom(t, h1, h2, moved, old1, old2, i) ==
                  if o1.Dropped? then Broken(old1[i := Leftover(o1, moved)])
                  else if o2.Dropped? then Broken(left) else PassFrom(o2.tables, h1, h2, moved, left, old2, i + 1)
  {
    hide Kick, Placed, Leftover;
  }

  lemma PassEnds<K, V>(t: Tables<K, V>, h1: K -> nat, h2: K -> nat, moved: Node<K, V> -> Node<K, V>,
                       old1: seq<Option<Node<K, V>>>, old2: seq<Option<Node<K, V>>>)
    requires TablesOk(t, h1, h2) && |old1| == |old2|
    ensures PassFrom(t, h1, h2, moved, old1, old2, |old1|) == Completed(t)
  {
  }

  lemma NothingBetween<T>(a: seq<T>, b: seq<T>)
    requires a == [] && b == []
    ensures Interleave(a, b) == []
  {
  }

  // When the first pass completes there is no other.
  lemma OnePassIsEnough<K, V>(t: Tables<K, V>, h1: K -> nat, h2: K -> nat, moved: Node<K, V> -> Node<K, V>, passes: nat)
    requires TablesOk(t, h1, h2) && Pass(t, h1, h2).Some?
    ensures Rehashed(|t.first|, h1, h2, moved, t.first, t.second, passes) == Pass(t, h1, h2)
  {
    hide Kick, PutAll, PassFrom;
    PassIsPutAll(Empty<K, V>(2 * |t.first|), h1, h2, moved, t.first, t.second, 0);
    assert t.first[0..] == t.first && t.second[0..] == t.second;
  }

  // An insert whose rehashes complete in one pass each is Insert.
  lemma {:induction false} OnePassInsert<K, V>(t: Tables<K, V>, h1: K -> nat, h2: K -> nat, moved: Node<K, V> -> Node<K, V>,
                                               n: Node<K, V>, retries: nat, passes: nat)
    requires TablesOk(t, h1, h2) && !Insert(t, h1, h2, n, retries).PassFailed?
    ensures InsertOn(t, h1, h2, moved, n, retries, passes) ==
            match Insert(t, h1, h2, n, retries) case Done(tables) => Returned(tables) case _ => CutOff
    decreases retries
  {
    hide FirstTry, Pass, Rehashed, Placed;
    var o := FirstTry(t, h1, h2, n);
    if o.Dropped? && retries > 0 {
      OnePassIsEnough(o.tables, h1, h2, moved, passes);
      OnePassInsert(Pass(o.tables, h1, h2).value, h1, h2, moved, n, retries - 1, passes);
    }
  }

  lemma OnePassEmplace<K, V>(t: Tables<K, V>, h1: K -> nat, h2: K -> nat, moved: Node<K, V> -> Node<K, V>, n: Node<K, V>,
                             retries: nat, passes: nat)
    requires TablesOk(t, h1, h2) && !Emplaced(t, h1, h2, n, retries).PassFailed?
    ensures EmplacedOn(t, h1, h2, moved, n, retries, passes) ==
            match Emplaced(t, h1, h2, n, retries) case Done(tables) => Returned(tables) case _ => CutOff
  {
    hide FirstTry, Pass, Rehashed, Placed, Insert, InsertOn, Loaded;
    if Loaded(t) {
      OnePassIsEnough(t, h1, h2, moved, passes);
    }
    OnePassInsert(Start(t, h1, h2).value, h1, h2, moved, n, retries, passes);
  }

  // When the first pass completes, which the tables before it decide, a rehash keeps the contents.
  lemma FirstPassKeeps<K, V>(t: Tables<K, V>, h1: K -> nat, h2: K -> nat, moved: Node<K, V> -> Node<K, V>, passes: nat)
    requires TablesOk(t, h1, h2) && PassOver(|t.first|, h1, h2, moved, t.first, t.second).Completed?
    ensures var r := Rehashed(|t.first|, h1, h2, moved, t.first, t.second, passes);
            r == Pass(t, h1, h2) && r.Some? && Contents(r.value) == Contents(t)
  {
    hide PassFrom, PutAll, Contents;
    PassIsPutAll(Empty<K, V>(2 * |t.first|), h1, h2, moved, t.first, t.second, 0);
    assert t.first[0..] == t.first && t.second[0..] == t.second;
    PassConserves(t, h1, h2);
  }

  // Whichever pass completes, the tables hold what its slots held.
  lemma {:induction false} RehashedConserves<K, V>(cap: nat, h1: K -> nat, h2: K -> nat, moved: Node<K, V> -> Node<K, V>,
                                                   old1: seq<Option<Node<K, V>>>, old2: seq<Option<Node<K, V>>>,
                                                   passes: nat)
    requires cap > 0 && |old1| == |old2| && Rehashed(cap, h1, h2, moved, old1, old2, passes).Some?
    ensures var after, last := Rehashed(cap, h1, h2, moved, old1, old2, passes).value,
                               LastOld(cap, h1, h2, moved, old1, old2, passes);
            && Contents(after) == Items(last, Pair) + Items(old2, Pair)
            && (Contents(after) == Items(old1, Pair) + Items(old2, Pair) <==> Items(last, Pair) == Items(old1, Pair))
    decreases passes
  {
    hide Kick, PutAll, Items, PassFrom;
    var start := Empty<K, V>(2 * cap);
    match PassOver(cap, h1, h2, moved, old1, old2)
    case Completed(tables) =>
      PassIsPutAll(start, h1, h2, moved, old1, old2, 0);
      assert old1[0..] == old1 && old2[0..] == old2;
      EmptyContents<K, V>(2 * cap);
      PutAllConserves(start, h1, h2, Interleave(old1, old2));
      InterleaveKeepsItems(old1, old2, Pair<K, V>);
      assert Contents(tables) == multiset{} + (Items(old1, Pair<K, V>) + Items(old2, Pair<K, V>));
    case Broken(left) =>
      RehashedConserves(2 * cap, h1, h2, moved, left, old2, passes - 1);
      var last := LastOld(cap, h1, h2, moved, old1, old2, passes);
      if Items(last, Pair<K, V>) + Items(old2, Pair<K, V>) == Items(old1, Pair<K, V>) + Items(old2, Pair<K, V>) {
        Cancel(Items(last, Pair<K, V>), Items(old1, Pair<K, V>), Items(old2, Pair<K, V>));
      }
  }

  lemma EmptyContents<K, V>(cap: nat)
    ensures Contents(Empty<K, V>(cap)) == multiset{}
  {
    ItemsOfEmptySlots(Empty<K, V>(cap).first, Pair<K, V>);
    ItemsOfEmptySlots(Empty<K, V>(cap).second, Pair<K, V>);
  }

  // A pass that breaks at slot j has overwritten the first table's slots up to there: those
  // below j are taken where the second table's are.
  lemma {:induction false} BrokenPassOverwrites<K, V>(t: Tables<K, V>, h1: K -> nat, h2: K -> nat,
                                                      moved: Node<K, V> -> Node<K, V>, old1: seq<Option<Node<K, V>>>,
                                                      old2: seq<Option<Node<K, V>>>, i: nat) returns (j: nat)
    requires TablesOk(t, h1, h2) && i <= |old1| == |old2| && PassFrom(t, h1, h2, moved, old1, old2, i).Broken?
    ensures var left := PassFrom(t, h1, h2, moved, old1, old2, i).old1;
            && i <= j < |left| == |old1| && left[j].Some?
            && (forall k :: i <= k < j ==> (left[k].Some? <==> old2[k].Some?))
            && (forall k :: 0 <= k < |old1| && (k < i || j < k) ==> left[k] == old1[k])
    decreases |old1| - i
  {
    hide Kick, Placed;
    var o1 := PutBack(t, h1, h2, old1[i]);
    j := i;
    if o1.Stored? {
      var o2 := PutBack(o1.tables, h1, h2, old2[i]);
      LastIsKept(o1.tables, h1, h2, old2[i]);
      if o2.Stored? {
        j := BrokenPassOverwrites(o2.tables, h1, h2, moved, old1[i := Leftover(o2, moved)], old2, i + 1);
      }
    }
  }

  // So a rehash whose first pass breaks at slot j and whose second completes has lost pairs,
  // or has some twice, unless these counts agree.
  lemma SecondPassCounts<K, V>(t: Tables<K, V>, h1: K -> nat, h2: K -> nat, moved: Node<K, V> -> Node<K, V>, passes: nat)
    returns (j: nat)
    requires TablesOk(t, h1, h2) && PassOver(|t.first|, h1, h2, moved, t.first, t.second).Broken? && passes > 0
    requires var left := PassOver(|t.first|, h1, h2, moved, t.first, t.second).old1;
             PassOver(2 * |t.first|, h1, h2, moved, left, t.second).Completed?
    ensures Rehashed(|t.first|, h1, h2, moved, t.first, t.second, passes).Some? && j < |t.first| == |t.second|
    ensures var after := Rehashed(|t.first|, h1, h2, moved, t.first, t.second, passes).value;
            |Contents(after)| + |Items(t.first[..j], Pair)| + |One(t.first[j], Pair)| ==
            |Contents(t)| + |Items(t.second[..j], Pair)| + 1
  {
    hide PassFrom, Items;
    j := BrokenPassLoses(Empty<K, V>(2 * |t.first|), h1, h2, moved, t.first, t.second);
    RehashedConserves(|t.first|, h1, h2, moved, t.first, t.second, passes);
  }

  lemma LastIsKept<K, V>(t: Tables<K, V>, h1: K -> nat, h2: K -> nat, slot: Option<Node<K, V>>)
    requires TablesOk(t, h1, h2)
    ensures var o := PutBack(t, h1, h2, slot); o.Stored? ==> (o.last.Some? <==> slot.Some?)
  {
    hide Placed;
    if slot.Some? {
      KickKeepsLast(t, h1, h2, slot.value, true, MAX_KICKS);
    }
  }

  lemma {:induction false} KickKeepsLast<K, V>(t: Tables<K, V>, h1: K -> nat, h2: K -> nat, n: Node<K, V>, inFirst: bool,
                                               left: nat)
    requires TablesOk(t, h1, h2)
    ensures var o := Kick(t, h1, h2, n, inFirst, left); o.Stored? ==> o.last.Some?
    decreases left
  {
    hide TablesOk, Put, Occupant;
    var was := Occupant(t, h1, h2, n, inFirst);
    if left > 0 && was.Some? {
      KickKeepsLast(Put(t, h1, h2, n, inFirst), h1, h2, was.value, !inFirst, left - 1);
    }
  }

  // Pairs are lost when more slots of the first table are taken below j than of the second:
  // the slots of the next pass hold fewer.
  lemma BrokenPassLoses<K, V>(t: Tables<K, V>, h1: K -> nat, h2: K -> nat, moved: Node<K, V> -> Node<K, V>,
                              old1: seq<Option<Node<K, V>>>, old2: seq<Option<Node<K, V>>>) returns (j: nat)
    requires TablesOk(t, h1, h2) && |old1| == |old2| && PassFrom(t, h1, h2, moved, old1, old2, 0).Broken?
    ensures var left := PassFrom(t, h1, h2, moved, old1, old2, 0).old1;
            && j < |left| == |old1| && left[j].Some?
            && |Items(left, Pair)| + |Items(old1[..j], Pair)| + |One(old1[j], Pair)| ==
               |Items(old1, Pair)| + |Items(old2[..j], Pair)| + 1
  {
    hide Kick, Placed, Items;
    j := BrokenPassOverwrites(t, h1, h2, moved, old1, old2, 0);
    var left := PassFrom(t, h1, h2, moved, old1, old2, 0).old1;
    ItemsSplit(left, Pair<K, V>, j);
    ItemsSplit(old1, Pair<K, V>, j);
    assert left[j + 1..] == old1[j + 1..];
    SameTaken(left[..j], old2[..j], Pair<K, V>);
  }

  lemma {:induction false} SameTaken<T, U>(a: seq<Option<T>>, b: seq<Option<T>>, view: T -> U)
    requires |a| == |b| && forall i :: 0 <= i < |a| ==> (a[i].Some? <==> b[i].Some?)
    ensures |Items(a, view)| == |Items(b, view)|
  {
    if a != [] {
      SameTaken(a[1..], b[1..], view);
    }
  }

  lemma {:induction false} PutAllConserves<K, V>(t: Tables<K, V>, h1: K -> nat, h2: K -> nat, slots: seq<Option<Node<K, V>>>)
    requires TablesOk(t, h1, h2) && PutAll(t, h1, h2, slots).Some?
    ensures Contents(PutAll(t, h1, h2, slots).value) == Contents(t) + Items(slots, Pair)
    decreases |slots|
  {
    hide Contents, Kick, Placed;
    if slots != [] {
      var o := PutBack(t, h1, h2, slots[0]);
      PutBackConserves(t, h1, h2, slots[0]);
      PutAllConserves(o.tables, h1, h2, slots[1..]);
      SumUnfold(slots, SlotBag(Pair<K, V>));
      Regroup(Contents(t), One(slots[0], Pair), Items(slots[1..], Pair));
    }
  }

  lemma PutBackConserves<K, V>(t: Tables<K, V>, h1: K -> nat, h2: K -> nat, slot: Option<Node<K, V>>)
    requires TablesOk(t, h1, h2) && PutBack(t, h1, h2, slot).Stored?
    ensures Contents(PutBack(t, h1, h2, slot).tables) == Contents(t) + One(slot, Pair)
  {
    hide Contents, Kick, Placed;
    if slot.Some? {
      KickConserves(t, h1, h2, slot.value, true, MAX_KICKS);
    }
  }

  lemma {:induction false} InterleaveKeepsItems<T, U>(a: seq<Option<T>>, b: seq<Option<T>>, view: T -> U)
    requires |a| == |b|
    ensures Items(Interleave(a, b), view) == Items(a, view) + Items(b, view)
  {
    hide Sum;
    SumUnfold(a, SlotBag(view));
    SumUnfold(b, SlotBag(view));
    var both := Interleave(a, b);
    SumUnfold(both, SlotBag(view));
    if a != [] {
      InterleaveKeepsItems(a[1..], b[1..], view);
      SumUnfold(both[1..], SlotBag(view));
      assert both[1..][1..] == Interleave(a[1..], b[1..]) && both[1..][0] == b[0];
      SumsOfFour(One(a[0], view), One(b[0], view), Items(a[1..], view), Items(b[1..], view));
    }
  }

  // A pass that drops nothing keeps the contents.
  lemma PassConserves<K, V>(t: Tables<K, V>, h1: K -> nat, h2: K -> nat)
    requires TablesOk(t, h1, h2) && Pass(t, h1, h2).Some?
    ensures Contents(Pass(t, h1, h2).value) == Contents(t)
  {
    hide PutAll, Items;
    var start := Empty<K, V>(2 * |t.first|);
    ItemsOfEmptySlots(start.first, Pair<K, V>);
    ItemsOfEmptySlots(start.second, Pair<K, V>);
    PutAllConserves(start, h1, h2, Interleave(t.first, t.second));
    InterleaveKeepsItems(t.first, t.second, Pair<K, V>);
  }

  // Attempts that end have put their pair in once each, and all but the last have lost a pair.
  lemma {:induction false} InsertConserves<K, V>(t: Tables<K, V>, h1: K -> nat, h2: K -> nat, n: Node<K, V>, retries: nat)
    requires TablesOk(t, h1, h2) && Insert(t, h1, h2, n, retries).Done?
    ensures var after, drops := Insert(t, h1, h2, n, retries).tables, Drops(t, h1, h2, n, retries);
            && TablesOk(after, h1, h2)
            && Contents(after) + multiset(Map(drops, Pair)) == Contents(t) + Copies(Pair(n), |drops| + 1)
    decreases retries
  {
    hide Contents, Kick, Pass, TablesOk, Copies, Insert, Drops, FirstTry, Map, Pair;
    var o := FirstTry(t, h1, h2, n);
    FirstTryConserves(t, h1, h2, n);
    AfterFirstTry(t, h1, h2, n, retries);
    OneCopy(Pair(n));
    if !o.Stored? {
      var next := Pass(o.tables, h1, h2).value;
      PassConserves(o.tables, h1, h2);
      InsertConserves(next, h1, h2, n, retries - 1);
      var drops := Drops(next, h1, h2, n, retries - 1);
      var after := Insert(next, h1, h2, n, retries - 1).tables;
      OneDropMore(o.node, drops);
      DropOneMore(Contents(after), multiset(Map(drops, Pair)), Contents(next), Pair(n), |drops| + 1, multiset{Pair(o.node)},
                  Contents(t));
    }
  }

  lemma FirstTryConserves<K, V>(t: Tables<K, V>, h1: K -> nat, h2: K -> nat, n: Node<K, V>)
    requires TablesOk(t, h1, h2)
    ensures var o := FirstTry(t, h1, h2, n);
            Contents(o.tables) + (if o.Stored? then multiset{} else multiset{Pair(o.node)}) == Contents(t) + multiset{Pair(n)}
  {
    hide Contents, Kick, Placed;
    KickConserves(t, h1, h2, n, true, MAX_KICKS);
  }

  lemma OneDropMore<K, V>(d: Node<K, V>, drops: seq<Node<K, V>>)
    ensures multiset(Map([d] + drops, Pair<K, V>)) == multiset{Pair(d)} + multiset(Map(drops, Pair<K, V>))
  {
    assert Map([d] + drops, Pair<K, V>) == [Pair(d)] + Map(drops, Pair<K, V>);
  }

  // What an insert does after its first attempt.
  lemma AfterFirstTry<K, V>(t: Tables<K, V>, h1: K -> nat, h2: K -> nat, n: Node<K, V>, retries: nat)
    requires TablesOk(t, h1, h2)
    ensures var o := FirstTry(t, h1, h2, n);
            if o.Stored? then Insert(t, h1, h2, n, retries) == Done(o.tables) && Drops(t, h1, h2, n, retries) == []
            else
              var next := Pass(o.tables, h1, h2);
              && Insert(t, h1, h2, n, retries) ==
                 (if retries == 0 then GoesOn else if next.None? then PassFailed
                  else Insert(next.value, h1, h2, n, retries - 1))
              && Drops(t, h1, h2, n, retries) ==
                 [o.node] + if retries == 0 || next.None? then [] else Drops(next.value, h1, h2, n, retries - 1)
  {
    hide FirstTry, Pass, Placed;
  }

  ghost predicate AreCopies<K, V>(drops: seq<Node<K, V>>, n: Node<K, V>) {
    forall i :: 0 <= i < |drops| ==> Pair(drops[i]) == Pair(n)
  }

  // An insert that returns is exact if and only if its failed attempts, found by running them
  // on the tables before the call, drop copies of the new pair only.
  lemma ExactWhen<K, V>(t: Tables<K, V>, h1: K -> nat, h2: K -> nat, n: Node<K, V>, retries: nat)
    requires TablesOk(t, h1, h2) && Emplaced(t, h1, h2, n, retries).Done?
    ensures Contents(Emplaced(t, h1, h2, n, retries).tables) == Contents(t) + multiset{Pair(n)} <==>
            AreCopies(Drops(Start(t, h1, h2).value, h1, h2, n, retries), n)
    ensures |Contents(Emplaced(t, h1, h2, n, retries).tables)| == |Contents(t)| + 1
  {
    hide Contents, Drops, Insert, Copies, Pass, Loaded;
    var start := Start(t, h1, h2).value;
    if Loaded(t) {
      PassConserves(t, h1, h2);
    }
    InsertConserves(start, h1, h2, n, retries);
    var drops, after := Drops(start, h1, h2, n, retries), Insert(start, h1, h2, n, retries).tables;
    LostExactly(Contents(after), multiset(Map(drops, Pair)), Contents(t), Pair(n), |drops| + 1);
    AllCopies(Map(drops, Pair), Pair(n));
    SizeOfRest(Contents(after), multiset(Map(drops, Pair)), Contents(t), Pair(n), |drops| + 1);
  }

  lemma TwoMore<T>(a: seq<T>, b: seq<T>, i: nat)
    requires i < |a| == |b|
    ensures Interleave(a[i..], b[i..]) == [a[i]] + ([b[i]] + Interleave(a[i + 1..], b[i + 1..]))
  {
    assert a[i..][1..] == a[i + 1..] && b[i..][1..] == b[i + 1..];
  }

  lemma PutAllUnfold<K, V>(t: Tables<K, V>, h1: K -> nat, h2: K -> nat, slot: Option<Node<K, V>>,
                           rest: seq<Option<Node<K, V>>>)
    requires TablesOk(t, h1, h2)
    ensures var o := PutBack(t, h1, h2, slot);
            && TablesOk(o.tables, h1, h2)
            && PutAll(t, h1, h2, [slot] + rest) == if o.Stored? then PutAll(o.tables, h1, h2, rest) else None
  {
    assert ([slot] + rest)[1..] == rest;
  }

  lemma NothingToPut<K, V>(t: Tables<K, V>, h1: K -> nat, h2: K -> nat)
    requires TablesOk(t, h1, h2)
    ensures PutAll(t, h1, h2, []) == Some(t)
  {
  }

  lemma EmptyTables<K, V>(t: Tables<K, V>, h1: K -> nat, h2: K -> nat, half: nat)
    requires |t.first| == |t.second| == 2 * half > 0 && IsPowerOfTwo(half)
    requires forall i :: 0 <= i < |t.first| ==> t.first[i].None? && t.second[i].None?
    ensures TablesOk(t, h1, h2) && Contents(t) == multiset{} && IsPowerOfTwo(2 * half)
  {
    ItemsOfEmptySlots(t.first, Pair);
    ItemsOfEmptySlots(t.second, Pair);
  }

  class HashMapCuckoo<K(==), V> {
    const h1: K -> nat
    const h2: K -> nat
    const moved: Node<K, V> -> Node<K, V> // what is left of a node that has been moved from
    var capacity: nat
    var buckets1: seq<Option<Node<K, V>>>
    var buckets2: seq<Option<Node<K, V>>>
    var size: nat

    ghost function AsTables(): Tables<K, V>
      reads this
    {
      Tables(buckets1, buckets2)
    }

    ghost predicate Valid()
      reads this
    {
      && capacity == |buckets1| == |buckets2| && IsPowerOfTwo(capacity)
      && TablesOk(AsTables(), h1, h2) && size == |Contents(AsTables())|
    }

    constructor (h1: K -> nat, h2: K -> nat, moved: Node<K, V> -> Node<K, V>, initialCapacity: nat)
      ensures Valid() && Contents(AsTables()) == multiset{} && AsTables() == Empty(capacity)
      ensures this.h1 == h1 && this.h2 == h2 && this.moved == moved
      ensures initialCapacity <= capacity && (capacity == 1 || capacity / 2 < initialCapacity)
    {
      var cap := NextPowerOfTwo(if initialCapacity < 1 then 1 else initialCapacity);
      this.h1, this.h2, this.moved := h1, h2, moved;
      capacity := cap;
      buckets1, buckets2 := seq(cap, _ => None), seq(cap, _ => None);
      size := 0;
      new;
      ItemsOfEmptySlots(buckets1, Pair);
      ItemsOfEmptySlots(buckets2, Pair);
    }

    // key and value are rvalue references in the source: on failure they hold the pair
    // carried out of the tables, on success what is left of the last pair stored.
    method EmplaceNoRehash(key: K, value: V) returns (ok: bool, outKey: K, outValue: V)
      requires Valid()
      modifies this`buckets1, this`buckets2, this`size
      ensures Valid()
      ensures var o := Kick(old(AsTables()), h1, h2, Node(key, value), true, MAX_KICKS);
              ok == o.Stored? && AsTables() == o.tables && Some(Node(outKey, outValue)) == Leftover(o, moved)
      ensures ok ==> Contents(AsTables()) == old(Contents(AsTables())) + multiset{(key, value)}
      ensures !ok ==>
                Contents(AsTables()) + multiset{(outKey, outValue)} == old(Contents(AsTables())) + multiset{(key, value)}
      ensures size == if ok then old(size) + 1 else old(size)
    {
      hide Contents, IsPowerOfTwo, Placed, Kick;
      KickConserves(AsTables(), h1, h2, Node(key, value), true, MAX_KICKS);
      ghost var end := Kick(AsTables(), h1, h2, Node(key, value), true, MAX_KICKS);
      SizeAfterKick(AsTables(), h1, h2, Node(key, value), true, MAX_KICKS);
      outKey, outValue := key, value;
      var inBuckets1 := true;
      var loopCount: nat := 0;
      while loopCount < MAX_KICKS
        invariant loopCount <= MAX_KICKS && capacity == |buckets1| == |buckets2| && TablesOk(AsTables(), h1, h2)
        invariant Kick(AsTables(), h1, h2, Node(outKey, outValue), inBuckets1, MAX_KICKS - loopCount) == end
        invariant size == old(size)
      {
        KickUnfold(AsTables(), h1, h2, Node(outKey, outValue), inBuckets1, MAX_KICKS - loopCount);
        if inBuckets1 {
          var index := h1(outKey) % capacity;
          if buckets1[index].None? {
            buckets1 := buckets1[index := Some(Node(outKey, outValue))];
            size := size + 1;
            var rest := moved(Node(outKey, outValue));
            return true, rest.key, rest.value;
          }
          var oldNode := buckets1[index].value;
          buckets1 := buckets1[index := Some(Node(outKey, outValue))];
          outKey, outValue := oldNode.key, oldNode.value;
        } else {
          var index := h2(outKey) % capacity;
          if buckets2[index].None? {
            buckets2 := buckets2[index := Some(Node(outKey, outValue))];
            size := size + 1;
            var rest := moved(Node(outKey, outValue));
            return true, rest.key, rest.value;
          }
          var oldNode := buckets2[index].value;
          buckets2 := buckets2[index := Some(Node(outKey, outValue))];
          outKey, outValue := oldNode.key, oldNode.value;
        }
        inBuckets1 := !inBuckets1;
        loopCount := loopCount + 1;
      }
      KickUnfold(AsTables(), h1, h2, Node(outKey, outValue), inBuckets1, 0);
      return false, outKey, outValue;
    }

    method Find(key: K) returns (inFirst: bool, r: Option<nat>)
      requires Valid()
      ensures r.Some? ==> r.value < capacity && HasKey(if inFirst then buckets1 else buckets2, Pair, key, r.value)
      ensures r.Some? <==> HoldsKey(Contents(AsTables()), key)
    {
      hide Items;
      ContentsHaveKey(buckets1, Pair, key);
      ContentsHaveKey(buckets2, Pair, key);
      ghost var both := Contents(AsTables());
      assert forall item :: item in both <==> item in Items(buckets1, Pair) || item in Items(buckets2, Pair);
      var index1 := h1(key) % capacity;
      if buckets1[index1].Some? && buckets1[index1].value.key == key {
        assert HasKey(buckets1, Pair, key, index1);
        return true, Some(index1);
      }
      var index2 := h2(key) % capacity;
      if buckets2[index2].Some? && buckets2[index2].value.key == key {
        assert HasKey(buckets2, Pair, key, index2);
        return false, Some(index2);
      }
      assert forall i :: 0 <= i < capacity ==> !HasKey(buckets1, Pair, key, i) && !HasKey(buckets2, Pair, key, i);
      return false, None;
    }

    // Empty tables of twice the capacity.
    method Double()
      requires Valid()
      modifies this
      ensures Valid() && AsTables() == Empty(capacity) && capacity == 2 * old(capacity)
    {
      hide Contents, IsPowerOfTwo;
      var oldCapacity := capacity;
      capacity := 2 * capacity;
      buckets1, buckets2 := seq(capacity, _ => None), seq(capacity, _ => None);
      size := 0;
      EmptyTables(AsTables(), h1, h2, oldCapacity);
    }

    lemma TablesFill()
      requires Valid()
      ensures |buckets1| == |buckets2| == capacity > 0 && TablesOk(AsTables(), h1, h2)
    {
    }

    // One pass of rehash over the moved-out slots; left is what it makes of the first table's.
    method RehashPass(old1: seq<Option<Node<K, V>>>, old2: seq<Option<Node<K, V>>>)
      returns (allOk: bool, left: seq<Option<Node<K, V>>>)
      requires Valid() && |old1| == |old2|
      modifies this
      ensures Valid() && capacity == 2 * old(capacity)
      ensures match PassOver(old(capacity), h1, h2, moved, old1, old2)
              case Completed(tables) => allOk && AsTables() == tables
              case Broken(rest) => !allOk && left == rest
    {
      hide Kick, Contents, Placed, Leftover, PassFrom, PutBack, HashMapCuckoo.Valid;
      TablesFill();
      Double();
      TablesFill();
      left := old1;
      ghost var whole := PassFrom(AsTables(), h1, h2, moved, left, old2, 0);
      var i := 0;
      while i < |old1|
        invariant 0 <= i <= |old1| == |left|
        invariant Valid() && capacity == 2 * old(capacity) && TablesOk(AsTables(), h1, h2)
        invariant PassFrom(AsTables(), h1, h2, moved, left, old2, i) == whole
      {
        PassUnfold(AsTables(), h1, h2, moved, left, old2, i);
        ghost var before := left;
        var rest;
        allOk, rest := Reinsert(left[i]);
        if !allOk {
          left := left[i := rest];
          return;
        }
        left := left[i := old2[i]];
        allOk, rest := Reinsert(left[i]);
        left := left[i := rest];
        assert left == before[i := rest];
        if !allOk {
          return;
        }
        TablesFill();
        i := i + 1;
      }
      PassEnds(AsTables(), h1, h2, moved, left, old2);
      allOk := true;
    }

    method Reinsert(slot: Option<Node<K, V>>) returns (ok: bool, left: Option<Node<K, V>>)
      requires Valid()
      modifies this`buckets1, this`buckets2, this`size
      ensures Valid()
      ensures var o := PutBack(old(AsTables()), h1, h2, slot);
              ok == o.Stored? && AsTables() == o.tables && left == Leftover(o, moved)
    {
      hide Contents, Kick;
      ok, left := true, None;
      if slot.Some? {
        var k, v;
        ok, k, v := EmplaceNoRehash(slot.value.key, slot.value.value);
        left := Some(Node(k, v));
      }
    }

    // Passes until one completes; ok is false when the bound on further passes is used up, and
    // the source goes on.
    method Rehash(passes: nat) returns (ok: bool)
      requires Valid()
      modifies this
      ensures Valid()
      ensures var r := Rehashed(old(capacity), h1, h2, moved, old(buckets1), old(buckets2), passes);
              ok == r.Some? && (ok ==> AsTables() == r.value)
      ensures Pass(old(AsTables()), h1, h2).Some? ==> ok && Contents(AsTables()) == old(Contents(AsTables()))
    {
      hide PassFrom, Contents, Placed, Pass;
      if Pass(AsTables(), h1, h2).Some? {
        OnePassIsEnough(AsTables(), h1, h2, moved, passes);
        PassConserves(AsTables(), h1, h2);
      }
      ghost var whole := Rehashed(capacity, h1, h2, moved, buckets1, buckets2, passes);
      var old1, old2 := buckets1, buckets2;
      var left := passes;
      while true
        invariant Valid() && |old1| == |old2|
        invariant Rehashed(capacity, h1, h2, moved, old1, old2, left) == whole
        decreases left
      {
        ok, old1 := RehashPass(old1, old2);
        if ok || left == 0 {
          return;
        }
        left := left - 1;
      }
    }

    predicate NeedsRehash()
      reads this
    {
      (size + 1) * 10 >= capacity * 9
    }

    // A failed attempt leaves the new pair in the tables and carries some pair out of them,
    // and the retry inserts the new pair again. stored is false when the bound on retries or on
    // the passes of a rehash is used up; the source goes on.
    method Emplace(key: K, value: V, retries: nat, passes: nat) returns (stored: bool)
      requires Valid()
      modifies this
      ensures Valid()
      ensures var r := EmplacedOn(old(AsTables()), h1, h2, moved, Node(key, value), retries, passes);
              stored == r.Returned? && (stored ==> AsTables() == r.tables)
      ensures var r := Emplaced(old(AsTables()), h1, h2, Node(key, value), retries);
              !r.PassFailed? ==> stored == r.Done? && (stored ==> AsTables() == r.tables)
      ensures Emplaced(old(AsTables()), h1, h2, Node(key, value), retries).Done? ==>
                (Contents(AsTables()) == old(Contents(AsTables())) + multiset{(key, value)}
                 <==> AreCopies(Drops(old(Start(AsTables(), h1, h2)).value, h1, h2, Node(key, value), retries), Node(key, value)))
    {
      hide Contents, Kick, Pass, AreCopies, Drops, Rehashed;
      ghost var n := Node(key, value);
      EmplaceIsExact(n, retries, passes);
      ghost var wanted := EmplacedOn(AsTables(), h1, h2, moved, n, retries, passes);
      if NeedsRehash() {
        stored := Rehash(passes);
        if !stored {
          return;
        }
      }
      var left := retries;
      while true
        invariant Valid() && InsertOn(AsTables(), h1, h2, moved, n, left, passes) == wanted
        decreases left
      {
        var k, v;
        stored, k, v := EmplaceNoRehash(key, value);
        if stored || left == 0 {
          return;
        }
        left := left - 1;
        stored := Rehash(passes);
        if !stored {
          return;
        }
      }
    }

    lemma EmplaceIsExact(n: Node<K, V>, retries: nat, passes: nat)
      requires Valid()
      ensures var r := Emplaced(AsTables(), h1, h2, n, retries);
              && (r.Done? ==> EmplacedOn(AsTables(), h1, h2, moved, n, retries, passes) == Returned(r.tables))
              && (r.GoesOn? ==> EmplacedOn(AsTables(), h1, h2, moved, n, retries, passes) == CutOff)
              && (r.Done? ==>
                    (Contents(r.tables) == Contents(AsTables()) + multiset{Pair(n)} <==>
                     AreCopies(Drops(Start(AsTables(), h1, h2).value, h1, h2, n, retries), n)))
    {
      hide Contents, Emplaced, EmplacedOn, AreCopies, Drops, Start;
      var r := Emplaced(AsTables(), h1, h2, n, retries);
      if !r.PassFailed? {
        OnePassEmplace(AsTables(), h1, h2, moved, n, retries, passes);
      }
      if r.Done? {
        ExactWhen(AsTables(), h1, h2, n, retries);
      }
    }
  }

  ghost function Copies<U>(u: U, n: nat): multiset<U> {
    multiset{}[u := n]
  }

  lemma SumsOfFour<U>(a: multiset<U>, b: multiset<U>, x: multiset<U>, y: multiset<U>)
    ensures a + b + x + y == (a + x) + (b + y)
  {
  }

  lemma OneCopy<U>(u: U)
    ensures Copies(u, 1) == multiset{u}
  {
  }

  lemma DropOneMore<U>(after: multiset<U>, drops: multiset<U>, now: multiset<U>, u: U, n: nat, out: multiset<U>,
                       before: multiset<U>)
    requires after + drops == now + Copies(u, n) && now + out == before + multiset{u}
    ensures after + (out + drops) == before + Copies(u, n + 1)
  {
    assert Copies(u, n + 1) == Copies(u, n) + multiset{u};
    assert after + (out + drops) == (after + drops) + out;
    assert (now + out) + Copies(u, n) == (now + Copies(u, n)) + out;
    assert (before + multiset{u}) + Copies(u, n) == before + (Copies(u, n) + multiset{u});
  }

  lemma {:induction false} AllCopies<U>(us: seq<U>, u: U)
    ensures multiset(us) == Copies(u, |us|) <==> forall i :: 0 <= i < |us| ==> us[i] == u
  {
    if forall i :: 0 <= i < |us| ==> us[i] == u {
      if us != [] {
        AllCopies(us[1..], u);
        assert us == [us[0]] + us[1..];
      }
    } else {
      var i :| 0 <= i < |us| && us[i] != u;
      assert us[i] in multiset(us);
    }
  }

  lemma SizeOfRest<U>(after: multiset<U>, lost: multiset<U>, before: multiset<U>, u: U, n: nat)
    requires n > 0 && |lost| == n - 1 && after + lost == before + Copies(u, n)
    ensures |after| == |before| + 1
  {
    assert |after + lost| == |before + Copies(u, n)|;
  }

  lemma LostExactly<U>(after: multiset<U>, lost: multiset<U>, before: multiset<U>, u: U, n: nat)
    requires n > 0 && after + lost == before + Copies(u, n)
    ensures after == before + multiset{u} <==> lost == Copies(u, n - 1)
  {
    assert before + Copies(u, n) == (before + multiset{u}) + Copies(u, n - 1);
    if after == before + multiset{u} {
      assert after + lost == after + Copies(u, n - 1);
      assert lost + after == after + lost && Copies(u, n - 1) + after == after + Copies(u, n - 1);
      Cancel(lost, Copies(u, n - 1), after);
    }
    if lost == Copies(u, n - 1) {
      Cancel(after, before + multiset{u}, lost);
    }
  }
}
