// When one attempt of emplace_no_rehash (src/hashmap_cuckoo.hpp) stores its pair: the tables
// against the walk over their slots.
module CuckooAttempts {
  import opened Bags
  import opened OpenAddressing
  import opened Options
  import opened Cuckoo
  import opened CuckooWalk

  // Both tables as one sequence of slots, and the two slots of a node in it.
  ghost function Flat<K, V>(t: Tables<K, V>): seq<Option<Node<K, V>>> { t.first + t.second }

  ghost function Ends<K, V>(h1: K -> nat, h2: K -> nat, cap: nat): Node<K, V> -> (nat, nat)
    requires cap > 0
  {
    (n: Node<K, V>) => (h1(n.key) % cap, cap + h2(n.key) % cap)
  }

  lemma FlatIsProper<K(!new), V(!new)>(t: Tables<K, V>, h1: K -> nat, h2: K -> nat)
    requires TablesOk(t, h1, h2)
    ensures Proper(Flat(t), Ends<K, V>(h1, h2, |t.first|))
  {
  }

  lemma {:induction false} KickIsPush<K(!new), V(!new)>(t: Tables<K, V>, h1: K -> nat, h2: K -> nat, n: Node<K, V>,
                                                        inFirst: bool, left: nat)
    requires TablesOk(t, h1, h2)
    ensures var ends := Ends<K, V>(h1, h2, |t.first|);
            && Proper(Flat(t), ends)
            && var s := if inFirst then ends(n).0 else ends(n).1;
               Kick(t, h1, h2, n, inFirst, left).Stored? <==> Push(Flat(t), ends, n, s, left).Stored?
    decreases left
  {
    hide Proper, TablesOk;
    FlatIsProper(t, h1, h2);
    var was, t' := Occupant(t, h1, h2, n, inFirst), Put(t, h1, h2, n, inFirst);
    var i := SlotOf(t, h1, h2, n, inFirst);
    assert Flat(t') == Flat(t)[(if inFirst then i else |t.first| + i) := Some(n)];
    if left > 0 && was.Some? {
      OtherSide(t, h1, h2, n, inFirst);
      KickIsPush(t', h1, h2, was.value, !inFirst, left - 1);
    }
  }

  lemma OtherSide<K, V>(t: Tables<K, V>, h1: K -> nat, h2: K -> nat, n: Node<K, V>, inFirst: bool)
    requires TablesOk(t, h1, h2) && Occupant(t, h1, h2, n, inFirst).Some?
    ensures var ends, m := Ends<K, V>(h1, h2, |t.first|), Occupant(t, h1, h2, n, inFirst).value;
            if inFirst then ends(m).0 == ends(n).0 && Other(ends, m, ends(n).0) == ends(m).1
            else ends(m).1 == ends(n).1 && Other(ends, m, ends(n).1) == ends(m).0
  {
  }

  lemma FlatContents<K, V>(t: Tables<K, V>)
    ensures Items(Flat(t), Pair) == Contents(t)
  {
    SumConcat(t.first, t.second, SlotBag(Pair<K, V>));
  }

  // The first attempt stores, and then is exact, if and only if the walk over the slots of
  // the table as it stands needs at most 512 kicks.
  lemma FirstTryStoresWhen<K(!new), V(!new)>(t: Tables<K, V>, h1: K -> nat, h2: K -> nat, n: Node<K, V>)
    requires TablesOk(t, h1, h2)
    ensures Proper(Flat(t), Ends<K, V>(h1, h2, |t.first|))
    ensures var o, kicks := FirstTry(t, h1, h2, n), KicksNeeded(Flat(t), Ends(h1, h2, |t.first|), n);
            && (o.Stored? <==> kicks.Some? && kicks.value <= MAX_KICKS)
            && (o.Stored? <==> Contents(o.tables) == Contents(t) + multiset{Pair(n)})
            && (o.Dropped? ==> Contents(o.tables) + multiset{Pair(o.node)} == Contents(t) + multiset{Pair(n)})
  {
    hide Proper, KicksNeeded, Push, Kick, Contents;
    KickIsPush(t, h1, h2, n, true, MAX_KICKS);
    StoresWhenEnough(Flat(t), Ends(h1, h2, |t.first|), n, MAX_KICKS);
    KickConserves(t, h1, h2, n, true, MAX_KICKS);
    SizeAfterKick(t, h1, h2, n, true, MAX_KICKS);
  }

  // With fewer than 256 pairs the first attempt fails if and only if the new pair is jammed:
  // its two slots lie in a set of slots full of pairs that have both slots in the set.
  lemma SmallTableStoresWhen<K(!new), V(!new)>(t: Tables<K, V>, h1: K -> nat, h2: K -> nat, n: Node<K, V>)
    requires TablesOk(t, h1, h2) && |Contents(t)| < 256
    ensures FirstTry(t, h1, h2, n).Dropped? <==> Jammed(Flat(t), Ends(h1, h2, |t.first|), n)
  {
    hide Proper, KicksNeeded, Kick, Contents, Jammed;
    var ends := Ends<K, V>(h1, h2, |t.first|);
    FirstTryStoresWhen(t, h1, h2, n);
    JammedNeedsForever(Flat(t), ends, n);
    KicksBound(Flat(t), ends, n, Pair<K, V>);
    FlatContents(t);
  }

  // In a table of any size a jammed pair is never stored by the first attempt.
  lemma JammedDrops<K(!new), V(!new)>(t: Tables<K, V>, h1: K -> nat, h2: K -> nat, n: Node<K, V>)
    requires TablesOk(t, h1, h2) && Jammed(Flat(t), Ends(h1, h2, |t.first|), n)
    ensures FirstTry(t, h1, h2, n).Dropped?
  {
    hide Proper, KicksNeeded, Kick, Contents, Jammed;
    FirstTryStoresWhen(t, h1, h2, n);
    JammedNeedsForever(Flat(t), Ends(h1, h2, |t.first|), n);
  }
}
