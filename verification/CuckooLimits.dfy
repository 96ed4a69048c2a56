// When an insert into HashMapCuckoo (src/hashmap_cuckoo.hpp) is exact, when it loses a pair,
// and when it never returns.
module CuckooLimits {
  import opened Bags
  import opened OpenAddressing
  import opened Options
  import opened Cuckoo
  import opened CuckooAttempts
  import opened CuckooHashers
  import opened CuckooRehash
  import opened CuckooTraps
  import opened CuckooWalk

  ghost predicate SameSlots<K>(h1: K -> nat, h2: K -> nat, cap: nat, a: K, b: K)
    requires cap > 0
  {
    h1(a) % cap == h1(b) % cap && h2(a) % cap == h2(b) % cap
  }

  // When two attempts have each dropped another pair, two copies of the new pair are stored,
  // and no further attempt stores a third.
  lemma TwoFailuresAreFinal<K(!new), V(!new)>(t: Tables<K, V>, h1: K -> nat, h2: K -> nat, n: Node<K, V>, retries: nat)
    requires TablesOk(t, h1, h2) && FirstTry(t, h1, h2, n).Dropped? && Pair(FirstTry(t, h1, h2, n).node) != Pair(n)
    requires Pass(FirstTry(t, h1, h2, n).tables, h1, h2).Some?
    requires var again := FirstTry(Pass(FirstTry(t, h1, h2, n).tables, h1, h2).value, h1, h2, n);
             again.Dropped? && Pair(again.node) != Pair(n)
    ensures !Insert(t, h1, h2, n, retries).Done?
  {
    hide Contents, FirstTry, Pass, Placed, Insert, Trapped;
    var next := Pass(FirstTry(t, h1, h2, n).tables, h1, h2).value;
    var again := FirstTry(next, h1, h2, n);
    AfterFirstTry(t, h1, h2, n, retries);
    if retries > 0 {
      AfterFirstTry(next, h1, h2, n, retries - 1);
      if retries > 1 && Pass(again.tables, h1, h2).Some? {
        TwoAreStored(t, h1, h2, n);
        TwoMatesTrap(again.tables, h1, h2, n.key, Pair(n), Pair(n));
        TrapOutlivesPass(again.tables, h1, h2, n.key);
        InsertNeverReturns(Pass(again.tables, h1, h2).value, h1, h2, n, retries - 2);
      }
    }
  }

  lemma TwoAreStored<K(!new), V(!new)>(t: Tables<K, V>, h1: K -> nat, h2: K -> nat, n: Node<K, V>)
    requires TablesOk(t, h1, h2) && FirstTry(t, h1, h2, n).Dropped? && Pair(FirstTry(t, h1, h2, n).node) != Pair(n)
    requires Pass(FirstTry(t, h1, h2, n).tables, h1, h2).Some?
    requires var again := FirstTry(Pass(FirstTry(t, h1, h2, n).tables, h1, h2).value, h1, h2, n);
             again.Dropped? && Pair(again.node) != Pair(n)
    ensures var again := FirstTry(Pass(FirstTry(t, h1, h2, n).tables, h1, h2).value, h1, h2, n);
            multiset{Pair(n), Pair(n)} <= Contents(again.tables)
  {
    hide Contents, FirstTry, Pass, Placed;
    var o := FirstTry(t, h1, h2, n);
    var next := Pass(o.tables, h1, h2).value;
    var again := FirstTry(next, h1, h2, n);
    FirstTryStoresWhen(t, h1, h2, n);
    PassConserves(o.tables, h1, h2);
    FirstTryStoresWhen(next, h1, h2, n);
    TwoCopies(Contents(t), Contents(next), Contents(again.tables), Pair(o.node), Pair(again.node), Pair(n));
  }

  lemma TwoCopies<U>(before: multiset<U>, between: multiset<U>, after: multiset<U>, d: U, d': U, u: U)
    requires between + multiset{d} == before + multiset{u} && after + multiset{d'} == between + multiset{u}
    requires d != u && d' != u
    ensures multiset{u, u} <= after
  {
    assert (between + multiset{d})[u] == before[u] + 1;
    assert (after + multiset{d'})[u] == between[u] + 1;
  }

  // Three pairs that share both slots, two of them stored: six kicks restore the tables and
  // the carried pair, so the 512 kicks end like the first two and drop a stored pair.
  lemma CollidingInsertDropsStoredNode<K, V>(t: Tables<K, V>, h1: K -> nat, h2: K -> nat, x: Node<K, V>, y: Node<K, V>,
                                             z: Node<K, V>)
    requires TablesOk(t, h1, h2)
    requires SameSlots(h1, h2, |t.first|, x.key, z.key) && SameSlots(h1, h2, |t.first|, y.key, z.key)
    requires Occupant(t, h1, h2, z, true) == Some(x) && Occupant(t, h1, h2, z, false) == Some(y)
    ensures FirstTry(t, h1, h2, z) == Outcome.Dropped(Put(Put(t, h1, h2, z, true), h1, h2, x, false), y)
  {
    KickCycle(t, h1, h2, x, y, z, 85);
    TwoKicks(t, h1, h2, x, y, z, 2);
  }

  // From a in the first table and b in the second, carrying c into the first table.
  lemma TwoKicks<K, V>(t: Tables<K, V>, h1: K -> nat, h2: K -> nat, a: Node<K, V>, b: Node<K, V>, c: Node<K, V>, left: nat)
    requires TablesOk(t, h1, h2) && left >= 2
    requires SameSlots(h1, h2, |t.first|, a.key, c.key) && SameSlots(h1, h2, |t.first|, b.key, c.key)
    requires Occupant(t, h1, h2, c, true) == Some(a) && Occupant(t, h1, h2, c, false) == Some(b)
    ensures var t' := Put(Put(t, h1, h2, c, true), h1, h2, a, false);
            && Occupant(t', h1, h2, b, true) == Some(c) && Occupant(t', h1, h2, b, false) == Some(a)
            && Kick(t, h1, h2, c, true, left) == Kick(t', h1, h2, b, true, left - 2)
  {
    hide Kick;
    KickUnfold(t, h1, h2, c, true, left);
    KickUnfold(Put(t, h1, h2, c, true), h1, h2, a, false, left - 1);
  }

  lemma {:induction false} KickCycle<K, V>(t: Tables<K, V>, h1: K -> nat, h2: K -> nat, x: Node<K, V>, y: Node<K, V>,
                                           z: Node<K, V>, rounds: nat)
    requires TablesOk(t, h1, h2)
    requires SameSlots(h1, h2, |t.first|, x.key, z.key) && SameSlots(h1, h2, |t.first|, y.key, z.key)
    requires Occupant(t, h1, h2, z, true) == Some(x) && Occupant(t, h1, h2, z, false) == Some(y)
    ensures Kick(t, h1, h2, z, true, 6 * rounds + 2) == Kick(t, h1, h2, z, true, 2)
    decreases rounds
  {
    hide Kick, TablesOk;
    if rounds > 0 {
      TwoKicks(t, h1, h2, x, y, z, 6 * rounds + 2);
      var t1 := Put(Put(t, h1, h2, z, true), h1, h2, x, false);
      TwoKicks(t1, h1, h2, z, x, y, 6 * rounds);
      var t2 := Put(Put(t1, h1, h2, y, true), h1, h2, z, false);
      TwoKicks(t2, h1, h2, y, z, x, 6 * rounds - 2);
      assert Put(Put(t2, h1, h2, x, true), h1, h2, y, false) == t;
      KickCycle(t, h1, h2, x, y, z, rounds - 1);
    }
  }

  // Three pairs that share both slots at this capacity, with the third apart from the first
  // at twice the capacity: the insert returns, with the second pair gone and the third twice.
  lemma InsertLosesSecond<K(!new), V(!new)>(t: Tables<K, V>, h1: K -> nat, h2: K -> nat, x: Node<K, V>, y: Node<K, V>,
                                            z: Node<K, V>, retries: nat)
    requires TablesOk(t, h1, h2) && Contents(t) == multiset{Pair(x), Pair(y)} && !Loaded(t) && retries > 0
    requires SameSlots(h1, h2, |t.first|, x.key, z.key) && SameSlots(h1, h2, |t.first|, y.key, z.key)
    requires Occupant(t, h1, h2, z, true) == Some(x) && Occupant(t, h1, h2, z, false) == Some(y)
    requires h1(x.key) % (2 * |t.first|) != h1(z.key) % (2 * |t.first|)
    ensures var r := Emplaced(t, h1, h2, z, retries);
            r.Done? && TablesOk(r.tables, h1, h2) && Contents(r.tables) == multiset{Pair(x), Pair(z), Pair(z)}
  {
    hide Contents, FirstTry, Pass, Placed, Put, Occupant, Loaded, Insert;
    CollidingInsertDropsStoredNode(t, h1, h2, x, y, z);
    FirstTryStoresWhen(t, h1, h2, z);
    var o := FirstTry(t, h1, h2, z);
    SecondOut(Contents(o.tables), Pair(x), Pair(y), Pair(z));
    PassNeverFails(o.tables, h1, h2);
    var next := Pass(o.tables, h1, h2).value;
    ApartFit(next, h1, h2, x, z);
    FirstTryStoresWhen(next, h1, h2, z);
    SecondTry(t, h1, h2, z, retries);
  }

  lemma SecondTry<K, V>(t: Tables<K, V>, h1: K -> nat, h2: K -> nat, n: Node<K, V>, retries: nat)
    requires TablesOk(t, h1, h2) && FirstTry(t, h1, h2, n).Dropped? && retries > 0
    requires var next := Pass(FirstTry(t, h1, h2, n).tables, h1, h2);
             next.Some? && FirstTry(next.value, h1, h2, n).Stored?
    ensures var next := Pass(FirstTry(t, h1, h2, n).tables, h1, h2).value;
            Insert(t, h1, h2, n, retries) == Done(FirstTry(next, h1, h2, n).tables)
  {
    hide FirstTry, Pass, Placed;
  }

  lemma SecondOut<U>(after: multiset<U>, x: U, y: U, z: U)
    requires after + multiset{y} == multiset{x, y} + multiset{z}
    ensures after == multiset{x, z} && multiset{x, z} + multiset{z} == multiset{x, z, z}
  {
    Cancel(after, multiset{x, z}, multiset{y});
  }

  lemma ApartFit<K(!new), V(!new)>(t: Tables<K, V>, h1: K -> nat, h2: K -> nat, x: Node<K, V>, z: Node<K, V>)
    requires TablesOk(t, h1, h2) && Contents(t) == multiset{Pair(x), Pair(z)}
    requires h1(x.key) % |t.first| != h1(z.key) % |t.first|
    ensures FirstTry(t, h1, h2, z).Stored?
  {
    hide Contents, FirstTry, Items;
    SmallTableStoresWhen(t, h1, h2, z);
    var ends := Ends<K, V>(h1, h2, |t.first|);
    if c :| Closed(Flat(t), ends, c) && ends(z).0 in c && ends(z).1 in c {
      FlatContents(t);
      ItemsMember(Flat(t), Pair, Pair(x));
      var k :| 0 <= k < |Flat(t)| && Flat(t)[k].Some? && Pair(Flat(t)[k].value) == Pair(x);
      var third := if k == ends(z).1 then ends(x).0 else k;
      assert Flat(t)[ends(z).1].Some?;
      TakenCount(Flat(t), [ends(z).0, ends(z).1, third], Pair<K, V>);
    }
  }

  // With the code's own hash functions a key is trapped exactly when both of its slots hold
  // pairs with its first hash.
  lemma TrappedByTwo<V(!new)>(t: Tables<bv64, V>, key: bv64)
    requires TablesOk(t, FirstHash, SecondHash)
    ensures Trapped(t, FirstHash, SecondHash, key) <==>
            var a, b := t.first[FirstHash(key) % |t.first|], t.second[SecondHash(key) % |t.first|];
            a.Some? && b.Some? && a.value.key == b.value.key == key
  {
    hide FirstHash, SecondHash, Trapped;
    forall a, b ensures FirstHash(a) == FirstHash(b) <==> SecondHash(a) == SecondHash(b) {
      HashesGoTogether(a, b);
    }
    TrappedIsHeldTwice(t, FirstHash, SecondHash, key);
    if HoldsMates(t, FirstHash, SecondHash, key) {
      SameNumber(t.first[FirstHash(key) % |t.first|].value.key, key);
      SameNumber(t.second[SecondHash(key) % |t.first|].value.key, key);
    }
  }

  lemma ThreeCollide()
    ensures forall key :: key in {7, 23, 71} ==> FirstHash(key) % 16 == 7 && SecondHash(key) % 16 == 7
    ensures FirstHash(23) % 32 != FirstHash(71) % 32
  {
    assert MixHash(7) == 0x46abcca593a3c687 && MixHash(23) == 0xc9761a44f8913a87 && MixHash(71) == 0x88d75570bba82ed7;
    hide MixHash;
    assert SecondHash(7) % 16 == 7 && SecondHash(23) % 16 == 7 && SecondHash(71) % 16 == 7;
  }

  lemma SixteenSlots(cap: nat)
    requires IsPowerOfTwo(cap) && 16 <= cap < 32
    ensures cap == 16
  {
    assert IsPowerOfTwo(16);
    if cap > 16 {
      PowersApart(16, cap);
    }
  }

  // With a free slot, or one that the pair in it can leave for a free one, the pair is stored.
  lemma StoredInTwo<K, V>(t: Tables<K, V>, h1: K -> nat, h2: K -> nat, n: Node<K, V>, retries: nat)
    requires TablesOk(t, h1, h2) && !Loaded(t)
    requires var was := Occupant(t, h1, h2, n, true);
             was.Some? ==> Occupant(Put(t, h1, h2, n, true), h1, h2, was.value, false).None?
    ensures var was, once := Occupant(t, h1, h2, n, true), Put(t, h1, h2, n, true);
            var after := if was.None? then once else Put(once, h1, h2, was.value, false);
            && Emplaced(t, h1, h2, n, retries) == Done(after)
            && Contents(after) == Contents(t) + multiset{Pair(n)}
  {
    hide Kick, Put, Occupant, Loaded, Contents;
    KickUnfold(t, h1, h2, n, true, MAX_KICKS);
    KickConserves(t, h1, h2, n, true, MAX_KICKS);
    var was, once := Occupant(t, h1, h2, n, true), Put(t, h1, h2, n, true);
    if was.Some? {
      KickUnfold(once, h1, h2, was.value, false, MAX_KICKS - 1);
    }
  }

  // y, then x with the same slots, inserted into an empty map: y has made way for x.
  lemma TwoInserted<K, V>(h1: K -> nat, h2: K -> nat, cap: nat, x: Node<K, V>, y: Node<K, V>, retries: nat)
    returns (t1: Tables<K, V>, t2: Tables<K, V>)
    requires cap >= 4 && SameSlots(h1, h2, cap, y.key, x.key)
    ensures |t1.first| == |t2.first| == cap && TablesOk(t1, h1, h2) && TablesOk(t2, h1, h2)
    ensures Emplaced(Empty(cap), h1, h2, y, retries) == Done(t1) && Emplaced(t1, h1, h2, x, retries) == Done(t2)
    ensures Occupant(t2, h1, h2, x, true) == Some(x) && Occupant(t2, h1, h2, x, false) == Some(y)
    ensures Contents(t2) == multiset{Pair(x), Pair(y)} && !Loaded(t2)
  {
    hide Contents, Emplaced;
    var t0 := Empty<K, V>(cap);
    EmptyContents<K, V>(cap);
    StoredInTwo(t0, h1, h2, y, retries);
    t1 := Put(t0, h1, h2, y, true);
    StoredInTwo(t1, h1, h2, x, retries);
    t2 := Put(Put(t1, h1, h2, x, true), h1, h2, y, false);
    assert Contents(t1) == multiset{Pair(y)};
  }

  // Any three pairs whose keys share both slots at a capacity of at least 4, with the third
  // apart from the second at twice that capacity: inserted into an empty map, the first is lost.
  lemma FirstOfThreeIsLost<K(!new), V(!new)>(h1: K -> nat, h2: K -> nat, cap: nat, x: Node<K, V>, y: Node<K, V>,
                                             z: Node<K, V>, retries: nat)
    returns (t1: Tables<K, V>, t2: Tables<K, V>, t3: Tables<K, V>)
    requires cap >= 4 && retries > 0
    requires SameSlots(h1, h2, cap, x.key, z.key) && SameSlots(h1, h2, cap, y.key, z.key)
    requires h1(x.key) % (2 * cap) != h1(z.key) % (2 * cap)
    ensures TablesOk(Empty<K, V>(cap), h1, h2) && TablesOk(t1, h1, h2) && TablesOk(t2, h1, h2) && TablesOk(t3, h1, h2)
    ensures Emplaced(Empty(cap), h1, h2, y, retries) == Done(t1) && Emplaced(t1, h1, h2, x, retries) == Done(t2)
    ensures Emplaced(t2, h1, h2, z, retries) == Done(t3) && Contents(t3) == multiset{Pair(x), Pair(z), Pair(z)}
  {
    hide Contents, Emplaced, Loaded;
    t1, t2 := TwoInserted(h1, h2, cap, x, y, retries);
    InsertLosesSecond(t2, h1, h2, x, y, z, retries);
    t3 := Emplaced(t2, h1, h2, z, retries).tables;
  }

  // A map of the default capacity loses a key: 7, 23 and 71 share both slots of 16.
  method KeyIsLost<V(!new)>(a: V, b: V, c: V) returns (finds7: bool, finds23: bool, finds71: bool)
    ensures !finds7 && finds23 && finds71
  {
    hide Contents, Emplaced, AreCopies, Drops, Cuckoo.Start, HashMapCuckoo.Valid;
    ThreeCollide();
    ghost var x, y, z := Node(23 as bv64, b), Node(7 as bv64, a), Node(71 as bv64, c);
    ghost var t1, t2, t3 := FirstOfThreeIsLost(FirstHash, SecondHash, 16, x, y, z, 1);
    var m := new HashMapCuckoo<bv64, V>(FirstHash, SecondHash, (n: Node<bv64, V>) => n, 16);
    SixteenSlots(m.capacity);
    var stored := m.Emplace(7, a, 1, 0);
    stored := m.Emplace(23, b, 1, 0);
    stored := m.Emplace(71, c, 1, 0);
    ghost var held := Contents(m.AsTables());
    assert Pair(x) in held && Pair(z) in held && forall item :: item in held ==> item.0 != 7;
    var inFirst, r := m.Find(7);
    finds7 := r.Some?;
    inFirst, r := m.Find(23);
    finds23 := r.Some?;
    inFirst, r := m.Find(71);
    finds71 := r.Some?;
  }
}
