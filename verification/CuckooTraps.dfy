// Pairs that an insert into HashMapCuckoo (src/hashmap_cuckoo.hpp) can store at no capacity:
// with the stored ones they are more than the hash values they share.
module CuckooTraps {
  import opened Bags
  import opened OpenAddressing
  import opened Options
  import opened Cuckoo
  import opened CuckooAttempts
  import opened CuckooRehash
  import opened CuckooWalk

  // The pairs with their first hash in c1 and their second in c2.
  ghost function Within<K, V>(h1: K -> nat, h2: K -> nat, c1: set<nat>, c2: set<nat>): ((K, V)) -> bool {
    (pair: (K, V)) => h1(pair.0) in c1 && h2(pair.0) in c2
  }

  ghost predicate TrappedIn<K, V>(t: Tables<K, V>, h1: K -> nat, h2: K -> nat, key: K, c1: set<nat>, c2: set<nat>) {
    && h1(key) in c1 && h2(key) in c2
    && |Filter(Listed(Flat(t), Pair), Within(h1, h2, c1, c2))| >= |c1| + |c2|
  }

  // The key's hashes are among hash values that have at least as many stored pairs.
  ghost predicate Trapped<K, V>(t: Tables<K, V>, h1: K -> nat, h2: K -> nat, key: K) {
    exists c1: set<nat>, c2: set<nat> :: TrappedIn(t, h1, h2, key, c1, c2)
  }

  // The slots of the hash values at some capacity.
  ghost function SlotsOfValues(cap: nat, c1: set<nat>, c2: set<nat>): set<nat>
    requires cap > 0
  {
    Image(c1, (x: nat) => x % cap) + Image(c2, (x: nat) => cap + x % cap)
  }

  lemma SlotsAreFew(cap: nat, c1: set<nat>, c2: set<nat>)
    requires cap > 0
    ensures |SlotsOfValues(cap, c1, c2)| <= |c1| + |c2|
  {
    var a, b := Image(c1, (x: nat) => x % cap), Image(c2, (x: nat) => cap + x % cap);
    ImageIsSmaller(c1, (x: nat) => x % cap);
    ImageIsSmaller(c2, (x: nat) => cap + x % cap);
    assert |a + b| == |a| + |b - a|;
    SubsetIsSmaller(b - a, b);
  }

  lemma SlotsOfPair<K, V>(h1: K -> nat, h2: K -> nat, cap: nat, c1: set<nat>, c2: set<nat>, n: Node<K, V>)
    requires cap > 0 && Within<K, V>(h1, h2, c1, c2)(Pair(n))
    ensures var ends := Ends<K, V>(h1, h2, cap);
            ends(n).0 in SlotsOfValues(cap, c1, c2) && ends(n).1 in SlotsOfValues(cap, c1, c2)
  {
    var f, g := (x: nat) => x % cap, (x: nat) => cap + x % cap;
    assert f(h1(n.key)) in Image(c1, f) && g(h2(n.key)) in Image(c2, g);
  }

  lemma WithinSlot<K(!new), V(!new)>(t: Tables<K, V>, h1: K -> nat, h2: K -> nat, c1: set<nat>, c2: set<nat>, s: nat)
    requires TablesOk(t, h1, h2) && s in SlotsWith(Flat(t), Pair<K, V>, Within(h1, h2, c1, c2))
    ensures var all := SlotsOfValues(|t.first|, c1, c2);
            s < |Flat(t)| && s in all && Inside(Flat(t)[s], Ends<K, V>(h1, h2, |t.first|), all)
  {
    hide SlotsOfValues;
    FlatIsProper(t, h1, h2);
    SlotsOfPair(h1, h2, |t.first|, c1, c2, Flat(t)[s].value);
  }

  // At every capacity a trapped key is jammed: the pairs fill all slots of the hash values.
  lemma TrappedIsJammed<K(!new), V(!new)>(t: Tables<K, V>, h1: K -> nat, h2: K -> nat, n: Node<K, V>)
    requires TablesOk(t, h1, h2) && Trapped(t, h1, h2, n.key)
    ensures Jammed(Flat(t), Ends(h1, h2, |t.first|), n)
  {
    hide Filter, Listed, SlotsOfValues, SlotsWith, Inside, Placed, Flat;
    var c1, c2 :| TrappedIn(t, h1, h2, n.key, c1, c2);
    var cap, p := |t.first|, Within<K, V>(h1, h2, c1, c2);
    var all, taken := SlotsOfValues(cap, c1, c2), SlotsWith(Flat(t), Pair<K, V>, p);
    CountSlots(Flat(t), Pair<K, V>, p);
    SlotsAreFew(cap, c1, c2);
    SlotsOfPair(h1, h2, cap, c1, c2, n);
    forall s | s in taken ensures s < |Flat(t)| && s in all && Inside(Flat(t)[s], Ends<K, V>(h1, h2, cap), all) {
      WithinSlot(t, h1, h2, c1, c2, s);
    }
    LargeSubsetIsAll(taken, all);
    assert Closed(Flat(t), Ends<K, V>(h1, h2, cap), all);
  }

  lemma LargeSubsetIsAll<T>(a: set<T>, b: set<T>)
    requires a <= b && |b| <= |a|
    ensures a == b
  {
    assert b == a + (b - a);
    assert |b| == |a| + |b - a|;
  }

  // All hash values of the key and of the stored pairs are below the capacity.
  ghost predicate ValuesBelow<K, V>(t: Tables<K, V>, h1: K -> nat, h2: K -> nat, key: K) {
    && h1(key) < |t.first| && h2(key) < |t.first|
    && forall s :: 0 <= s < |Flat(t)| && Flat(t)[s].Some? ==>
         h1(Flat(t)[s].value.key) < |t.first| && h2(Flat(t)[s].value.key) < |t.first|
  }

  ghost function UpperOf(cap: nat, c: set<nat>): set<nat> {
    set s | s in c && s >= cap
  }

  // The hash values of a set of slots when they are below the capacity.
  ghost function FirstValues(cap: nat, c: set<nat>): set<nat> {
    set s | s in c && s < cap
  }

  ghost function SecondValues(cap: nat, c: set<nat>): set<nat> {
    Image(UpperOf(cap, c), (s: nat) => if s >= cap then s - cap else 0)
  }

  lemma ValuesAreFew(cap: nat, c: set<nat>)
    ensures |FirstValues(cap, c)| + |SecondValues(cap, c)| <= |c|
  {
    ImageIsSmaller(UpperOf(cap, c), (s: nat) => if s >= cap then s - cap else 0);
    assert c == FirstValues(cap, c) + UpperOf(cap, c);
  }

  lemma EndsAreValues<K, V>(h1: K -> nat, h2: K -> nat, cap: nat, c: set<nat>, m: Node<K, V>)
    requires h1(m.key) < cap && h2(m.key) < cap
    requires Ends<K, V>(h1, h2, cap)(m).0 in c && Ends<K, V>(h1, h2, cap)(m).1 in c
    ensures Within<K, V>(h1, h2, FirstValues(cap, c), SecondValues(cap, c))(Pair(m))
  {
    hide SecondValues;
    assert h1(m.key) % cap == h1(m.key) && h2(m.key) % cap == h2(m.key);
    Lowered(cap, c, h2(m.key));
  }

  lemma ClosedSlotIsWithin<K(!new), V(!new)>(t: Tables<K, V>, h1: K -> nat, h2: K -> nat, key: K, c: set<nat>, s: nat)
    requires TablesOk(t, h1, h2) && ValuesBelow(t, h1, h2, key)
    requires s < |Flat(t)| && Inside(Flat(t)[s], Ends<K, V>(h1, h2, |t.first|), c)
    ensures s in SlotsWith(Flat(t), Pair<K, V>, Within(h1, h2, FirstValues(|t.first|, c), SecondValues(|t.first|, c)))
  {
    hide SecondValues, FirstValues, Flat, Placed;
    EndsAreValues(h1, h2, |t.first|, c, Flat(t)[s].value);
  }

  lemma ClosedAt<N>(slots: seq<Option<N>>, ends: N -> (nat, nat), c: set<nat>, s: nat)
    requires Closed(slots, ends, c) && s in c
    ensures s < |slots| && Inside(slots[s], ends, c)
  {
  }

  lemma ClosedCount<K(!new), V(!new)>(t: Tables<K, V>, h1: K -> nat, h2: K -> nat, key: K, c: set<nat>)
    requires TablesOk(t, h1, h2) && ValuesBelow(t, h1, h2, key) && Closed(Flat(t), Ends<K, V>(h1, h2, |t.first|), c)
    ensures |c| <= |Filter(Listed(Flat(t), Pair), Within(h1, h2, FirstValues(|t.first|, c), SecondValues(|t.first|, c)))|
  {
    hide Filter, Listed, Closed, SlotsWith, FirstValues, SecondValues, Flat, Inside, Placed, ValuesBelow;
    var p := Within<K, V>(h1, h2, FirstValues(|t.first|, c), SecondValues(|t.first|, c));
    forall s | s in c ensures s in SlotsWith(Flat(t), Pair<K, V>, p) {
      ClosedAt(Flat(t), Ends<K, V>(h1, h2, |t.first|), c, s);
      ClosedSlotIsWithin(t, h1, h2, key, c, s);
    }
    CountSlots(Flat(t), Pair<K, V>, p);
    SubsetIsSmaller(c, SlotsWith(Flat(t), Pair<K, V>, p));
  }

  // At a capacity above all hash values a key is jammed only when it is trapped.
  lemma JammedIsTrapped<K(!new), V(!new)>(t: Tables<K, V>, h1: K -> nat, h2: K -> nat, n: Node<K, V>)
    requires TablesOk(t, h1, h2) && Jammed(Flat(t), Ends(h1, h2, |t.first|), n) && ValuesBelow(t, h1, h2, n.key)
    ensures Trapped(t, h1, h2, n.key)
  {
    hide Filter, Listed, Closed, FirstValues, SecondValues, Flat, Placed;
    var cap, ends := |t.first|, Ends<K, V>(h1, h2, |t.first|);
    var c :| Closed(Flat(t), ends, c) && ends(n).0 in c && ends(n).1 in c;
    ValuesAreFew(cap, c);
    EndsAreValues(h1, h2, cap, c, n);
    ClosedCount(t, h1, h2, n.key, c);
    assert TrappedIn(t, h1, h2, n.key, FirstValues(cap, c), SecondValues(cap, c));
  }

  lemma Lowered(cap: nat, c: set<nat>, x: nat)
    ensures cap + x in c ==> x in SecondValues(cap, c)
  {
    var f := (s: nat) => if s >= cap then s - cap else 0;
    if cap + x in c {
      assert cap + x in UpperOf(cap, c) && f(cap + x) == x;
      assert f(cap + x) in Image(UpperOf(cap, c), f);
    }
  }

  // Some stored pairs that suffice for a trap.
  lemma TooFewValues<K(!new), V(!new)>(t: Tables<K, V>, h1: K -> nat, h2: K -> nat, key: K, pairs: seq<(K, V)>,
                                       c1: set<nat>, c2: set<nat>)
    requires multiset(pairs) <= Contents(t) && |pairs| >= |c1| + |c2| && h1(key) in c1 && h2(key) in c2
    requires forall i :: 0 <= i < |pairs| ==> h1(pairs[i].0) in c1 && h2(pairs[i].0) in c2
    ensures Trapped(t, h1, h2, key)
  {
    hide Filter, Listed, Contents;
    var p := Within<K, V>(h1, h2, c1, c2);
    FilterAll(pairs, p);
    ListedContents(t);
    FilterFewer(pairs, Listed(Flat(t), Pair<K, V>), p);
    assert TrappedIn(t, h1, h2, key, c1, c2);
  }

  // Two keys that are never apart, whatever the capacity.
  ghost predicate SameHashes<K>(h1: K -> nat, h2: K -> nat, a: K, b: K) {
    h1(a) == h1(b) && h2(a) == h2(b)
  }

  // Two stored pairs with the hashes of the key trap it.
  lemma TwoMatesTrap<K(!new), V(!new)>(t: Tables<K, V>, h1: K -> nat, h2: K -> nat, key: K, u: (K, V), v: (K, V))
    requires multiset{u, v} <= Contents(t) && SameHashes(h1, h2, u.0, key) && SameHashes(h1, h2, v.0, key)
    ensures Trapped(t, h1, h2, key)
  {
    hide Contents;
    assert multiset([u, v]) == multiset{u, v};
    TooFewValues(t, h1, h2, key, [u, v], {h1(key)}, {h2(key)});
  }

  // The hash values that a table's stored pairs with hash values in c take up.
  ghost function ValuesHeld<K(!new), V(!new)>(slots: seq<Option<Node<K, V>>>, h: K -> nat, c: set<nat>): set<nat> {
    set s: nat | s < |slots| && slots[s].Some? && h(slots[s].value.key) in c :: h(slots[s].value.key)
  }

  ghost function SlotsHeld<K(!new), V(!new)>(slots: seq<Option<Node<K, V>>>, h: K -> nat, c: set<nat>): set<nat> {
    set s: nat | s < |slots| && slots[s].Some? && h(slots[s].value.key) in c
  }

  // One table has a single slot for each hash value.
  lemma OneSlotEach<K(!new), V(!new)>(slots: seq<Option<Node<K, V>>>, h: K -> nat, c: set<nat>)
    requires Placed(slots, h) && slots != []
    ensures ValuesHeld(slots, h, c) <= c && |SlotsHeld(slots, h, c)| <= |ValuesHeld(slots, h, c)|
  {
    var cap := |slots|;
    var f := (x: nat) => x % cap;
    var values := ValuesHeld(slots, h, c);
    forall s | s in SlotsHeld(slots, h, c) ensures s in Image(values, f) {
      assert h(slots[s].value.key) in values && f(h(slots[s].value.key)) == s;
    }
    SubsetIsSmaller(SlotsHeld(slots, h, c), Image(values, f));
    ImageIsSmaller(values, f);
  }

  lemma AllHeld<K(!new), V(!new)>(slots: seq<Option<Node<K, V>>>, h: K -> nat, c: set<nat>, x: nat)
    requires Placed(slots, h) && slots != [] && x in c && |SlotsHeld(slots, h, c)| >= |c|
    ensures var slot := slots[x % |slots|]; slot.Some? && h(slot.value.key) == x
  {
    OneSlotEach(slots, h, c);
    LargeSubsetIsAll(ValuesHeld(slots, h, c), c);
    assert x in ValuesHeld(slots, h, c);
  }

  // Both slots of a trapped key hold a pair that shares the slot's hash with it.
  lemma TrapHoldsBoth<K(!new), V(!new)>(t: Tables<K, V>, h1: K -> nat, h2: K -> nat, key: K)
    requires TablesOk(t, h1, h2) && Trapped(t, h1, h2, key)
    ensures var a, b := t.first[h1(key) % |t.first|], t.second[h2(key) % |t.first|];
            a.Some? && h1(a.value.key) == h1(key) && b.Some? && h2(b.value.key) == h2(key)
  {
    hide Filter, Listed;
    var c1, c2 :| TrappedIn(t, h1, h2, key, c1, c2);
    CountSlots(Flat(t), Pair<K, V>, Within<K, V>(h1, h2, c1, c2));
    TwoTables(t, h1, h2, c1, c2);
    OneSlotEach(t.first, h1, c1);
    OneSlotEach(t.second, h2, c2);
    SubsetIsSmaller(ValuesHeld(t.first, h1, c1), c1);
    SubsetIsSmaller(ValuesHeld(t.second, h2, c2), c2);
    AllHeld(t.first, h1, c1, h1(key));
    AllHeld(t.second, h2, c2, h2(key));
  }

  lemma TwoTables<K(!new), V(!new)>(t: Tables<K, V>, h1: K -> nat, h2: K -> nat, c1: set<nat>, c2: set<nat>)
    requires TablesOk(t, h1, h2)
    ensures |SlotsWith(Flat(t), Pair<K, V>, Within(h1, h2, c1, c2))| <=
            |SlotsHeld(t.first, h1, c1)| + |SlotsHeld(t.second, h2, c2)|
  {
    var cap := |t.first|;
    var f := (s: nat) => cap + s;
    var all, a, b := SlotsWith(Flat(t), Pair<K, V>, Within(h1, h2, c1, c2)), SlotsHeld(t.first, h1, c1),
                     SlotsHeld(t.second, h2, c2);
    forall s | s in all ensures s in a + Image(b, f) {
      if s >= cap {
        assert s - cap in b && f(s - cap) == s;
      }
    }
    ImageIsSmaller(b, f);
    SubsetIsSmaller(all, a + Image(b, f));
    assert |a + Image(b, f)| == |a| + |Image(b, f) - a|;
    SubsetIsSmaller(Image(b, f) - a, Image(b, f));
  }

  // Keys that share one of their hashes share both, as when the second is mixed from the first.
  ghost predicate GoTogether<K(!new)>(h1: K -> nat, h2: K -> nat) {
    forall a, b :: h1(a) == h1(b) <==> h2(a) == h2(b)
  }

  ghost predicate HoldsMates<K, V>(t: Tables<K, V>, h1: K -> nat, h2: K -> nat, key: K)
    requires TablesOk(t, h1, h2)
  {
    var a, b := t.first[h1(key) % |t.first|], t.second[h2(key) % |t.first|];
    a.Some? && b.Some? && SameHashes(h1, h2, a.value.key, key) && SameHashes(h1, h2, b.value.key, key)
  }

  // Then a key is trapped exactly when both of its slots hold pairs with its hashes.
  lemma TrappedIsHeldTwice<K(!new), V(!new)>(t: Tables<K, V>, h1: K -> nat, h2: K -> nat, key: K)
    requires TablesOk(t, h1, h2) && GoTogether(h1, h2)
    ensures Trapped(t, h1, h2, key) <==> HoldsMates(t, h1, h2, key)
  {
    hide Contents, Trapped;
    if Trapped(t, h1, h2, key) {
      TrapHoldsBoth(t, h1, h2, key);
    }
    if HoldsMates(t, h1, h2, key) {
      BothAreStored(t, h1(key) % |t.first|, h2(key) % |t.first|);
      TwoMatesTrap(t, h1, h2, key, Pair(t.first[h1(key) % |t.first|].value), Pair(t.second[h2(key) % |t.first|].value));
    }
  }

  lemma BothAreStored<K, V>(t: Tables<K, V>, i: nat, j: nat)
    requires i < |t.first| && j < |t.second| && t.first[i].Some? && t.second[j].Some?
    ensures multiset{Pair(t.first[i].value), Pair(t.second[j].value)} <= Contents(t)
  {
    hide Items;
    ItemsMember(t.first, Pair, Pair(t.first[i].value));
    ItemsMember(t.second, Pair, Pair(t.second[j].value));
  }

  // ---- a trap stays ----

  lemma TrapIsDropped<K(!new), V(!new)>(t: Tables<K, V>, h1: K -> nat, h2: K -> nat, n: Node<K, V>)
    requires TablesOk(t, h1, h2) && Trapped(t, h1, h2, n.key)
    ensures FirstTry(t, h1, h2, n).Dropped? && Trapped(FirstTry(t, h1, h2, n).tables, h1, h2, n.key)
  {
    hide Contents, FirstTry, Jammed, Filter, Listed;
    TrappedIsJammed(t, h1, h2, n);
    JammedDrops(t, h1, h2, n);
    FirstTryStoresWhen(t, h1, h2, n);
    var o := FirstTry(t, h1, h2, n);
    var c1, c2 :| TrappedIn(t, h1, h2, n.key, c1, c2);
    var p := Within<K, V>(h1, h2, c1, c2);
    var before, after := Listed(Flat(t), Pair<K, V>), Listed(Flat(o.tables), Pair<K, V>);
    ListedContents(t);
    ListedContents(o.tables);
    FilterPermute(after + [Pair(o.node)], before + [Pair(n)], p);
    FilterAppend(before, Pair(n), p);
    FilterAppend(after, Pair(o.node), p);
    assert TrappedIn(o.tables, h1, h2, n.key, c1, c2);
  }

  lemma TrapOutlivesPass<K(!new), V(!new)>(t: Tables<K, V>, h1: K -> nat, h2: K -> nat, key: K)
    requires TablesOk(t, h1, h2) && Trapped(t, h1, h2, key) && Pass(t, h1, h2).Some?
    ensures Trapped(Pass(t, h1, h2).value, h1, h2, key)
  {
    hide Contents, Pass, Filter, Listed;
    var next := Pass(t, h1, h2).value;
    var c1, c2 :| TrappedIn(t, h1, h2, key, c1, c2);
    PassConserves(t, h1, h2);
    ListedContents(t);
    ListedContents(next);
    FilterPermute(Listed(Flat(t), Pair<K, V>), Listed(Flat(next), Pair<K, V>), Within(h1, h2, c1, c2));
    assert TrappedIn(next, h1, h2, key, c1, c2);
  }

  lemma {:induction false} InsertNeverReturns<K(!new), V(!new)>(t: Tables<K, V>, h1: K -> nat, h2: K -> nat, n: Node<K, V>,
                                                                retries: nat)
    requires TablesOk(t, h1, h2) && Trapped(t, h1, h2, n.key)
    ensures !Insert(t, h1, h2, n, retries).Done?
    decreases retries
  {
    hide Contents, FirstTry, Pass, Trapped, Placed;
    TrapIsDropped(t, h1, h2, n);
    var o := FirstTry(t, h1, h2, n);
    if retries > 0 && Pass(o.tables, h1, h2).Some? {
      TrapOutlivesPass(o.tables, h1, h2, n.key);
      InsertNeverReturns(Pass(o.tables, h1, h2).value, h1, h2, n, retries - 1);
    }
  }

  // A pair with a trapped key is never stored, after any number of rehashes that complete.
  lemma TrappedNeverReturns<K(!new), V(!new)>(t: Tables<K, V>, h1: K -> nat, h2: K -> nat, n: Node<K, V>, retries: nat)
    requires TablesOk(t, h1, h2) && Trapped(t, h1, h2, n.key)
    ensures !Emplaced(t, h1, h2, n, retries).Done?
  {
    hide Contents, Insert, Pass, Trapped, Placed;
    InsertNeverReturns(t, h1, h2, n, retries);
    if Pass(t, h1, h2).Some? {
      TrapOutlivesPass(t, h1, h2, n.key);
      InsertNeverReturns(Pass(t, h1, h2).value, h1, h2, n, retries);
    }
  }

  lemma SameSizeAfterDrop<K, V>(t: Tables<K, V>, h1: K -> nat, h2: K -> nat, n: Node<K, V>)
    requires TablesOk(t, h1, h2) && FirstTry(t, h1, h2, n).Dropped?
    ensures |Contents(FirstTry(t, h1, h2, n).tables)| == |Contents(t)|
  {
    hide Contents, Kick;
    SizeAfterKick(t, h1, h2, n, true, MAX_KICKS);
  }

  lemma {:induction false} SmallInsertsRehash<K(!new), V(!new)>(t: Tables<K, V>, h1: K -> nat, h2: K -> nat, n: Node<K, V>,
                                                                retries: nat)
    requires TablesOk(t, h1, h2) && |Contents(t)| <= 256
    ensures !Insert(t, h1, h2, n, retries).PassFailed?
    decreases retries
  {
    hide Contents, FirstTry, Pass, Placed;
    var o := FirstTry(t, h1, h2, n);
    if o.Dropped? && retries > 0 {
      SameSizeAfterDrop(t, h1, h2, n);
      PassNeverFails(o.tables, h1, h2);
      SmallInsertsRehash(Pass(o.tables, h1, h2).value, h1, h2, n, retries - 1);
    }
  }

  // With up to 256 pairs no rehash of an insert needs a second pass.
  lemma SmallEmplacesRehash<K(!new), V(!new)>(t: Tables<K, V>, h1: K -> nat, h2: K -> nat, n: Node<K, V>, retries: nat)
    requires TablesOk(t, h1, h2) && |Contents(t)| <= 256
    ensures !Emplaced(t, h1, h2, n, retries).PassFailed?
  {
    hide Contents, Insert, Pass, Placed;
    PassNeverFails(t, h1, h2);
    SmallInsertsRehash(if Loaded(t) then Pass(t, h1, h2).value else t, h1, h2, n, retries);
  }

  // With up to 256 pairs stored, an insert of a trapped key does not return whatever the bounds.
  lemma TrappedGoesOn<K(!new), V(!new)>(t: Tables<K, V>, h1: K -> nat, h2: K -> nat, moved: Node<K, V> -> Node<K, V>,
                                        n: Node<K, V>, retries: nat, passes: nat)
    requires TablesOk(t, h1, h2) && |Contents(t)| <= 256 && Trapped(t, h1, h2, n.key)
    ensures EmplacedOn(t, h1, h2, moved, n, retries, passes) == CutOff
  {
    hide Contents, Emplaced, EmplacedOn, Trapped, Placed;
    TrappedNeverReturns(t, h1, h2, n, retries);
    SmallEmplacesRehash(t, h1, h2, n, retries);
    OnePassEmplace(t, h1, h2, moved, n, retries, passes);
  }

  // ---- when an insert returns ----

  // One of the first k + 1 attempts meets a trapped key.
  ghost predicate Snared<K(!new), V(!new)>(t: Tables<K, V>, h1: K -> nat, h2: K -> nat, n: Node<K, V>, k: nat)
    requires TablesOk(t, h1, h2)
    decreases k
  {
    || Trapped(t, h1, h2, n.key)
    || (k > 0 && FirstTry(t, h1, h2, n).Dropped?
        && var next := Pass(FirstTry(t, h1, h2, n).tables, h1, h2);
           next.Some? && Snared(next.value, h1, h2, n, k - 1))
  }

  ghost function Widened(cap: nat, k: nat): nat
    decreases k
  {
    if k == 0 then cap else Widened(2 * cap, k - 1)
  }

  // The hash values of the stored pairs and of the key are below a bound.
  ghost predicate Below<K(!new), V(!new)>(items: multiset<(K, V)>, h1: K -> nat, h2: K -> nat, key: K, bound: nat) {
    && h1(key) < bound && h2(key) < bound
    && forall item :: item in items ==> h1(item.0) < bound && h2(item.0) < bound
  }

  lemma BelowIsValuesBelow<K(!new), V(!new)>(t: Tables<K, V>, h1: K -> nat, h2: K -> nat, key: K)
    requires TablesOk(t, h1, h2) && Below(Contents(t), h1, h2, key, |t.first|)
    ensures ValuesBelow(t, h1, h2, key)
  {
    hide Items;
    forall s | 0 <= s < |Flat(t)| && Flat(t)[s].Some?
      ensures h1(Flat(t)[s].value.key) < |t.first| && h2(Flat(t)[s].value.key) < |t.first|
    {
      FlatContents(t);
      ItemsMember(Flat(t), Pair, Pair(Flat(t)[s].value));
    }
  }

  // After a failed attempt and its rehash the same may be said of the tables.
  lemma NextAttempt<K(!new), V(!new)>(t: Tables<K, V>, h1: K -> nat, h2: K -> nat, n: Node<K, V>, bound: nat)
    requires TablesOk(t, h1, h2) && |Contents(t)| < 256 && Below(Contents(t), h1, h2, n.key, bound)
    requires FirstTry(t, h1, h2, n).Dropped?
    ensures var next := Pass(FirstTry(t, h1, h2, n).tables, h1, h2);
            && next.Some? && |Contents(next.value)| < 256 && Below(Contents(next.value), h1, h2, n.key, bound)
            && |next.value.first| == 2 * |t.first|
  {
    hide Contents, FirstTry, Pass, Placed;
    var o := FirstTry(t, h1, h2, n);
    SameSizeAfterDrop(t, h1, h2, n);
    PassNeverFails(o.tables, h1, h2);
    FirstTryStoresWhen(t, h1, h2, n);
    var all := Contents(t) + multiset{Pair(n)};
    forall item | item in Contents(o.tables) ensures h1(item.0) < bound && h2(item.0) < bound {
      assert item in Contents(o.tables) + multiset{Pair(o.node)};
      assert item in all;
    }
  }

  // With fewer than 256 pairs, at most so many attempts fail as double the capacity above all
  // hash values, unless one of them meets a trapped key.
  lemma {:induction false} InsertReturnsWhen<K(!new), V(!new)>(t: Tables<K, V>, h1: K -> nat, h2: K -> nat, n: Node<K, V>,
                                                               k: nat, retries: nat)
    requires TablesOk(t, h1, h2) && |Contents(t)| < 256 && Below(Contents(t), h1, h2, n.key, Widened(|t.first|, k))
    ensures Snared(t, h1, h2, n, k) ==> !Insert(t, h1, h2, n, retries).Done?
    ensures !Snared(t, h1, h2, n, k) && retries >= k ==> Insert(t, h1, h2, n, retries).Done?
    decreases k
  {
    hide Contents, FirstTry, Pass, Placed, Trapped, Jammed, Below, ValuesBelow;
    var o := FirstTry(t, h1, h2, n);
    if Trapped(t, h1, h2, n.key) {
      InsertNeverReturns(t, h1, h2, n, retries);
    } else if o.Dropped? {
      SmallTableStoresWhen(t, h1, h2, n);
      if k == 0 {
        BelowIsValuesBelow(t, h1, h2, n.key);
        JammedIsTrapped(t, h1, h2, n);
      } else {
        NextAttempt(t, h1, h2, n, Widened(|t.first|, k));
        if retries > 0 {
          InsertReturnsWhen(Pass(o.tables, h1, h2).value, h1, h2, n, k - 1, retries - 1);
        }
      }
    }
  }

  // An insert into fewer than 256 pairs returns within some bounds if and only if none of the
  // attempts up to that capacity meets a trapped key; then it needs no more attempts than those.
  lemma ReturnsWhen<K(!new), V(!new)>(t: Tables<K, V>, h1: K -> nat, h2: K -> nat, moved: Node<K, V> -> Node<K, V>,
                                      n: Node<K, V>, k: nat, retries: nat, passes: nat)
    requires TablesOk(t, h1, h2) && |Contents(t)| < 256 && Below(Contents(t), h1, h2, n.key, Widened(|t.first|, k))
    ensures Start(t, h1, h2).Some?
    ensures EmplacedOn(t, h1, h2, moved, n, retries, passes).Returned? ==> !Snared(Start(t, h1, h2).value, h1, h2, n, k)
    ensures !Snared(Start(t, h1, h2).value, h1, h2, n, k) ==>
              (retries >= k ==> EmplacedOn(t, h1, h2, moved, n, retries, passes).Returned?)
  {
    hide Contents, Insert, InsertOn, Pass, Placed, Snared, Rehashed;
    PassNeverFails(t, h1, h2);
    SmallEmplacesRehash(t, h1, h2, n, retries);
    OnePassEmplace(t, h1, h2, moved, n, retries, passes);
    var start := Start(t, h1, h2).value;
    WidenedGrows(|t.first|, k);
    InsertReturnsWhen(start, h1, h2, n, k, retries);
  }

  lemma {:induction false} WidenedGrows(cap: nat, k: nat)
    ensures Widened(cap, k) <= Widened(2 * cap, k)
    decreases k
  {
    if k > 0 {
      WidenedGrows(2 * cap, k - 1);
    }
  }
}
