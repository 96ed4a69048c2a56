// src/hashmap_robinhood.hpp. The carried entry keeps the inserter's start slot after a
// swap, so a stored PSL is an over-estimate of the entry's distance from its own home.
module RobinHood {
  import opened OpenAddressing
  import opened Options

  datatype Node<K, V> = Node(key: K, value: V, psl: nat)

  function Pair<K, V>(n: Node<K, V>): (K, V) { (n.key, n.value) }

  // The slot at distance d from start is taken, by an entry with a PSL of d or more.
  ghost predicate Reaches<K, V>(buckets: seq<Option<Node<K, V>>>, start: nat, j: nat)
    requires start < |buckets| && j < |buckets|
  {
    buckets[j].Some? && Dist(start, j, |buckets|) <= buckets[j].value.psl
  }

  // The entry in slot i: its PSL bounds its displacement, and find cannot stop before it.
  ghost predicate EntryOk<K, V>(hash: K -> nat, buckets: seq<Option<Node<K, V>>>, i: nat)
    requires i < |buckets|
  {
    buckets[i].Some? ==>
      var n := buckets[i].value;
      var home := hash(n.key) % |buckets|;
      && Dist(home, i, |buckets|) <= n.psl < |buckets|
      && forall j :: 0 <= j < |buckets| && Dist(home, j, |buckets|) < Dist(home, i, |buckets|) ==> Reaches(buckets, home, j)
  }

  ghost predicate TableOk<K, V>(hash: K -> nat, buckets: seq<Option<Node<K, V>>>, maxPsl: nat) {
    && (forall i :: 0 <= i < |buckets| ==> EntryOk(hash, buckets, i))
    && (forall i :: 0 <= i < |buckets| && buckets[i].Some? ==> buckets[i].value.psl <= maxPsl)
  }

  // No slot is vacated and no stored PSL gets smaller.
  ghost predicate Grows<K, V>(before: seq<Option<Node<K, V>>>, after: seq<Option<Node<K, V>>>) {
    && |before| == |after|
    && forall i :: 0 <= i < |before| && before[i].Some? ==> after[i].Some? && before[i].value.psl <= after[i].value.psl
  }

  // Storing the carried entry at distance far from start, over an empty slot or a smaller PSL.
  lemma PlaceKeepsTable<K, V>(hash: K -> nat, buckets: seq<Option<Node<K, V>>>, maxPsl: nat, start: nat, i: nat,
                              n: Node<K, V>)
    requires TableOk(hash, buckets, maxPsl)
    requires start < |buckets| && i < |buckets| && n.psl == Dist(start, i, |buckets|)
    requires forall j :: 0 <= j < |buckets| && Dist(start, j, |buckets|) < n.psl ==> Reaches(buckets, start, j)
    requires Dist(start, hash(n.key) % |buckets|, |buckets|) <= n.psl
    requires buckets[i].None? || buckets[i].value.psl < n.psl
    ensures TableOk(hash, buckets[i := Some(n)], if maxPsl < n.psl then n.psl else maxPsl)
  {
    hide EntryOk;
    var after := buckets[i := Some(n)];
    forall k | 0 <= k < |buckets| ensures EntryOk(hash, after, k) {
      if k == i {
        PlacedIsOk(hash, buckets, start, i, n);
      } else {
        OtherStaysOk(hash, buckets, i, n, k);
      }
    }
  }

  lemma PlacedIsOk<K, V>(hash: K -> nat, buckets: seq<Option<Node<K, V>>>, start: nat, i: nat, n: Node<K, V>)
    requires start < |buckets| && i < |buckets| && n.psl == Dist(start, i, |buckets|)
    requires forall j :: 0 <= j < |buckets| && Dist(start, j, |buckets|) < n.psl ==> Reaches(buckets, start, j)
    requires Dist(start, hash(n.key) % |buckets|, |buckets|) <= n.psl
    ensures EntryOk(hash, buckets[i := Some(n)], i)
  {
    var after := buckets[i := Some(n)];
    var cap := |buckets|;
    var home := hash(n.key) % cap;
    forall j | 0 <= j < cap && Dist(home, j, cap) < Dist(home, i, cap) ensures Reaches(after, home, j) {
      assert Dist(start, j, cap) == Dist(start, home, cap) + Dist(home, j, cap);
      assert Reaches(buckets, start, j);
    }
  }

  lemma OtherStaysOk<K, V>(hash: K -> nat, buckets: seq<Option<Node<K, V>>>, i: nat, n: Node<K, V>, k: nat)
    requires i < |buckets| && k < |buckets| && k != i && EntryOk(hash, buckets, k)
    requires buckets[i].None? || buckets[i].value.psl < n.psl
    ensures EntryOk(hash, buckets[i := Some(n)], k)
  {
    var after := buckets[i := Some(n)];
    var cap := |buckets|;
    if after[k].Some? {
      var home := hash(after[k].value.key) % cap;
      forall j | 0 <= j < cap && Dist(home, j, cap) < Dist(home, k, cap) ensures Reaches(after, home, j) {
        assert Reaches(buckets, home, j);
      }
    }
  }

  lemma EmptyTable<K, V>(hash: K -> nat, buckets: seq<Option<Node<K, V>>>)
    requires forall i :: 0 <= i < |buckets| ==> buckets[i].None?
    ensures TableOk(hash, buckets, 0) && Items(buckets, Pair) == multiset{}
  {
    ItemsOfEmptySlots(buckets, Pair);
  }

  function Max(a: nat, b: nat): nat { if a < b then b else a }

  // What holds while `cur` is carried: the slots before `far` are passed for good, the home
  // of `cur` is not beyond them, and table plus carried pair is what emplace was given.
  ghost predicate Carrying<K, V>(hash: K -> nat, table: seq<Option<Node<K, V>>>, item: (K, V),
                                 buckets: seq<Option<Node<K, V>>>, maxPsl: nat, index: nat, far: nat, cur: (K, V))
  {
    && |table| == |buckets| && index < |buckets| && far < |buckets| && maxPsl < |buckets|
    && TableOk(hash, buckets, Max(maxPsl, far))
    && (forall j :: 0 <= j < |buckets| && Dist(index, j, |buckets|) < far ==> Reaches(buckets, index, j))
    && Dist(index, hash(cur.0) % |buckets|, |buckets|) <= far
    && Items(buckets, Pair) + multiset{cur} == Items(table, Pair) + multiset{item}
    && Grows(table, buckets)
  }

  lemma CarryingStarts<K, V>(hash: K -> nat, table: seq<Option<Node<K, V>>>, item: (K, V), maxPsl: nat, index: nat)
    requires index < |table| && index == hash(item.0) % |table| && maxPsl < |table| && TableOk(hash, table, maxPsl)
    ensures Carrying(hash, table, item, table, maxPsl, index, 0, item)
  {
    hide Items;
  }

  lemma CarriedIsPlaced<K, V>(hash: K -> nat, table: seq<Option<Node<K, V>>>, item: (K, V),
                              buckets: seq<Option<Node<K, V>>>, maxPsl: nat, index: nat, far: nat, cur: (K, V), i: nat)
    requires Carrying(hash, table, item, buckets, maxPsl, index, far, cur)
    requires i < |buckets| && buckets[i].None? && Dist(index, i, |buckets|) <= far
    ensures Dist(index, i, |buckets|) == far && Max(maxPsl, far) < |buckets| && far < |buckets|
    ensures var after := buckets[i := Some(Node(cur.0, cur.1, far))];
            && TableOk(hash, after, Max(maxPsl, far)) && Grows(table, after)
            && Items(after, Pair) == Items(table, Pair) + multiset{item}
            && |Items(after, Pair)| == |Items(table, Pair)| + 1
  {
    hide Items;
    PlaceKeepsTable(hash, buckets, Max(maxPsl, far), index, i, Node(cur.0, cur.1, far));
    ItemsUpdate(buckets, Pair, i, Some(Node(cur.0, cur.1, far)));
  }

  // A taken slot is not the free one.
  lemma BeforeFree<K, V>(buckets: seq<Option<Node<K, V>>>, index: nat, i: nat, free: nat)
    requires index < |buckets| && i < |buckets| && free < |buckets| && buckets[i].Some? && buckets[free].None?
    ensures Dist(index, i, |buckets|) != Dist(index, free, |buckets|)
  {
  }

  // Only at the furthest slot reached can a smaller PSL be met.
  lemma SwapIsFurthest<K, V>(hash: K -> nat, table: seq<Option<Node<K, V>>>, item: (K, V),
                             buckets: seq<Option<Node<K, V>>>, maxPsl: nat, index: nat, far: nat, cur: (K, V), i: nat)
    requires Carrying(hash, table, item, buckets, maxPsl, index, far, cur)
    requires i < |buckets| && buckets[i].Some? && buckets[i].value.psl < Dist(index, i, |buckets|) <= far
    ensures Dist(index, i, |buckets|) == far
  {
  }

  lemma CarriedIsSwapped<K, V>(hash: K -> nat, table: seq<Option<Node<K, V>>>, item: (K, V),
                               buckets: seq<Option<Node<K, V>>>, maxPsl: nat, index: nat, far: nat, cur: (K, V), i: nat)
    requires Carrying(hash, table, item, buckets, maxPsl, index, far, cur)
    requires far + 1 < |buckets|
    requires i < |buckets| && buckets[i].Some? && buckets[i].value.psl < Dist(index, i, |buckets|) <= far
    ensures Dist(index, i, |buckets|) == far && buckets[i].value.psl < far
    ensures var was := buckets[i].value;
            var after := buckets[i := Some(Node(cur.0, cur.1, far))];
            Carrying(hash, table, item, after, Max(maxPsl, was.psl + 1), index, far + 1, Pair(was))
  {
    hide Items;
    var n := Node(cur.0, cur.1, far);
    var after := buckets[i := Some(n)];
    assert EntryOk(hash, buckets, i);
    PlaceKeepsTable(hash, buckets, Max(maxPsl, far), index, i, n);
    ItemsUpdate(buckets, Pair, i, Some(n));
    var was := buckets[i].value;
    assert TableOk(hash, after, Max(Max(maxPsl, was.psl + 1), far + 1));
    assert Items(after, Pair) + multiset{Pair(was)} == Items(table, Pair) + multiset{item};
    assert Grows(table, after);
    forall j | 0 <= j < |buckets| && Dist(index, j, |buckets|) < far + 1 ensures Reaches(after, index, j) {
      assert j != i ==> Reaches(buckets, index, j);
    }
    assert Dist(index, hash(was.key) % |buckets|, |buckets|) <= far + 1;
  }

  lemma CarriedPasses<K, V>(hash: K -> nat, table: seq<Option<Node<K, V>>>, item: (K, V),
                            buckets: seq<Option<Node<K, V>>>, maxPsl: nat, index: nat, far: nat, cur: (K, V), i: nat)
    requires Carrying(hash, table, item, buckets, maxPsl, index, far, cur)
    requires far + 1 < |buckets| && i < |buckets| && Dist(index, i, |buckets|) == far && Reaches(buckets, index, i)
    ensures Carrying(hash, table, item, buckets, maxPsl, index, far + 1, cur)
  {
  }

  // A probe that meets an empty slot, a smaller PSL or the largest PSL has missed nothing.
  lemma MissIsFinal<K, V>(hash: K -> nat, buckets: seq<Option<Node<K, V>>>, maxPsl: nat, key: K, psl: nat)
    requires |buckets| > 0 && TableOk(hash, buckets, maxPsl)
    requires forall j :: 0 <= j < |buckets| && Dist(hash(key) % |buckets|, j, |buckets|) < psl ==>
               !HasKey(buckets, Pair, key, j)
    requires maxPsl < psl ||
             (psl < |buckets| && var i := Ahead(hash(key) % |buckets|, psl, |buckets|);
              !HasKey(buckets, Pair, key, i) && !Reaches(buckets, hash(key) % |buckets|, i))
    ensures forall j :: 0 <= j < |buckets| ==> !HasKey(buckets, Pair, key, j)
  {
    forall j | 0 <= j < |buckets| ensures !HasKey(buckets, Pair, key, j) {
      assert EntryOk(hash, buckets, j);
    }
  }

  class HashMapRobinhood<K(==), V> {
    const hash: K -> nat // mix_hash(hasher(key))
    var capacity: nat
    var buckets: seq<Option<Node<K, V>>>
    var size: nat
    var maxPsl: nat

    ghost function Contents(): multiset<(K, V)>
      reads this
    {
      Items(buckets, Pair)
    }

    ghost predicate Valid()
      reads this
    {
      && |buckets| == capacity && IsPowerOfTwo(capacity)
      && size == |Contents()| && size * 4 < capacity * 3
      && maxPsl < capacity && TableOk(hash, buckets, maxPsl)
    }

    constructor (hash: K -> nat, initialCapacity: nat)
      ensures Valid() && Contents() == multiset{} && this.hash == hash
      ensures initialCapacity <= capacity
    {
      var cap := NextPowerOfTwo(if initialCapacity < 1 then 1 else initialCapacity);
      this.hash := hash;
      capacity := cap;
      buckets := seq(cap, _ => None);
      size, maxPsl := 0, 0;
      new;
      EmptyTable(hash, buckets);
    }

    predicate NeedsRehash()
      reads this
    {
      (size + 1) * 4 >= capacity * 3
    }

    lemma TableFills()
      requires Valid()
      ensures |buckets| == capacity && size == |Contents()| && size * 4 < capacity * 3
    {
    }

    // The insertion loop of emplace, after its rehash check.
    method Place(key: K, value: V)
      requires Valid() && !NeedsRehash()
      modifies this
      decreases 0
      ensures Valid() && capacity == old(capacity)
      ensures Contents() == old(Contents()) + multiset{(key, value)}
      ensures Grows(old(buckets), buckets)
    {
      hide Items, Carrying, TableOk, IsPowerOfTwo, Grows, Dist, Ahead;
      ghost var table := buckets;
      var index := hash(key) % capacity;
      var psl: nat := 0;
      var cur := (key, value);
      ghost var free := SomeSlotIsFree(buckets, Pair);
      CarryingStarts(hash, buckets, (key, value), maxPsl, index);
      ghost var far: nat := 0; // every slot nearer to index than this has been reached
      while true
        invariant size == |Items(table, Pair)| && (size + 1) * 4 < capacity * 3 && IsPowerOfTwo(capacity)
        invariant |buckets| == capacity == |table| && index < capacity
        invariant free < |table| && buckets[free].None?
        invariant Carrying(hash, table, (key, value), buckets, maxPsl, index, far, cur)
        invariant psl <= far <= Dist(index, free, capacity)
        decreases Dist(index, free, capacity) - far, far - psl
      {
        var i := Ahead(index, psl, capacity);
        if buckets[i].Some? {
          BeforeFree(buckets, index, i, free);
        }
        if buckets[i].None? {
          CarriedIsPlaced(hash, table, (key, value), buckets, maxPsl, index, far, cur, i);
          buckets := buckets[i := Some(Node(cur.0, cur.1, psl))];
          size := size + 1;
          maxPsl := Max(maxPsl, psl);
          return;
        } else if psl > buckets[i].value.psl {
          var oldNode := buckets[i].value;
          SwapIsFurthest(hash, table, (key, value), buckets, maxPsl, index, far, cur, i);
          CarriedIsSwapped(hash, table, (key, value), buckets, maxPsl, index, far, cur, i);
          buckets := buckets[i := Some(Node(cur.0, cur.1, psl))];
          cur := Pair(oldNode);
          psl := oldNode.psl + 1;
          maxPsl := Max(maxPsl, psl);
          far := far + 1;
        } else {
          if psl == far {
            CarriedPasses(hash, table, (key, value), buckets, maxPsl, index, far, cur, i);
            far := far + 1;
          }
          psl := psl + 1;
        }
      }
    }

    // An empty table of twice the capacity.
    method Double()
      requires Valid()
      modifies this
      ensures Valid() && Contents() == multiset{} && capacity == 2 * old(capacity)
      ensures Items([], Pair<K, V>) == multiset{}
    {
      capacity := 2 * capacity;
      size, maxPsl := 0, 0;
      buckets := seq(capacity, _ => None);
      EmptyTable(hash, buckets);
    }

    method Rehash()
      requires Valid()
      modifies this
      decreases 2
      ensures Valid() && Contents() == old(Contents())
      ensures capacity == 2 * old(capacity)
    {
      hide Items, HashMapRobinhood.Valid;
      var oldBuckets := buckets;
      var oldCapacity := |buckets|;
      TableFills();
      Double();
      assert oldBuckets[..0] == [];
      var i := 0;
      while i < oldCapacity
        invariant 0 <= i <= oldCapacity
        invariant Valid() && capacity == 2 * oldCapacity
        invariant Contents() == Items(oldBuckets[..i], Pair)
      {
        ItemsSplit(oldBuckets, Pair, i);
        TableFills();
        if oldBuckets[i].Some? {
          Emplace(oldBuckets[i].value.key, oldBuckets[i].value.value);
        }
        i := i + 1;
      }
      assert oldBuckets[..oldCapacity] == oldBuckets;
    }

    // Both emplace overloads: they differ only in moving or copying the arguments.
    method Emplace(key: K, value: V)
      requires Valid()
      modifies this
      decreases if NeedsRehash() then 3 else 1
      ensures Valid()
      ensures Contents() == old(Contents()) + multiset{(key, value)}
      ensures capacity == if old(NeedsRehash()) then 2 * old(capacity) else old(capacity)
      ensures !old(NeedsRehash()) ==> Grows(old(buckets), buckets)
    {
      if NeedsRehash() {
        Rehash();
      }
      Place(key, value);
    }

    // find: the slot of an entry with this key, or None where the source returns end().
    method Find(key: K) returns (r: Option<nat>)
      requires Valid()
      ensures r.Some? ==> r.value < capacity && buckets[r.value].Some? && buckets[r.value].value.key == key
      ensures r.Some? <==> HoldsKey(Contents(), key)
    {
      var index := hash(key) % capacity;
      var psl: nat := 0;
      ContentsHaveKey(buckets, Pair, key);
      while psl <= maxPsl
        invariant 0 <= psl <= maxPsl + 1
        invariant forall j :: 0 <= j < capacity && Dist(index, j, capacity) < psl ==> !HasKey(buckets, Pair, key, j)
      {
        var i := Ahead(index, psl, capacity);
        if buckets[i].None? {
          MissIsFinal(hash, buckets, maxPsl, key, psl);
          return None;
        }
        if buckets[i].value.key == key {
          assert HasKey(buckets, Pair, key, i);
          return Some(i);
        }
        if buckets[i].value.psl < psl {
          MissIsFinal(hash, buckets, maxPsl, key, psl);
          return None;
        }
        psl := psl + 1;
      }
      MissIsFinal(hash, buckets, maxPsl, key, psl);
      return None;
    }
  }

  // Any pairs put into an empty map, duplicates and rehashes included: find hits exactly the
  // keys among them.
  method InsertThenFind<K(==), V>(hash: K -> nat, initialCapacity: nat, pairs: seq<(K, V)>, key: K) returns (hit: bool)
    ensures hit <==> IsInserted(pairs, key)
  {
    hide Items, HashMapRobinhood.Valid;
    var m := new HashMapRobinhood<K, V>(hash, initialCapacity);
    for i := 0 to |pairs|
      invariant fresh(m) && m.Valid() && m.Contents() == multiset(pairs[..i])
    {
      m.Emplace(pairs[i].0, pairs[i].1);
      assert pairs[..i + 1] == pairs[..i] + [pairs[i]];
    }
    assert pairs[..|pairs|] == pairs;
    HeldIsInserted(pairs, key);
    var r := m.Find(key);
    hit := r.Some?;
  }
}
