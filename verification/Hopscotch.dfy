// src/hashmap_hopscotch.hpp.
module Hopscotch {
  import opened HopscotchCrowding
  import opened HopscotchGrowth
  import opened HopscotchTable
  import opened OpenAddressing
  import opened Options

  class HashMapHopscotch<K(==), V> {
    const hash: K -> nat // hasher(key)
    const limit: nat // the largest capacity there is: a rehash beyond it fails
    var capacity: nat
    var buckets: seq<Option<Node<K, V>>>
    var neighbours: nat
    var hopInfo: seq<set<nat>>
    var size: nat

    ghost function Contents(): multiset<(K, V)>
      reads this
    {
      Items(buckets, Pair)
    }

    ghost predicate Sound()
      reads this
    {
      && |buckets| == |hopInfo| == capacity <= limit && IsPowerOfTwo(capacity) && IsPowerOfTwo(limit)
      && size == |Contents()| && size * 4 < capacity * 3
      && neighbours == ComputeNeighborhood(capacity)
      && HopsOk(hash, buckets, hopInfo, neighbours)
    }

    ghost predicate Valid()
      reads this
    {
      Sound() && Compact(hash, buckets, capacity)
    }

    predicate NeedsRehash()
      reads this
    {
      (size + 1) * 4 >= capacity * 3
    }

    constructor (hash: K -> nat, initialCapacity: nat, limit: nat)
      requires IsPowerOfTwo(limit) && initialCapacity <= limit
      ensures Valid() && Contents() == multiset{} && this.hash == hash && this.limit == limit
      ensures initialCapacity <= capacity && (capacity == 1 || capacity / 2 < initialCapacity)
    {
      var cap := NextPowerOfTwo(if initialCapacity < 1 then 1 else initialCapacity);
      if limit < cap {
        PowersApart(limit, cap);
      }
      this.hash, this.limit := hash, limit;
      capacity := cap;
      buckets := seq(cap, _ => None);
      neighbours := ComputeNeighborhood(cap);
      hopInfo := seq(cap, _ => {});
      size := 0;
      new;
      EmptyTable(hash, buckets, hopInfo, neighbours);
    }

    // An empty table of twice the capacity.
    method Double()
      requires Sound() && 2 * capacity <= limit
      modifies this
      ensures Valid() && Contents() == multiset{} && capacity == 2 * old(capacity)
      ensures Items([], Pair<K, V>) == multiset{}
    {
      capacity := 2 * capacity;
      neighbours := ComputeNeighborhood(capacity);
      size := 0;
      buckets := seq(capacity, _ => None);
      hopInfo := seq(capacity, _ => {});
      EmptyTable(hash, buckets, hopInfo, neighbours);
    }

    lemma TableFills()
      requires Sound()
      ensures |buckets| == |hopInfo| == capacity > 0 && size == |Contents()| && IsPowerOfTwo(capacity)
      ensures HopsOk(hash, buckets, hopInfo, neighbours) && neighbours == ComputeNeighborhood(capacity)
      ensures IsPowerOfTwo(limit) && capacity <= limit && size * 4 < capacity * 3
    {
    }

    // Rehashing can be needed again and again when keys collide; ok is false when the capacity
    // cannot be doubled any more. The source goes on, beyond what a size can hold.
    method Rehash() returns (ok: bool)
      requires Sound()
      modifies this
      decreases limit - capacity, 0
      ensures ok ==> Valid() && Contents() == old(Contents()) && 2 * old(capacity) <= capacity && size == old(size)
      ensures IsPowerOfTwo(limit)
      ensures Holdable(hash, limit, old(StoredPairs(buckets))) && old(capacity) < limit ==> ok
    {
      hide Items, Holdable, StoredPairs, IsPowerOfTwo, HashMapHopscotch.Valid, HashMapHopscotch.Sound;
      var oldBuckets := buckets;
      var oldCapacity := |buckets|;
      TableFills();
      if capacity < limit {
        PowersApart(capacity, limit);
      }
      if 2 * capacity > limit {
        return false;
      }
      Double();
      assert oldBuckets[..0] == [];
      var i := 0;
      while i < oldCapacity
        invariant 0 <= i <= oldCapacity
        invariant Valid() && 2 * oldCapacity <= capacity
        invariant Contents() == Items(oldBuckets[..i], Pair)
      {
        ItemsSplit(oldBuckets, Pair, i);
        SizeIs();
        if oldBuckets[i].Some? {
          HoldableNext(oldBuckets, i);
          ok := Emplace(oldBuckets[i].value.key, oldBuckets[i].value.value);
          if !ok {
            return false;
          }
        }
        i := i + 1;
      }
      assert oldBuckets[..oldCapacity] == oldBuckets;
      SizeIs();
      return true;
    }

    lemma HoldableNext(was: seq<Option<Node<K, V>>>, i: nat)
      requires Sound() && i < |was| && was[i].Some? && Contents() == Items(was[..i], Pair)
      ensures IsPowerOfTwo(limit)
      ensures Holdable(hash, limit, StoredPairs(was)) ==>
                Holdable(hash, limit, StoredPairs(buckets) + [Pair(was[i].value)])
    {
      hide Items, HopsOk, Holdable, StoredPairs;
      StoredAre(was[i].value.key, was[i].value.value);
      StoredAreItems(was);
      ItemsSplit(was, Pair, i);
      if Holdable(hash, limit, StoredPairs(was)) {
        HoldableFewer(hash, limit, StoredPairs(buckets) + [Pair(was[i].value)], StoredPairs(was));
      }
    }

    lemma SizeIs()
      requires Valid()
      ensures size == |Contents()| && size * 4 < capacity * 3 && Sound() && 0 < capacity <= limit && IsPowerOfTwo(limit)
      ensures IsPowerOfTwo(capacity) && neighbours == ComputeNeighborhood(capacity)
    {
    }

    method Emplace(key: K, value: V) returns (ok: bool)
      requires Valid()
      modifies this
      decreases limit - capacity, 3
      ensures ok ==> Valid() && Contents() == old(Contents()) + multiset{(key, value)}
      ensures ok ==> old(capacity) <= capacity
      ensures !old(NeedsRehash()) ==>
                (ok && capacity == old(capacity) <==>
                 !Crowded(hash, old(capacity), old(neighbours), old(StoredPairs(buckets)) + [(key, value)]))
      ensures IsPowerOfTwo(limit)
      ensures ok <==> Holdable(hash, limit, old(StoredPairs(buckets)) + [(key, value)])
    {
      hide HashMapHopscotch.Valid, HashMapHopscotch.Sound, HashMapHopscotch.Contents, Crowded, Holdable, IsPowerOfTwo,
           ComputeNeighborhood;
      ghost var was := StoredPairs(buckets) + [(key, value)];
      SizeIs();
      StoredAre(key, value);
      if NeedsRehash() {
        if Holdable(hash, limit, was) {
          LoadLeavesRoom(was);
        }
        ok := Rehash();
        if !ok {
          return false;
        }
        SizeIs();
      }
      HoldableHere(was, key, value);
      ok := EmplaceUnloaded(key, value);
    }

    method EmplaceUnloaded(key: K, value: V) returns (ok: bool)
      requires Valid() && !NeedsRehash()
      modifies this
      decreases limit - capacity, 2
      ensures ok ==> Valid() && Contents() == old(Contents()) + multiset{(key, value)}
      ensures ok ==> old(capacity) <= capacity
      ensures ok && capacity == old(capacity) <==>
                !Crowded(hash, old(capacity), old(neighbours), old(StoredPairs(buckets)) + [(key, value)])
      ensures IsPowerOfTwo(limit)
      ensures ok <==> Holdable(hash, limit, old(StoredPairs(buckets)) + [(key, value)])
    {
      hide HashMapHopscotch.Valid, HashMapHopscotch.Sound, HashMapHopscotch.Contents, Crowded, Holdable, IsPowerOfTwo,
           ComputeNeighborhood;
      ghost var was := StoredPairs(buckets) + [(key, value)];
      SizeIs();
      StoredAre(key, value);
      if Holdable(hash, limit, was) && capacity == limit {
        HoldableIsUncrowded(was);
      }
      ok := Place(key, value);
      if !ok {
        HoldableHere(was, key, value);
        ok := RehashAndRetry(key, value);
      }
      if ok {
        HeldIsHoldable(was);
      }
    }

    lemma HoldableIsUncrowded(pairs: seq<(K, V)>)
      requires Valid() && capacity == limit
      ensures IsPowerOfTwo(limit)
      ensures Holdable(hash, limit, pairs) ==> !Crowded(hash, capacity, neighbours, pairs)
    {
    }

    // The load factor asks for a rehash at no capacity that is large enough.
    lemma LoadLeavesRoom(pairs: seq<(K, V)>)
      requires Sound() && NeedsRehash() && Holdable(hash, limit, pairs) && |pairs| == size + 1
      requires multiset(StoredPairs(buckets)) <= multiset(pairs)
      ensures capacity < limit && Holdable(hash, limit, StoredPairs(buckets))
    {
      hide HopsOk, Crowded;
      HoldableFewer(hash, limit, StoredPairs(buckets), pairs);
    }

    lemma HoldableHere(pairs: seq<(K, V)>, key: K, value: V)
      requires Sound() && multiset(pairs) == Contents() + multiset{(key, value)}
      ensures IsPowerOfTwo(limit)
      ensures Holdable(hash, limit, pairs) <==> Holdable(hash, limit, StoredPairs(buckets) + [(key, value)])
    {
      hide Holdable, HopsOk, StoredPairs, Items;
      StoredAre(key, value);
      var here := StoredPairs(buckets) + [(key, value)];
      if Holdable(hash, limit, pairs) {
        HoldableFewer(hash, limit, here, pairs);
      }
      if Holdable(hash, limit, here) {
        HoldableFewer(hash, limit, pairs, here);
      }
    }

    // What a table holds at some capacity can be held at the largest one.
    lemma HeldIsHoldable(pairs: seq<(K, V)>)
      requires Valid() && multiset(pairs) == Contents()
      ensures IsPowerOfTwo(limit) && Holdable(hash, limit, pairs)
    {
      hide Items, HopsOk, Crowded, Compact;
      StoredUncrowded(pairs);
      assert |multiset(pairs)| == |pairs|;
      UncrowdedUpTo(hash, capacity, limit, pairs);
    }

    lemma StoredAre(key: K, value: V)
      requires Sound()
      ensures multiset(StoredPairs(buckets) + [(key, value)]) == Contents() + multiset{(key, value)}
      ensures multiset(StoredPairs(buckets)) == Contents() && |StoredPairs(buckets)| == size
    {
      hide Items, HopsOk;
      StoredAreItems(buckets);
      assert |multiset(StoredPairs(buckets))| == |StoredPairs(buckets)|;
    }

    // The rest of emplace up to the point where it rehashes and starts over.
    method Place(key: K, value: V) returns (placed: bool)
      requires Valid() && !NeedsRehash()
      modifies this
      ensures Sound() && capacity == old(capacity) && (placed ==> Valid())
      ensures Contents() == if placed then old(Contents()) + multiset{(key, value)} else old(Contents())
      ensures placed <==> !Crowded(hash, old(capacity), old(neighbours), old(StoredPairs(buckets)) + [(key, value)])
    {
      hide HashMapHopscotch.Sound, Crowded, HopsOk, LowBits, Items, StoredPairs, Dist, Compact, TakenUpTo,
           ComputeNeighborhood;
      TableFills();
      var index: nat := hash(key) % capacity;
      if hopInfo[index] == LowBits(neighbours) {
        FullIsCrowded(hash, buckets, hopInfo, neighbours, Node(key, value));
        return false;
      }
      ghost var was := StoredPairs(buckets) + [(key, value)];
      StoredAreItems(buckets);
      var last := FindFree(index);
      var j, near := Approach(index, last, Node(key, value));
      if near {
        Store(index, last, j, Node(key, value));
        StoredUncrowded(was);
      }
      TableFills();
      return near;
    }

    lemma StoredUncrowded(pairs: seq<(K, V)>)
      requires Sound() && multiset(pairs) == Contents()
      ensures !Crowded(hash, capacity, neighbours, pairs)
    {
      hide Items, HopsOk, IsPowerOfTwo, Crowded;
      TableIsUncrowded(hash, buckets, hopInfo, neighbours);
      StoredAreItems(buckets);
      CrowdedPermutes(hash, capacity, neighbours, StoredPairs(buckets), pairs);
    }

    // Nothing can be moved into a hole out of reach of index.
    lemma OutOfReach(index: nat, last: nat, j: nat, n: Node<K, V>)
      requires Sound() && !NeedsRehash() && index == Home(hash, n, capacity) && last < capacity && j < capacity
      requires buckets[j].None? && Compact(hash, buckets, j) && TakenUpTo(buckets, index, last, j)
      requires neighbours <= Dist(index, j, capacity) <= Dist(index, last, capacity) && Stuck(hash, buckets, neighbours, j)
      ensures Crowded(hash, capacity, neighbours, StoredPairs(buckets) + [Pair(n)])
      ensures multiset(StoredPairs(buckets) + [Pair(n)]) == Contents() + multiset{Pair(n)}
    {
      hide Items, HopsOk, IsPowerOfTwo, LowBits, Compact, Stuck, Crowded, Dist;
      TableFills();
      StoredAreItems(buckets);
      TakenUpToHole(buckets, index, last, j);
      ItemsUpdate(buckets, Pair, j, Some(n));
      assert |Items(buckets[j := Some(n)], Pair)| == |Items(buckets, Pair) + multiset{Pair(n)}| == size + 1;
      var free := SomeSlotIsFree(buckets[j := Some(n)], Pair);
      StuckIsCrowded(hash, buckets, hopInfo, neighbours, j, free, n);
    }

    // The hole is brought closer to index until it is in reach, or stuck.
    method Approach(index: nat, last: nat, n: Node<K, V>) returns (j: nat, near: bool)
      requires Valid() && !NeedsRehash() && index == Home(hash, n, capacity) && last < capacity && buckets[last].None?
      requires forall i :: 0 <= i < capacity && Dist(index, i, capacity) < Dist(index, last, capacity) ==> buckets[i].Some?
      modifies this
      ensures Sound() && capacity == old(capacity) && Contents() == old(Contents()) && !NeedsRehash()
      ensures j < capacity && buckets[j].None? && Compact(hash, buckets, j) && TakenUpTo(buckets, index, last, j)
      ensures Dist(index, j, capacity) <= Dist(index, last, capacity)
      ensures near <==> Dist(index, j, capacity) < neighbours
      ensures !near ==> Crowded(hash, capacity, neighbours, old(StoredPairs(buckets)) + [Pair(n)])
    {
      hide Items, HopsOk, IsPowerOfTwo, ComputeNeighborhood, LowBits, Compact, Stuck;
      ghost var was := StoredPairs(buckets) + [Pair(n)];
      StoredAreItems(buckets);
      CompactAnyway(hash, buckets, index, last);
      j := last;
      var moved := true;
      while Dist(index, j, capacity) >= neighbours
        invariant Sound() && Contents() == old(Contents()) && capacity == old(capacity) && !NeedsRehash()
        invariant 0 <= j < capacity && buckets[j].None? && Compact(hash, buckets, j) && TakenUpTo(buckets, index, last, j)
        invariant Dist(index, j, capacity) <= Dist(index, last, capacity)
        decreases Dist(index, j, capacity)
      {
        moved, j := Displace(index, last, j);
        if !moved {
          OutOfReach(index, last, j, n);
          CrowdedPermutes(hash, capacity, neighbours, StoredPairs(buckets) + [Pair(n)], was);
          return j, false;
        }
      }
      return j, true;
    }

    method RehashAndRetry(key: K, value: V) returns (ok: bool)
      requires Sound()
      modifies this
      decreases limit - capacity, 1
      ensures ok ==> Valid() && Contents() == old(Contents()) + multiset{(key, value)}
      ensures ok ==> 2 * old(capacity) <= capacity
      ensures IsPowerOfTwo(limit)
      ensures old(capacity) < limit && Holdable(hash, limit, old(StoredPairs(buckets)) + [(key, value)]) ==> ok
    {
      hide HashMapHopscotch.Valid, HashMapHopscotch.Sound, HashMapHopscotch.Contents, Crowded, Holdable, IsPowerOfTwo;
      ghost var was := StoredPairs(buckets) + [(key, value)];
      TableFills();
      StoredAre(key, value);
      if Holdable(hash, limit, was) {
        HoldableFewer(hash, limit, StoredPairs(buckets), was);
      }
      ok := Rehash();
      if ok {
        SizeIs();
        HoldableHere(was, key, value);
        ok := Emplace(key, value);
      }
    }

    // The first free slot at or after index.
    method FindFree(index: nat) returns (j: nat)
      requires Valid() && index < capacity
      ensures j < capacity && buckets[j].None?
      ensures forall i :: 0 <= i < capacity && Dist(index, i, capacity) < Dist(index, j, capacity) ==> buckets[i].Some?
    {
      hide Items, HopsOk, IsPowerOfTwo, ComputeNeighborhood, Compact;
      ghost var free := SomeSlotIsFree(buckets, Pair);
      j := index;
      while buckets[j].Some?
        invariant j < capacity && Dist(index, j, capacity) <= Dist(index, free, capacity)
        invariant forall i :: 0 <= i < capacity && Dist(index, i, capacity) < Dist(index, j, capacity) ==>
                    buckets[i].Some?
        decreases Dist(index, free, capacity) - Dist(index, j, capacity)
      {
        WrapOnce(j + 1, capacity);
        j := (j + 1) % capacity;
      }
    }

    method Store(index: nat, last: nat, j: nat, n: Node<K, V>)
      requires Sound() && !NeedsRehash() && index == Home(hash, n, capacity)
      requires last < capacity && j < capacity && buckets[j].None?
      requires Compact(hash, buckets, j) && TakenUpTo(buckets, index, last, j)
      requires Dist(index, j, capacity) <= Dist(index, last, capacity) && Dist(index, j, capacity) < neighbours
      modifies this
      ensures Valid() && capacity == old(capacity) && Contents() == old(Contents()) + multiset{Pair(n)}
    {
      hide Items, HopsOk, IsPowerOfTwo, ComputeNeighborhood, Dist, Compact;
      InsertKeepsHops(hash, buckets, hopInfo, neighbours, j, n);
      InsertKeepsCompact(hash, buckets, last, j, n);
      buckets := buckets[j := Some(n)];
      hopInfo := hopInfo[index := hopInfo[index] + {Dist(index, j, capacity)}];
      size := size + 1;
    }

    // One round of the displacement: some entry before the hole j is moved into it,
    // which brings the hole closer to index, or nothing can be moved and nothing changes.
    method Displace(index: nat, last: nat, j: nat) returns (moved: bool, hole: nat)
      requires Sound() && index < capacity && last < capacity && j < capacity && buckets[j].None?
      requires neighbours <= Dist(index, j, capacity) <= Dist(index, last, capacity)
      requires Compact(hash, buckets, j) && TakenUpTo(buckets, index, last, j)
      modifies this
      ensures Sound() && Contents() == old(Contents())
      ensures capacity == old(capacity) && size == old(size)
      ensures hole < capacity && buckets[hole].None?
      ensures Compact(hash, buckets, hole) && TakenUpTo(buckets, index, last, hole)
      ensures moved ==> Dist(index, hole, capacity) < Dist(index, j, capacity)
      ensures !moved ==> hole == j && buckets == old(buckets) && hopInfo == old(hopInfo)
      ensures !moved ==> Stuck(hash, buckets, neighbours, j)
    {
      hide HashMapHopscotch.Sound, HashMapHopscotch.Contents, HopsOk, Compact, TakenUpTo, Stuck, Dist;
      var k, bit;
      moved, k, bit := Search(j);
      if moved {
        MoveInto(index, last, k, bit, j);
        return true, Ahead(k, bit, capacity);
      }
      return false, j;
    }

    // An entry that can be moved into the hole j, from the furthest home on.
    method Search(j: nat) returns (found: bool, k: nat, bit: nat)
      requires Sound() && j < capacity && neighbours < capacity
      ensures found ==> k < capacity && bit in hopInfo[k] && bit < capacity && 0 < Dist(k, j, capacity) < neighbours
                        && Dist(Ahead(k, bit, capacity), j, capacity) < neighbours
      ensures !found ==> Stuck(hash, buckets, neighbours, j)
    {
      hide HashMapHopscotch.Sound, HopsOk, Stuck, Dist, StuckBelow, StuckBeyond;
      TableFills();
      AllInReach(hash, buckets, neighbours, j);
      found, k, bit := false, 0, 0;
      var offset := neighbours - 1;
      while offset > 0
        invariant 0 <= offset < neighbours && StuckBeyond(hash, buckets, neighbours, j, offset)
      {
        k := Behind(j, offset, capacity);
        found, bit := SearchHome(k, j);
        if found {
          return;
        }
        NextOffset(hash, buckets, hopInfo, neighbours, j, offset);
        offset := offset - 1;
      }
      NothingLeft(hash, buckets, neighbours, j);
    }

    method SearchHome(k: nat, j: nat) returns (found: bool, bit: nat)
      requires Sound() && j < capacity && k < capacity
      ensures found ==> bit in hopInfo[k] && bit < capacity && Dist(Ahead(k, bit, capacity), j, capacity) < neighbours
      ensures !found ==> StuckBelow(hash, buckets, neighbours, j, k, neighbours)
    {
      hide HashMapHopscotch.Sound, HopsOk, Dist, StuckBelow;
      TableFills();
      NoneBelow(hash, buckets, neighbours, j, k);
      bit := 0;
      while bit < neighbours
        invariant bit <= neighbours && StuckBelow(hash, buckets, neighbours, j, k, bit)
      {
        if bit in hopInfo[k] {
          BitIsSlot(hash, buckets, hopInfo, neighbours, k, bit);
          if Dist(Ahead(k, bit, capacity), j, capacity) < neighbours {
            return true, bit;
          }
        }
        NextBit(hash, buckets, hopInfo, neighbours, j, k, bit);
        bit := bit + 1;
      }
      found := false;
    }

    // The entry `bit` steps after its home k moves into the hole.
    method MoveInto(index: nat, last: nat, k: nat, bit: nat, j: nat)
      requires Sound() && index < capacity && last < capacity && j < capacity && buckets[j].None?
      requires neighbours <= Dist(index, j, capacity) <= Dist(index, last, capacity)
      requires Compact(hash, buckets, j) && TakenUpTo(buckets, index, last, j)
      requires k < capacity && bit in hopInfo[k] && bit < capacity && 0 < Dist(k, j, capacity) < neighbours
      requires Dist(Ahead(k, bit, capacity), j, capacity) < neighbours
      modifies this`buckets, this`hopInfo
      ensures var y := Ahead(k, bit, capacity);
              && Sound() && Contents() == old(Contents()) && buckets[y].None?
              && Compact(hash, buckets, y) && TakenUpTo(buckets, index, last, y)
              && Dist(index, y, capacity) < Dist(index, j, capacity)
    {
      hide Items, HopsOk, Compact, TakenUpTo, IsPowerOfTwo;
      var y := Ahead(k, bit, capacity);
      TableFills();
      BitIsSlot(hash, buckets, hopInfo, neighbours, k, bit);
      MoveKeepsHops(hash, buckets, hopInfo, neighbours, k, bit, j);
      MoveKeepsItems(buckets, j, y);
      MoveKeepsCompact(hash, buckets, index, last, k, y, j);
      buckets := buckets[j := buckets[y]][y := None];
      hopInfo := hopInfo[k := hopInfo[k] - {bit} + {Dist(k, j, capacity)}];
    }

    method Find(key: K) returns (r: Option<nat>)
      requires Valid()
      ensures r.Some? ==> r.value < capacity && buckets[r.value].Some? && buckets[r.value].value.key == key
      ensures r.Some? <==> HoldsKey(Contents(), key)
    {
      hide Items;
      ContentsHaveKey(buckets, Pair, key);
      var index := hash(key) % capacity;
      var hop := hopInfo[index];
      var bit := 0;
      while bit < neighbours
        invariant 0 <= bit <= neighbours
        invariant forall i :: 0 <= i < capacity && Dist(index, i, capacity) < bit ==> !HasKey(buckets, Pair, key, i)
      {
        if bit in hop {
          var j := Ahead(index, bit, capacity);
          if buckets[j].Some? && buckets[j].value.key == key {
            assert HasKey(buckets, Pair, key, j);
            return Some(j);
          }
        }
        bit := bit + 1;
      }
      forall i | 0 <= i < capacity ensures !HasKey(buckets, Pair, key, i) {
        assert Holds(hash, buckets, index, i) <==> Dist(index, i, capacity) in hop;
      }
      return None;
    }
  }

  // Any pairs put into an empty map, duplicates and rehashes included: the inserts all return if
  // and only if the largest capacity can hold the pairs, and then find hits exactly their keys.
  method InsertThenFind<K(==), V>(hash: K -> nat, initialCapacity: nat, pairs: seq<(K, V)>, key: K, limit: nat)
    returns (ok: bool, hit: bool)
    requires IsPowerOfTwo(limit) && initialCapacity <= limit
    ensures ok ==> (hit <==> IsInserted(pairs, key))
    ensures ok <==> Holdable(hash, limit, pairs)
  {
    hide Items, Holdable, StoredPairs, IsPowerOfTwo, HashMapHopscotch.Valid, HashMapHopscotch.Sound;
    var m := new HashMapHopscotch<K, V>(hash, initialCapacity, limit);
    for i := 0 to |pairs|
      invariant fresh(m) && m.Valid() && m.hash == hash && m.limit == limit && m.Contents() == multiset(pairs[..i])
    {
      m.SizeIs();
      assert pairs[..i + 1] == pairs[..i] + [pairs[i]];
      m.HoldableHere(pairs[..i + 1], pairs[i].0, pairs[i].1);
      FewerFirst(pairs, i + 1);
      if Holdable(hash, limit, pairs) {
        HoldableFewer(hash, limit, pairs[..i + 1], pairs);
      }
      ok := m.Emplace(pairs[i].0, pairs[i].1);
      if !ok {
        return false, false;
      }
    }
    assert pairs[..|pairs|] == pairs;
    m.HeldIsHoldable(pairs);
    HeldIsInserted(pairs, key);
    var r := m.Find(key);
    return true, r.Some?;
  }

  // 64 pairs of one key can be inserted when its hash value stays below the largest capacity.
  method EqualKeysFit<K(==), V>(hash: K -> nat, key: K, value: V, limit: nat) returns (ok: bool)
    requires IsPowerOfTwo(limit) && LARGE_TABLE <= limit && hash(key) + LARGEST_NEIGHBOURHOOD <= limit
    ensures ok
  {
    var pairs := seq(LARGEST_NEIGHBOURHOOD, _ => (key, value));
    var hit;
    FewTogether(hash, pairs);
    HoldableByIntervals(hash, limit, pairs);
    ok, hit := InsertThenFind(hash, 16, pairs, key, limit);
  }

  // The insert of a 65th pair of one key does not return, however large a table may be.
  method EqualKeysNeverReturn<K(==), V>(hash: K -> nat, key: K, value: V, limit: nat) returns (ok: bool)
    requires IsPowerOfTwo(limit) && 16 <= limit
    ensures !ok
  {
    var pairs := seq(LARGEST_NEIGHBOURHOOD + 1, _ => (key, value));
    var hit;
    TooManyTogether(hash, limit, pairs, hash(key), hash(key));
    ok, hit := InsertThenFind(hash, 16, pairs, key, limit);
  }

  // Nor does the insert of a 66th pair that has one of two neighbouring hash values.
  method NeighboursNeverReturn<V>(value: V, limit: nat) returns (ok: bool)
    requires IsPowerOfTwo(limit) && 16 <= limit
    ensures !ok
  {
    var pairs := seq(66, i => (if i % 2 == 0 then 7 else 8, value));
    var hit;
    TooManyTogether(IntHash, limit, pairs, 7, 8);
    ok, hit := InsertThenFind(IntHash, 16, pairs, 7, limit);
  }

  // Nor one of the int keys 0 and -1, up to the largest capacity of 64 bits, although no
  // interval of hash values has too many.
  method MinusOneAndZeroNeverReturn<V>(value: V, limit: nat) returns (ok: bool)
    requires IsPowerOfTwo(limit) && 16 <= limit <= TOP + 1
    ensures !ok
    ensures Uncrowded(IntHash, seq(33, _ => (0, value)) + seq(33, _ => (-1, value)))
  {
    var low, high := seq(33, _ => (0, value)), seq(33, _ => (-1, value));
    var hit;
    WrappedAreUncrowded(low, high);
    WrappedNotHoldable(IntHash, limit, low + high);
    ok, hit := InsertThenFind(IntHash, 16, low + high, 0, limit);
  }
}
