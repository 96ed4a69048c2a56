// When a table of HashMapHopscotch (src/hashmap_hopscotch.hpp) has no room for a key: too
// many keys with homes too close to each other.
module HopscotchCrowding {
  import opened Bags
  import opened HopscotchTable
  import opened OpenAddressing
  import opened Options

  // The pairs of a table, slot by slot.
  ghost function StoredPairs<K, V>(buckets: seq<Option<Node<K, V>>>): seq<(K, V)> {
    Listed(buckets, Pair)
  }

  lemma StoredAreItems<K, V>(buckets: seq<Option<Node<K, V>>>)
    ensures multiset(StoredPairs(buckets)) == Items(buckets, Pair)
  {
    ListedAreItems(buckets, Pair<K, V>);
  }

  lemma {:induction false} SlotsWithin(h: nat, cap: nat, n: nat, slots: set<nat>)
    requires h < cap && forall i :: i in slots ==> i < cap && Dist(h, i, cap) < n
    ensures |slots| <= n
  {
    if n == 0 {
      assert slots == {};
    } else if last :| last in slots && Dist(h, last, cap) == n - 1 {
      SlotsWithin(h, cap, n - 1, slots - {last});
    } else {
      SlotsWithin(h, cap, n - 1, slots);
    }
  }

  // The slots within n steps of h.
  ghost function Arc(h: nat, n: nat, cap: nat): set<nat>
    requires h < cap
  {
    set i: nat | i < cap && Dist(h, i, cap) < n
  }

  lemma {:induction false} ArcSize(h: nat, n: nat, cap: nat)
    requires h < cap && n <= cap
    ensures |Arc(h, n, cap)| == n
  {
    if n == 0 {
      assert Arc(h, n, cap) == {};
    } else {
      ArcSize(h, n - 1, cap);
      var last := Ahead(h, n - 1, cap);
      assert Arc(h, n, cap) == Arc(h, n - 1, cap) + {last};
    }
  }

  lemma AtLeast<K, V>(buckets: seq<Option<Node<K, V>>>, h: nat, n: nat, p: ((K, V)) -> bool)
    requires h < |buckets| && n <= |buckets|
    requires forall i :: 0 <= i < |buckets| && Dist(h, i, |buckets|) < n ==> buckets[i].Some? && p(Pair(buckets[i].value))
    ensures n <= |Filter(StoredPairs(buckets), p)|
  {
    CountSlots(buckets, Pair, p);
    ArcSize(h, n, |buckets|);
    SubsetIsSmaller(Arc(h, n, |buckets|), SlotsWith(buckets, Pair, p));
  }

  lemma AtMost<K, V>(buckets: seq<Option<Node<K, V>>>, h: nat, n: nat, p: ((K, V)) -> bool)
    requires h < |buckets|
    requires forall i :: 0 <= i < |buckets| && buckets[i].Some? && p(Pair(buckets[i].value)) ==> Dist(h, i, |buckets|) < n
    ensures |Filter(StoredPairs(buckets), p)| <= n
  {
    CountSlots(buckets, Pair, p);
    SlotsWithin(h, |buckets|, n, SlotsWith(buckets, Pair, p));
  }

  // The pairs with homes on the arc of length n from slot a.
  ghost function HomeOn<K, V>(hash: K -> nat, cap: nat, a: nat, n: nat): ((K, V)) -> bool
    requires a < cap
  {
    (pair: (K, V)) => Dist(a, hash(pair.0) % cap, cap) < n
  }

  ghost predicate Overfull<K, V>(hash: K -> nat, cap: nat, neighbours: nat, pairs: seq<(K, V)>, a: nat, n: nat)
    requires a < cap
  {
    |Filter(pairs, HomeOn(hash, cap, a, n))| >= n + neighbours
  }

  // Some arc of homes has more keys than the slots they can reach.
  ghost predicate Crowded<K, V>(hash: K -> nat, cap: nat, neighbours: nat, pairs: seq<(K, V)>) {
    exists a, n :: 0 <= a < cap && 0 < n <= cap && Overfull(hash, cap, neighbours, pairs, a, n)
  }

  // A table with exact hop bits is not crowded.
  lemma TableIsUncrowded<K, V>(hash: K -> nat, buckets: seq<Option<Node<K, V>>>, hops: seq<set<nat>>, neighbours: nat)
    requires HopsOk(hash, buckets, hops, neighbours) && neighbours > 0
    ensures !Crowded(hash, |buckets|, neighbours, StoredPairs(buckets))
  {
    var cap := |buckets|;
    forall a, n | 0 <= a < cap && 0 < n <= cap ensures !Overfull(hash, cap, neighbours, StoredPairs(buckets), a, n) {
      forall i | 0 <= i < cap && buckets[i].Some? && HomeOn(hash, cap, a, n)(Pair(buckets[i].value))
        ensures Dist(a, i, cap) < n + neighbours - 1
      {
        NearHome(hash, buckets, hops, neighbours, i);
      }
      AtMost(buckets, a, n + neighbours - 1, HomeOn(hash, cap, a, n));
    }
  }

  lemma NearHome<K, V>(hash: K -> nat, buckets: seq<Option<Node<K, V>>>, hops: seq<set<nat>>, neighbours: nat, i: nat)
    requires HopsOk(hash, buckets, hops, neighbours) && i < |buckets| && buckets[i].Some?
    ensures var h := Home(hash, buckets[i].value, |buckets|);
            Dist(h, i, |buckets|) < neighbours && Dist(h, i, |buckets|) in hops[h]
  {
    assert Holds(hash, buckets, Home(hash, buckets[i].value, |buckets|), i);
  }

  lemma LowBitsAre(n: nat)
    ensures forall b :: 0 <= b < n ==> b in LowBits(n)
  {
  }

  // A home whose hop bits are all set is crowded by one more key.
  lemma FullIsCrowded<K, V>(hash: K -> nat, buckets: seq<Option<Node<K, V>>>, hops: seq<set<nat>>, neighbours: nat,
                            n: Node<K, V>)
    requires HopsOk(hash, buckets, hops, neighbours) && |buckets| > 0 && neighbours > 0
    requires hops[Home(hash, n, |buckets|)] == LowBits(neighbours)
    ensures Crowded(hash, |buckets|, neighbours, StoredPairs(buckets) + [Pair(n)])
  {
    var cap, a := |buckets|, Home(hash, n, |buckets|);
    LowBitsAre(neighbours);
    assert neighbours - 1 in hops[a];
    forall i | 0 <= i < cap && Dist(a, i, cap) < neighbours
      ensures buckets[i].Some? && HomeOn(hash, cap, a, 1)(Pair(buckets[i].value))
    {
      assert Holds(hash, buckets, a, i);
    }
    AtLeast(buckets, a, neighbours, HomeOn(hash, cap, a, 1));
    FilterAppend(StoredPairs(buckets), Pair(n), HomeOn(hash, cap, a, 1));
    assert Overfull(hash, cap, neighbours, StoredPairs(buckets) + [Pair(n)], a, 1);
  }

  // The last free slot before the hole j.
  lemma {:induction false} FreeBefore<T>(buckets: seq<Option<T>>, j: nat, d: nat) returns (f: nat)
    requires j < |buckets| && d < |buckets| && buckets[Behind(j, d, |buckets|)].None? && d > 0
    ensures f < |buckets| && f != j && buckets[f].None?
    ensures forall i :: 0 <= i < |buckets| && 0 < Dist(i, j, |buckets|) < Dist(f, j, |buckets|) ==> buckets[i].Some?
  {
    if e :| 0 < e < d && buckets[Behind(j, e, |buckets|)].None? {
      f := FreeBefore(buckets, j, e);
    } else {
      f := Behind(j, d, |buckets|);
      forall i | 0 <= i < |buckets| && 0 < Dist(i, j, |buckets|) < d ensures buckets[i].Some? {
        assert Behind(j, Dist(i, j, |buckets|), |buckets|) == i;
      }
    }
  }

  lemma FreeBehind<T>(buckets: seq<Option<T>>, index: nat, j: nat, free: nat) returns (f: nat)
    requires j < |buckets| && index < |buckets| && free < |buckets| && free != j && buckets[free].None?
    requires TakenUpTo(buckets, index, j, j)
    ensures f < |buckets| && f != j && buckets[f].None?
    ensures forall i :: 0 <= i < |buckets| && 0 < Dist(i, j, |buckets|) < Dist(f, j, |buckets|) ==> buckets[i].Some?
    ensures var a := Ahead(f, 1, |buckets|);
            && Dist(a, j, |buckets|) == Dist(f, j, |buckets|) - 1
            && Dist(a, index, |buckets|) + Dist(index, j, |buckets|) == Dist(a, j, |buckets|)
  {
    var cap := |buckets|;
    assert Behind(j, Dist(free, j, cap), cap) == free;
    f := FreeBefore(buckets, j, Dist(free, j, cap));
    assert Dist(index, f, cap) > Dist(index, j, cap);
  }

  // The hole is out of reach of index and stuck: the entries between the last free slot and
  // the hole fill every slot that their homes can reach, and the new key's home is one of them.
  lemma StuckIsCrowded<K, V>(hash: K -> nat, buckets: seq<Option<Node<K, V>>>, hops: seq<set<nat>>, neighbours: nat, j: nat,
                             free: nat, n: Node<K, V>)
    requires HopsOk(hash, buckets, hops, neighbours) && j < |buckets| && 0 < neighbours && 2 * neighbours <= |buckets|
    requires Compact(hash, buckets, j) && buckets[j].None? && Stuck(hash, buckets, neighbours, j)
    requires free < |buckets| && free != j && buckets[free].None?
    requires TakenUpTo(buckets, Home(hash, n, |buckets|), j, j) && neighbours <= Dist(Home(hash, n, |buckets|), j, |buckets|)
    ensures Crowded(hash, |buckets|, neighbours, StoredPairs(buckets) + [Pair(n)])
  {
    var cap, index := |buckets|, Home(hash, n, |buckets|);
    hide HopsOk, Compact, Stuck, StoredPairs, Filter, Dist;
    var f := FreeBehind(buckets, index, j, free);
    var a := Ahead(f, 1, cap);
    var all := Dist(a, j, cap);
    var len := all - neighbours + 1;
    forall i | 0 <= i < cap && Dist(a, i, cap) < all
      ensures buckets[i].Some? && HomeOn(hash, cap, a, len)(Pair(buckets[i].value))
    {
      WithinBlock(f, i, j, cap);
      HomeInBlock(hash, buckets, hops, neighbours, j, f, i);
    }
    AtLeast(buckets, a, all, HomeOn(hash, cap, a, len));
    FilterAppend(StoredPairs(buckets), Pair(n), HomeOn(hash, cap, a, len));
    assert Overfull(hash, cap, neighbours, StoredPairs(buckets) + [Pair(n)], a, len);
  }

  lemma WithinBlock(f: nat, i: nat, j: nat, cap: nat)
    requires f < cap && i < cap && j < cap && f != j && Dist(Ahead(f, 1, cap), i, cap) < Dist(Ahead(f, 1, cap), j, cap)
    ensures 0 < Dist(i, j, cap) < Dist(f, j, cap)
  {
  }

  lemma HomeInBlock<K, V>(hash: K -> nat, buckets: seq<Option<Node<K, V>>>, hops: seq<set<nat>>, neighbours: nat, j: nat,
                          f: nat, i: nat)
    requires HopsOk(hash, buckets, hops, neighbours) && j < |buckets| && 0 < neighbours && 2 * neighbours <= |buckets|
    requires Compact(hash, buckets, j) && Stuck(hash, buckets, neighbours, j)
    requires f < |buckets| && f != j && buckets[f].None? && i < |buckets| && buckets[i].Some?
    requires 0 < Dist(i, j, |buckets|) < Dist(f, j, |buckets|)
    ensures var a, h := Ahead(f, 1, |buckets|), Home(hash, buckets[i].value, |buckets|);
            Dist(a, h, |buckets|) + neighbours <= Dist(a, j, |buckets|)
  {
    var cap, h := |buckets|, Home(hash, buckets[i].value, |buckets|);
    NearHome(hash, buckets, hops, neighbours, i);
    assert Holds(hash, buckets, h, i);
    assert !OnWay(hash, buckets, i, f);
    assert Dist(h, i, cap) < Dist(h, f, cap);
  }

  lemma CrowdedPermutes<K, V>(hash: K -> nat, cap: nat, neighbours: nat, a: seq<(K, V)>, b: seq<(K, V)>)
    requires multiset(a) == multiset(b)
    ensures Crowded(hash, cap, neighbours, a) <==> Crowded(hash, cap, neighbours, b)
  {
    forall s, n | 0 <= s < cap && 0 < n <= cap
      ensures Overfull(hash, cap, neighbours, a, s, n) <==> Overfull(hash, cap, neighbours, b, s, n)
    {
      FilterPermute(a, b, HomeOn(hash, cap, s, n));
    }
  }
}
