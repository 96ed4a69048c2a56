// The table of HashMapHopscotch (src/hashmap_hopscotch.hpp): hop bits, displacements, and
// the free slots around an entry. A 64-bit hop_info word is written as the set of its one bits.
module HopscotchTable {
  import opened Bags
  import opened OpenAddressing
  import opened Options

  datatype Node<K, V> = Node(key: K, value: V)

  function Pair<K, V>(n: Node<K, V>): (K, V) { (n.key, n.value) }

  function ComputeNeighborhood(cap: nat): (n: nat)
    requires IsPowerOfTwo(cap)
    ensures 0 < n <= 64 && (n < cap ==> 2 * n <= cap)
  {
    if cap < 2048 then assert cap > 4 ==> IsPowerOfTwo(cap / 2) && (cap / 2 > 2 ==> IsPowerOfTwo(cap / 2 / 2)); 4
    else if cap < 16384 then 8
    else if cap < 262144 then 16
    else if cap < 4194304 then 32
    else 64
  }

  // (1 << n) - 1
  function LowBits(n: nat): set<nat> {
    if n == 0 then {} else LowBits(n - 1) + {n - 1}
  }

  // Slot i holds an entry whose home is h.
  ghost predicate Holds<K, V>(hash: K -> nat, buckets: seq<Option<Node<K, V>>>, h: nat, i: nat)
    requires i < |buckets|
  {
    buckets[i].Some? && hash(buckets[i].value.key) % |buckets| == h
  }

  // The bit of hop_info[h] for slot i is set exactly when slot i holds an entry with home h,
  // no other bit is set, and every entry lies within its neighbourhood.
  ghost predicate HopsOk<K, V>(hash: K -> nat, buckets: seq<Option<Node<K, V>>>, hops: seq<set<nat>>, neighbours: nat) {
    && |hops| == |buckets|
    && (forall h, i :: 0 <= h < |buckets| && 0 <= i < |buckets| ==>
          (Dist(h, i, |buckets|) in hops[h] <==> Holds(hash, buckets, h, i)))
    && (forall h, b :: 0 <= h < |buckets| && b in hops[h] ==> b < |buckets| && b < neighbours)
  }

  lemma EmptyTable<K, V>(hash: K -> nat, buckets: seq<Option<Node<K, V>>>, hops: seq<set<nat>>, neighbours: nat)
    requires |hops| == |buckets|
    requires forall i :: 0 <= i < |buckets| ==> buckets[i].None? && hops[i] == {}
    ensures HopsOk(hash, buckets, hops, neighbours) && Items(buckets, Pair) == multiset{}
  {
    ItemsOfEmptySlots(buckets, Pair);
  }

  // One displacement: the entry `bit` steps after k, whose home is k, moves into the hole j.
  lemma MoveKeepsHops<K, V>(hash: K -> nat, buckets: seq<Option<Node<K, V>>>, hops: seq<set<nat>>, neighbours: nat,
                            k: nat, bit: nat, j: nat)
    requires HopsOk(hash, buckets, hops, neighbours) && 2 * neighbours <= |buckets|
    requires k < |buckets| && j < |buckets| && bit in hops[k] && buckets[j].None?
    requires 0 < Dist(k, j, |buckets|) < neighbours
    requires Dist(Ahead(k, bit, |buckets|), j, |buckets|) < neighbours
    ensures var y := Ahead(k, bit, |buckets|);
            var moved := buckets[j := buckets[y]][y := None];
            && HopsOk(hash, moved, hops[k := hops[k] - {bit} + {Dist(k, j, |buckets|)}], neighbours)
            && moved[y].None? && 0 < Dist(y, j, |buckets|)
  {
    var cap := |buckets|;
    var y := Ahead(k, bit, cap);
    var moved := buckets[j := buckets[y]][y := None];
    var hops' := hops[k := hops[k] - {bit} + {Dist(k, j, cap)}];
    assert Holds(hash, buckets, k, y);
    forall h, i | 0 <= h < cap && 0 <= i < cap
      ensures Dist(h, i, cap) in hops'[h] <==> Holds(hash, moved, h, i)
    {
      assert Dist(h, i, cap) in hops[h] <==> Holds(hash, buckets, h, i);
    }
  }

  lemma MoveKeepsItems<K, V>(buckets: seq<Option<Node<K, V>>>, j: nat, y: nat)
    requires j < |buckets| && y < |buckets| && j != y && buckets[j].None?
    ensures Items(buckets[j := buckets[y]][y := None], Pair) == Items(buckets, Pair)
  {
    ItemsUpdate(buckets, Pair, j, buckets[y]);
    ItemsUpdate(buckets[j := buckets[y]], Pair, y, None);
    Cancel(Items(buckets[j := buckets[y]][y := None], Pair), Items(buckets, Pair), One(buckets[y], Pair));
  }

  // Storing the new entry in the free slot j of its neighbourhood.
  lemma InsertKeepsHops<K, V>(hash: K -> nat, buckets: seq<Option<Node<K, V>>>, hops: seq<set<nat>>, neighbours: nat,
                              j: nat, n: Node<K, V>)
    requires HopsOk(hash, buckets, hops, neighbours) && j < |buckets| && buckets[j].None?
    requires Dist(hash(n.key) % |buckets|, j, |buckets|) < neighbours
    ensures var index := hash(n.key) % |buckets|;
            HopsOk(hash, buckets[j := Some(n)], hops[index := hops[index] + {Dist(index, j, |buckets|)}], neighbours)
    ensures Items(buckets[j := Some(n)], Pair) == Items(buckets, Pair) + multiset{Pair(n)}
    ensures |Items(buckets[j := Some(n)], Pair)| == |Items(buckets, Pair)| + 1
  {
    var cap := |buckets|;
    var index := hash(n.key) % cap;
    var after := buckets[j := Some(n)];
    var hops' := hops[index := hops[index] + {Dist(index, j, cap)}];
    forall h, i | 0 <= h < cap && 0 <= i < cap
      ensures Dist(h, i, cap) in hops'[h] <==> Holds(hash, after, h, i)
    {
      assert Dist(h, i, cap) in hops[h] <==> Holds(hash, buckets, h, i);
    }
    ItemsUpdate(buckets, Pair, j, Some(n));
  }

  function Home<K, V>(hash: K -> nat, n: Node<K, V>, cap: nat): (h: nat)
    requires cap > 0
    ensures h < cap
  {
    hash(n.key) % cap
  }

  // Every slot from an entry's home up to the entry is taken, but for the hole. Without a
  // hole, `hole` is no slot.
  ghost predicate Compact<K, V>(hash: K -> nat, buckets: seq<Option<Node<K, V>>>, hole: nat) {
    forall s, i :: 0 <= s < |buckets| && 0 <= i < |buckets| && buckets[s].Some? && OnWay(hash, buckets, s, i) ==>
                     buckets[i].Some? || i == hole
  }

  // Slot i lies between the home of the entry in slot s and slot s.
  ghost predicate OnWay<K, V>(hash: K -> nat, buckets: seq<Option<Node<K, V>>>, s: nat, i: nat)
    requires s < |buckets| && i < |buckets| && buckets[s].Some?
  {
    var h := Home(hash, buckets[s].value, |buckets|);
    Dist(h, i, |buckets|) <= Dist(h, s, |buckets|)
  }

  // Every slot from index to last is taken, but for the hole.
  ghost predicate TakenUpTo<T>(buckets: seq<Option<T>>, index: nat, last: nat, hole: nat)
    requires index < |buckets| && last < |buckets|
  {
    forall i :: 0 <= i < |buckets| && Dist(index, i, |buckets|) <= Dist(index, last, |buckets|) ==>
                  buckets[i].Some? || i == hole
  }

  // An entry whose home is k, between index and the hole j, moves from y into the hole.
  lemma MoveKeepsCompact<K, V>(hash: K -> nat, buckets: seq<Option<Node<K, V>>>, index: nat, last: nat, k: nat, y: nat, j: nat)
    requires index < |buckets| && last < |buckets| && k < |buckets| && y < |buckets| && j < |buckets|
    requires Compact(hash, buckets, j) && TakenUpTo(buckets, index, last, j)
    requires Holds(hash, buckets, k, y) && buckets[j].None?
    requires Dist(index, k, |buckets|) <= Dist(index, j, |buckets|) <= Dist(index, last, |buckets|)
    ensures var moved := buckets[j := buckets[y]][y := None];
            Compact(hash, moved, y) && TakenUpTo(moved, index, last, y)
  {
    var cap, moved := |buckets|, buckets[j := buckets[y]][y := None];
    forall s, i | 0 <= s < cap && 0 <= i < cap && moved[s].Some? && OnWay(hash, moved, s, i)
      ensures moved[i].Some? || i == y
    {
      if s == j {
        assert Dist(index, i, cap) <= Dist(index, last, cap);
      } else {
        assert OnWay(hash, buckets, s, i);
      }
    }
  }

  lemma InsertKeepsCompact<K, V>(hash: K -> nat, buckets: seq<Option<Node<K, V>>>, last: nat, j: nat, n: Node<K, V>)
    requires last < |buckets| && j < |buckets| && Compact(hash, buckets, j) && buckets[j].None?
    requires var index := Home(hash, n, |buckets|);
             TakenUpTo(buckets, index, last, j) && Dist(index, j, |buckets|) <= Dist(index, last, |buckets|)
    ensures Compact(hash, buckets[j := Some(n)], |buckets|)
  {
    var cap, after := |buckets|, buckets[j := Some(n)];
    forall s, i | 0 <= s < cap && 0 <= i < cap && after[s].Some? && OnWay(hash, after, s, i)
      ensures after[i].Some?
    {
      if s != j {
        assert OnWay(hash, buckets, s, i);
      }
    }
  }

  // No entry within reach of the hole j can be moved into it.
  ghost predicate Stuck<K, V>(hash: K -> nat, buckets: seq<Option<Node<K, V>>>, neighbours: nat, j: nat)
    requires j < |buckets|
  {
    forall k, y :: 0 <= k < |buckets| && 0 <= y < |buckets| && 0 < Dist(k, j, |buckets|) < neighbours
                   && Holds(hash, buckets, k, y) ==>
                     neighbours <= Dist(y, j, |buckets|)
  }

  // The same for homes more than offset before the hole, and for entries of one home less
  // than `bit` after it.
  ghost predicate StuckBeyond<K, V>(hash: K -> nat, buckets: seq<Option<Node<K, V>>>, neighbours: nat, j: nat, offset: nat)
    requires j < |buckets|
  {
    forall k, y :: 0 <= k < |buckets| && 0 <= y < |buckets| && offset < Dist(k, j, |buckets|) < neighbours
                   && Holds(hash, buckets, k, y) ==>
                     neighbours <= Dist(y, j, |buckets|)
  }

  ghost predicate StuckBelow<K, V>(hash: K -> nat, buckets: seq<Option<Node<K, V>>>, neighbours: nat, j: nat, k: nat, bit: nat)
    requires j < |buckets| && k < |buckets|
  {
    forall y :: 0 <= y < |buckets| && Holds(hash, buckets, k, y) && Dist(k, y, |buckets|) < bit ==>
                  neighbours <= Dist(y, j, |buckets|)
  }

  lemma AllInReach<K, V>(hash: K -> nat, buckets: seq<Option<Node<K, V>>>, neighbours: nat, j: nat)
    requires j < |buckets| && neighbours > 0
    ensures StuckBeyond(hash, buckets, neighbours, j, neighbours - 1)
  {
  }

  lemma NoneBelow<K, V>(hash: K -> nat, buckets: seq<Option<Node<K, V>>>, neighbours: nat, j: nat, k: nat)
    requires j < |buckets| && k < |buckets|
    ensures StuckBelow(hash, buckets, neighbours, j, k, 0)
  {
  }

  lemma NothingLeft<K, V>(hash: K -> nat, buckets: seq<Option<Node<K, V>>>, neighbours: nat, j: nat)
    requires j < |buckets| && StuckBeyond(hash, buckets, neighbours, j, 0)
    ensures Stuck(hash, buckets, neighbours, j)
  {
  }

  lemma NextOffset<K, V>(hash: K -> nat, buckets: seq<Option<Node<K, V>>>, hops: seq<set<nat>>, neighbours: nat, j: nat,
                         offset: nat)
    requires HopsOk(hash, buckets, hops, neighbours) && j < |buckets| && 0 < offset < |buckets|
    requires StuckBeyond(hash, buckets, neighbours, j, offset)
    requires StuckBelow(hash, buckets, neighbours, j, Behind(j, offset, |buckets|), neighbours)
    ensures StuckBeyond(hash, buckets, neighbours, j, offset - 1)
  {
    var cap := |buckets|;
    forall k, y | 0 <= k < cap && 0 <= y < cap && offset - 1 < Dist(k, j, cap) < neighbours && Holds(hash, buckets, k, y)
      ensures neighbours <= Dist(y, j, cap)
    {
      if Dist(k, j, cap) == offset {
        assert k == Behind(j, offset, cap) && Dist(k, y, cap) in hops[k];
      }
    }
  }

  lemma NextBit<K, V>(hash: K -> nat, buckets: seq<Option<Node<K, V>>>, hops: seq<set<nat>>, neighbours: nat, j: nat, k: nat,
                      bit: nat)
    requires HopsOk(hash, buckets, hops, neighbours) && j < |buckets| && k < |buckets|
    requires bit in hops[k] ==> bit < |buckets| && neighbours <= Dist(Ahead(k, bit, |buckets|), j, |buckets|)
    requires StuckBelow(hash, buckets, neighbours, j, k, bit)
    ensures StuckBelow(hash, buckets, neighbours, j, k, bit + 1)
  {
    var cap := |buckets|;
    forall y | 0 <= y < cap && Holds(hash, buckets, k, y) && Dist(k, y, cap) < bit + 1
      ensures neighbours <= Dist(y, j, cap)
    {
      assert Dist(k, y, cap) in hops[k];
      if Dist(k, y, cap) == bit {
        assert y == Ahead(k, bit, cap);
      }
    }
  }

  lemma BitIsSlot<K, V>(hash: K -> nat, buckets: seq<Option<Node<K, V>>>, hops: seq<set<nat>>, neighbours: nat, k: nat, bit: nat)
    requires HopsOk(hash, buckets, hops, neighbours) && k < |buckets| && bit in hops[k]
    ensures bit < |buckets| && bit < neighbours && Holds(hash, buckets, k, Ahead(k, bit, |buckets|))
  {
  }

  lemma TakenUpToHole<T>(buckets: seq<Option<T>>, index: nat, last: nat, j: nat)
    requires index < |buckets| && last < |buckets| && j < |buckets| && TakenUpTo(buckets, index, last, j)
    requires Dist(index, j, |buckets|) <= Dist(index, last, |buckets|)
    ensures TakenUpTo(buckets, index, j, j)
  {
  }

  // The first free slot from index on is the first hole.
  lemma CompactAnyway<K, V>(hash: K -> nat, buckets: seq<Option<Node<K, V>>>, index: nat, last: nat)
    requires index < |buckets| && last < |buckets| && Compact(hash, buckets, |buckets|)
    requires forall i :: 0 <= i < |buckets| && Dist(index, i, |buckets|) < Dist(index, last, |buckets|) ==> buckets[i].Some?
    ensures Compact(hash, buckets, last) && TakenUpTo(buckets, index, last, last)
  {
  }
}
