// Which pairs HashMapHopscotch (src/hashmap_hopscotch.hpp) can hold at all: doubling the
// capacity only ever helps, so the largest capacity decides.
module HopscotchGrowth {
  import opened Arith
  import opened Bags
  import opened HopscotchCrowding
  import opened HopscotchTable
  import opened OpenAddressing

  const LARGEST_NEIGHBOURHOOD: nat := 64
  const LARGE_TABLE: nat := 4194304

  ghost function HashIn<K, V>(hash: K -> nat, lo: nat, hi: nat): ((K, V)) -> bool {
    (pair: (K, V)) => lo <= hash(pair.0) <= hi
  }

  ghost predicate Fits<K, V>(hash: K -> nat, pairs: seq<(K, V)>, lo: nat, hi: nat)
    requires lo <= hi
  {
    |Filter(pairs, HashIn(hash, lo, hi))| < hi - lo + 1 + LARGEST_NEIGHBOURHOOD
  }

  // No interval of hash values has more keys than its values and 63 more.
  ghost predicate Uncrowded<K, V>(hash: K -> nat, pairs: seq<(K, V)>) {
    forall lo: nat, hi: nat :: lo <= hi ==> Fits(hash, pairs, lo, hi)
  }

  // A capacity at which the neighbourhood is largest and every hash value is its own home.
  ghost predicate BigEnough<K, V>(cap: nat, hash: K -> nat, pairs: seq<(K, V)>) {
    && LARGE_TABLE <= cap && 2 * |pairs| + 2 <= cap
    && forall i :: 0 <= i < |pairs| ==> hash(pairs[i].0) + LARGEST_NEIGHBOURHOOD <= cap
  }

  // The pairs fit a table of the largest capacity there is: its load factor allows them, and
  // they crowd no arc of its homes.
  ghost predicate Holdable<K, V>(hash: K -> nat, limit: nat, pairs: seq<(K, V)>)
    requires IsPowerOfTwo(limit)
  {
    |pairs| * 4 < limit * 3 && !Crowded(hash, limit, ComputeNeighborhood(limit), pairs)
  }

  lemma {:induction false} FilterCover<T>(s: seq<T>, p: T -> bool, q: T -> bool, r: T -> bool)
    requires forall i :: 0 <= i < |s| && p(s[i]) ==> q(s[i]) || r(s[i])
    ensures |Filter(s, p)| <= |Filter(s, q)| + |Filter(s, r)|
  {
    if s != [] {
      FilterCover(s[1..], p, q, r);
    }
  }

  // Nearby hash values have homes at the same distance.
  lemma HomesOfNear(lo: nat, x: nat, cap: nat)
    requires lo <= x < lo + cap
    ensures Dist(lo % cap, x % cap, cap) == x - lo
  {
    var s := lo % cap + (x - lo);
    WrapOnce(s, cap);
    assert x == cap * (lo / cap) + s;
    if s < cap {
      DivModUnique(x, cap, lo / cap, s);
    } else {
      assert x == cap * (lo / cap + 1) + (s - cap);
      DivModUnique(x, cap, lo / cap + 1, s - cap);
    }
  }

  // Pairs that a table of any capacity holds are uncrowded.
  lemma HeldAreUncrowded<K, V>(hash: K -> nat, cap: nat, neighbours: nat, pairs: seq<(K, V)>)
    requires !Crowded(hash, cap, neighbours, pairs) && 0 < neighbours <= LARGEST_NEIGHBOURHOOD && |pairs| <= cap && cap > 0
    ensures Uncrowded(hash, pairs)
  {
    forall lo: nat, hi: nat | lo <= hi ensures Fits(hash, pairs, lo, hi) {
      var n := hi - lo + 1;
      FilterHolds(pairs, HashIn(hash, lo, hi));
      if n <= cap {
        forall i | 0 <= i < |pairs| && HashIn(hash, lo, hi)(pairs[i]) ensures HomeOn(hash, cap, lo % cap, n)(pairs[i]) {
          HomesOfNear(lo, hash(pairs[i].0), cap);
        }
        FilterImplies(pairs, HashIn(hash, lo, hi), HomeOn(hash, cap, lo % cap, n));
        assert !Overfull(hash, cap, neighbours, pairs, lo % cap, n);
      }
    }
  }

  // In a big enough table only a crowded interval of hash values crowds an arc of homes.
  lemma BigIsUncrowded<K, V>(hash: K -> nat, cap: nat, pairs: seq<(K, V)>)
    requires Uncrowded(hash, pairs) && BigEnough(cap, hash, pairs)
    ensures !Crowded(hash, cap, LARGEST_NEIGHBOURHOOD, pairs)
  {
    forall a, n | 0 <= a < cap && 0 < n <= cap ensures !Overfull(hash, cap, LARGEST_NEIGHBOURHOOD, pairs, a, n) {
      ArcFits(hash, cap, pairs, a, n);
    }
  }

  lemma ArcFits<K, V>(hash: K -> nat, cap: nat, pairs: seq<(K, V)>, a: nat, n: nat)
    requires Uncrowded(hash, pairs) && BigEnough(cap, hash, pairs) && a < cap && 0 < n <= cap
    ensures !Overfull(hash, cap, LARGEST_NEIGHBOURHOOD, pairs, a, n)
  {
    hide Filter;
    var onArc := HomeOn<K, V>(hash, cap, a, n);
    var top := cap - LARGEST_NEIGHBOURHOOD;
    assert forall i :: 0 <= i < |pairs| ==> hash(pairs[i].0) % cap == hash(pairs[i].0) <= top;
    if a + n <= cap {
      FilterImplies(pairs, onArc, HashIn(hash, a, a + n - 1));
      assert Fits(hash, pairs, a, a + n - 1);
    } else {
      var wrapped := a + n - cap;
      assert Fits(hash, pairs, 0, wrapped - 1);
      if a <= top {
        assert Fits(hash, pairs, a, top);
        FilterCover(pairs, onArc, HashIn(hash, a, top), HashIn(hash, 0, wrapped - 1));
      } else {
        FilterImplies(pairs, onArc, HashIn(hash, 0, wrapped - 1));
      }
    }
  }

  // At twice the capacity an arc of homes folds onto one of the same length.
  lemma ArcFolds(a: nat, x: nat, cap: nat)
    requires cap > 0 && a < 2 * cap && Dist(a, x % (2 * cap), 2 * cap) < cap
    ensures Dist(a % cap, x % cap, cap) == Dist(a, x % (2 * cap), 2 * cap)
  {
    var y := x % (2 * cap);
    WrapOnce(a, cap);
    WrapOnce(y, cap);
    ModTwice(x, cap);
  }

  lemma UncrowdedGrows<K, V>(hash: K -> nat, cap: nat, small: nat, large: nat, pairs: seq<(K, V)>)
    requires cap > 0 && 0 < small <= large && !Crowded(hash, cap, small, pairs)
    ensures !Crowded(hash, 2 * cap, large, pairs)
  {
    hide Filter;
    forall a, n | 0 <= a < 2 * cap && 0 < n <= 2 * cap ensures !Overfull(hash, 2 * cap, large, pairs, a, n) {
      if n <= cap {
        forall i | 0 <= i < |pairs| && HomeOn(hash, 2 * cap, a, n)(pairs[i]) ensures HomeOn(hash, cap, a % cap, n)(pairs[i]) {
          ArcFolds(a, hash(pairs[i].0), cap);
        }
        FilterImplies(pairs, HomeOn(hash, 2 * cap, a, n), HomeOn(hash, cap, a % cap, n));
        assert !Overfull(hash, cap, small, pairs, a % cap, n);
      } else {
        var anywhere := HomeOn<K, V>(hash, cap, 0, cap);
        forall i | 0 <= i < |pairs| ensures anywhere(pairs[i]) {
          assert Dist(0, hash(pairs[i].0) % cap, cap) < cap;
        }
        FilterImplies(pairs, HomeOn(hash, 2 * cap, a, n), anywhere);
        assert !Overfull(hash, cap, small, pairs, 0, cap);
      }
    }
  }

  lemma NeighborhoodGrows(cap: nat)
    requires IsPowerOfTwo(cap)
    ensures IsPowerOfTwo(2 * cap) && ComputeNeighborhood(cap) <= ComputeNeighborhood(2 * cap)
  {
  }

  // Pairs that crowd no arc at some capacity crowd none at a larger one.
  lemma {:induction false} UncrowdedUpTo<K, V>(hash: K -> nat, cap: nat, limit: nat, pairs: seq<(K, V)>)
    requires IsPowerOfTwo(cap) && IsPowerOfTwo(limit) && cap <= limit
    requires !Crowded(hash, cap, ComputeNeighborhood(cap), pairs)
    ensures !Crowded(hash, limit, ComputeNeighborhood(limit), pairs)
    decreases limit - cap
  {
    hide Crowded, ComputeNeighborhood;
    if cap < limit {
      PowersApart(cap, limit);
      NeighborhoodGrows(cap);
      UncrowdedGrows(hash, cap, ComputeNeighborhood(cap), ComputeNeighborhood(2 * cap), pairs);
      UncrowdedUpTo(hash, 2 * cap, limit, pairs);
    }
  }

  // What holds for some pairs holds for fewer.
  lemma HoldableFewer<K, V>(hash: K -> nat, limit: nat, a: seq<(K, V)>, b: seq<(K, V)>)
    requires IsPowerOfTwo(limit) && multiset(a) <= multiset(b) && Holdable(hash, limit, b)
    ensures Holdable(hash, limit, a)
  {
    hide Filter, ComputeNeighborhood;
    FewerAreShorter(a, b);
    var neighbours := ComputeNeighborhood(limit);
    forall s, n | 0 <= s < limit && 0 < n <= limit ensures !Overfull(hash, limit, neighbours, a, s, n) {
      FilterFewer(a, b, HomeOn(hash, limit, s, n));
      assert !Overfull(hash, limit, neighbours, b, s, n);
    }
  }

  lemma FewerFirst<T>(s: seq<T>, n: nat)
    requires n <= |s|
    ensures multiset(s[..n]) <= multiset(s)
  {
    assert s == s[..n] + s[n..];
  }

  // When the hash values stay below the largest capacity, the arcs are intervals of them.
  lemma HoldableByIntervals<K, V>(hash: K -> nat, limit: nat, pairs: seq<(K, V)>)
    requires IsPowerOfTwo(limit) && BigEnough(limit, hash, pairs)
    ensures Holdable(hash, limit, pairs) <==> Uncrowded(hash, pairs)
  {
    hide Crowded, Uncrowded;
    if Uncrowded(hash, pairs) {
      BigIsUncrowded(hash, limit, pairs);
    }
    if Holdable(hash, limit, pairs) {
      HeldAreUncrowded(hash, limit, LARGEST_NEIGHBOURHOOD, pairs);
    }
  }

  // More keys within an interval of hash values than it has values and 63 more are crowded:
  // 65 of one value, or 33 each of two neighbouring ones.
  lemma TooManyTogether<K, V>(hash: K -> nat, limit: nat, pairs: seq<(K, V)>, lo: nat, hi: nat)
    requires IsPowerOfTwo(limit) && lo <= hi && |pairs| > hi - lo + LARGEST_NEIGHBOURHOOD
    requires forall i :: 0 <= i < |pairs| ==> lo <= hash(pairs[i].0) <= hi
    ensures !Uncrowded(hash, pairs) && !Holdable(hash, limit, pairs)
  {
    FilterAll(pairs, HashIn(hash, lo, hi));
    assert !Fits(hash, pairs, lo, hi);
    if Holdable(hash, limit, pairs) {
      HeldAreUncrowded(hash, limit, ComputeNeighborhood(limit), pairs);
    }
  }

  lemma FewTogether<K, V>(hash: K -> nat, pairs: seq<(K, V)>)
    requires |pairs| <= LARGEST_NEIGHBOURHOOD
    ensures Uncrowded(hash, pairs)
  {
    forall lo: nat, hi: nat | lo <= hi ensures Fits(hash, pairs, lo, hi) {
      FilterHolds(pairs, HashIn(hash, lo, hi));
    }
  }

  // ---- around 2^64 ----

  const TOP: nat := 0xFFFF_FFFF_FFFF_FFFF

  // std::hash of an int, converted to 64 bits.
  function IntHash(key: int): nat { key % (TOP + 1) }

  lemma {:induction false} TopHome(cap: nat)
    requires IsPowerOfTwo(cap) && cap <= TOP + 1
    ensures exists q: nat :: q * cap == TOP + 1
    decreases TOP + 1 - cap
  {
    if cap == TOP + 1 {
      assert 1 * cap == TOP + 1;
    } else {
      TopIsPower();
      PowersApart(cap, TOP + 1);
      TopHome(2 * cap);
      var q: nat :| q * (2 * cap) == TOP + 1;
      assert (2 * q) * cap == TOP + 1;
    }
  }

  lemma {:induction false} PowersMultiply(a: nat, b: nat)
    requires IsPowerOfTwo(a) && IsPowerOfTwo(b)
    ensures IsPowerOfTwo(a * b)
  {
    if a > 1 {
      PowersMultiply(a / 2, b);
      assert a * b == 2 * (a / 2 * b);
      DivModUnique(a * b, 2, a / 2 * b, 0);
    }
  }

  lemma TopIsPower()
    ensures IsPowerOfTwo(TOP + 1)
  {
    PowersMultiply(4, 4);
    PowersMultiply(16, 16);
    PowersMultiply(256, 256);
    PowersMultiply(0x10000, 0x10000);
    PowersMultiply(0x1_0000_0000, 0x1_0000_0000);
  }

  // At every capacity the homes of 2^64 - 1 and 0 are neighbours on the ring.
  lemma WrappedHome(cap: nat)
    requires IsPowerOfTwo(cap) && cap <= TOP + 1
    ensures TOP % cap == cap - 1
  {
    TopHome(cap);
    var q: nat :| q * cap == TOP + 1;
    assert TOP == cap * (q - 1) + (cap - 1);
    DivModUnique(TOP, cap, q - 1, cap - 1);
  }

  // 66 pairs with these two hash values cannot be held, whatever the capacity.
  lemma WrappedNotHoldable<K, V>(hash: K -> nat, limit: nat, pairs: seq<(K, V)>)
    requires IsPowerOfTwo(limit) && limit <= TOP + 1 && |pairs| >= 66
    requires forall i :: 0 <= i < |pairs| ==> hash(pairs[i].0) == TOP || hash(pairs[i].0) == 0
    ensures !Holdable(hash, limit, pairs)
  {
    if |pairs| * 4 < limit * 3 {
      WrappedHome(limit);
      var onArc := HomeOn<K, V>(hash, limit, limit - 1, 2);
      forall i | 0 <= i < |pairs| ensures onArc(pairs[i]) {
        assert 0 % limit == 0;
      }
      FilterAll(pairs, onArc);
      assert Overfull(hash, limit, ComputeNeighborhood(limit), pairs, limit - 1, 2);
    }
  }

  // Half of them with each: no interval of hash values has too many.
  lemma WrappedAreUncrowded<V>(low: seq<(int, V)>, high: seq<(int, V)>)
    requires |low| == |high| == 33
    requires forall i :: 0 <= i < 33 ==> low[i].0 == 0 && high[i].0 == -1
    ensures Uncrowded(IntHash, low + high)
  {
    assert IntHash(-1) == TOP && IntHash(0) == 0;
    forall lo: nat, hi: nat | lo <= hi ensures Fits(IntHash, low + high, lo, hi) {
      var p := HashIn<int, V>(IntHash, lo, hi);
      FilterConcat(low, high, p);
      FilterHolds(low, p);
      FilterHolds(high, p);
      if lo > 0 {
        FilterNone(low, p);
      } else if hi < TOP {
        FilterNone(high, p);
      }
    }
  }
}
