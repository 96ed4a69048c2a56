// The HashMapUnchained class of src/hashmap_unchained.hpp. The hash function and the table of
// 2048 Bloom tags are parameters: nothing below depends on what they are.
module UnchainedMap {
  import opened Bags
  import opened Directory
  import opened HashIndex

  ghost predicate SortedByHash(ts: seq<Tuple>) {
    forall i, j :: 0 <= i <= j < |ts| ==> ts[i].hash <= ts[j].hash
  }

  lemma {:induction false} ShrMonotone(x: nat, y: nat, n: nat)
    requires x <= y
    ensures Shr(x, n) <= Shr(y, n)
    decreases n
  {
    if n > 0 {
      ShrMonotone(x / 2, y / 2, n - 1);
    }
  }

  // In a table sorted by hash every bucket is a contiguous run, in bucket order.
  lemma {:induction false} SortedBucketIsRun(ts: seq<Tuple>, k: Bits, b: nat)
    requires SortedByHash(ts)
    ensures Below(ts, k, b) <= Below(ts, k, b + 1) <= |ts|
    ensures ts[Below(ts, k, b)..Below(ts, k, b + 1)] == Bucket(ts, k, b)
    decreases |ts|
  {
    hide BucketOf;
    BelowNext(ts, k, b);
    BelowNext(ts, k, b + 1);
    if ts != [] {
      var rest := ts[1..];
      SortedBucketIsRun(rest, k, b);
      forall i | 0 <= i < |ts| ensures BucketOf(ts[0].hash, k) <= BucketOf(ts[i].hash, k) {
        BucketMonotone(ts[0].hash, ts[i].hash, k);
      }
      if BucketOf(ts[0].hash, k) < b {
        SubSlice(ts, 1, |ts|, Below(rest, k, b), Below(rest, k, b + 1));
      } else {
        FilterNone(ts, BelowBucket(k, b));
        FilterNone(rest, BelowBucket(k, b));
        if BucketOf(ts[0].hash, k) == b {
          SubSlice(ts, 1, |ts|, 0, Below(rest, k, b + 1));
          assert ts[0..Below(ts, k, b + 1)] == [ts[0]] + ts[1..1 + Below(rest, k, b + 1)];
        } else {
          FilterNone(ts, BelowBucket(k, b + 1));
          FilterNone(ts, InBucket(k, b));
        }
      }
    }
  }

  lemma BucketMonotone(x: Hash, y: Hash, k: Bits)
    requires x <= y
    ensures BucketOf(x, k) <= BucketOf(y, k)
  {
    ShrMonotone(x, y, 64 - k);
  }

  function Inserted(sorted: seq<Tuple>, t: Tuple, j: nat): seq<Tuple>
    requires j <= |sorted|
  {
    sorted[..j] + [t] + sorted[j..]
  }

  lemma InsertedAt(sorted: seq<Tuple>, t: Tuple, j: nat, x: nat)
    requires j <= |sorted| && x <= |sorted|
    ensures |Inserted(sorted, t, j)| == |sorted| + 1
    ensures Inserted(sorted, t, j)[x] == if x < j then sorted[x] else if x == j then t else sorted[x - 1]
  {
  }

  lemma InsertKeepsOrder(sorted: seq<Tuple>, t: Tuple, j: nat)
    requires SortedByHash(sorted) && j <= |sorted|
    requires (forall x :: j <= x < |sorted| ==> sorted[x].hash > t.hash) && (j > 0 ==> sorted[j - 1].hash <= t.hash)
    ensures SortedByHash(Inserted(sorted, t, j))
  {
    hide Inserted;
    var r := Inserted(sorted, t, j);
    InsertedAt(sorted, t, j, 0);
    forall x, y | 0 <= x < y < |r| ensures r[x].hash <= r[y].hash {
      InsertedAt(sorted, t, j, x);
      InsertedAt(sorted, t, j, y);
    }
  }

  lemma InsertKeepsBag(sorted: seq<Tuple>, t: Tuple, j: nat)
    requires j <= |sorted|
    ensures multiset(Inserted(sorted, t, j)) == multiset(sorted) + multiset{t}
  {
    assert sorted == sorted[..j] + sorted[j..];
  }

  // Stands for std::sort by hash: a sorted permutation, which one is not said.
  method SortByHash(ts: seq<Tuple>) returns (sorted: seq<Tuple>)
    ensures SortedByHash(sorted) && multiset(sorted) == multiset(ts)
  {
    hide SortedByHash;
    sorted := [];
    NothingIsSorted();
    for i := 0 to |ts|
      invariant SortedByHash(sorted) && multiset(sorted) == multiset(ts[..i])
    {
      assert ts[..i + 1] == ts[..i] + [ts[i]];
      sorted := InsertByHash(sorted, ts[i]);
    }
    assert ts[..|ts|] == ts;
  }

  lemma NothingIsSorted()
    ensures SortedByHash([])
  {
  }

  method InsertByHash(sorted: seq<Tuple>, t: Tuple) returns (after: seq<Tuple>)
    requires SortedByHash(sorted)
    ensures SortedByHash(after) && multiset(after) == multiset(sorted) + multiset{t}
  {
    hide SortedByHash, Inserted;
    var j := |sorted|;
    while j > 0 && sorted[j - 1].hash > t.hash
      invariant 0 <= j <= |sorted|
      invariant forall x :: j <= x < |sorted| ==> sorted[x].hash > t.hash
    {
      j := j - 1;
    }
    InsertKeepsOrder(sorted, t, j);
    InsertKeepsBag(sorted, t, j);
    after := Inserted(sorted, t, j);
  }

  // Value-initialised tuples.
  function Blanks(n: nat): (ts: seq<Tuple>)
    ensures |ts| == n
  {
    seq(n, _ => Tuple(0, 0, 0))
  }

  class HashMapUnchained {
    const hash: int -> Hash
    const tags: seq<bv16>
    ghost const bits: Bits
    const shift: nat
    const bucketCnt: nat
    var directory: seq<Word>
    var tuples: seq<Tuple>
    var tupleCount: nat

    ghost predicate Valid()
      reads this
    {
      && |tags| == TAGS && bucketCnt == Shl(1, bits) && shift == 64 - bits
      && |directory| == bucketCnt + 1
    }

    constructor (buckets: nat, hash: int -> Hash, tags: seq<bv16>)
      requires |tags| == TAGS && buckets <= Shl(1, 64)
      ensures Valid() && this.hash == hash && this.tags == tags
      ensures buckets <= bucketCnt && (bits > 0 ==> Shl(1, bits - 1) < if buckets == 0 then 1 else buckets)
      ensures tuples == [] && tupleCount == 0 && directory == seq(bucketCnt + 1, _ => 0)
    {
      TwoTo64();
      var wanted := if buckets == 0 then 1 else buckets;
      var p := 1;
      var k: nat := 0;
      while p < wanted
        invariant p == Shl(1, k) && k <= 64
        invariant k > 0 ==> Shl(1, k - 1) < wanted
        decreases 64 - k
      {
        ShlShl(1, k, 1);
        ShlIsMonotoneInShift(k, 64);
        p := 2 * p;
        k := k + 1;
      }
      this.hash, this.tags := hash, tags;
      bucketCnt, bits, shift := p, k, 64 - k;
      directory := seq(p + 1, _ => 0);
      tuples, tupleCount := [], 0;
    }

    function BucketIndexFromHash(h: Hash): (b: nat)
      requires Valid()
      reads this
      ensures b == BucketOf(h, bits) < bucketCnt
    {
      BucketBound(h, bits);
      if shift == 64 then 0 else Shr(h, shift)
    }

    method Emplace(key: int, value: nat)
      requires Valid()
      modifies this`tuples, this`tupleCount
      ensures tuples == old(tuples) + [Tuple(key, value, hash(key))] && tupleCount == old(tupleCount) + 1
    {
      tuples := tuples + [Tuple(key, value, hash(key))];
      tupleCount := tupleCount + 1;
    }

    method Resize(n: nat)
      modifies this`tuples
      ensures tuples == if n <= |old(tuples)| then old(tuples)[..n] else old(tuples) + Blanks(n - |old(tuples)|)
    {
      tuples := if n <= |tuples| then tuples[..n] else tuples + Blanks(n - |tuples|);
    }

    method SetTupleCount(n: nat)
      modifies this`tupleCount
      ensures tupleCount == n
    {
      tupleCount := n;
    }

    // The sequential build.
    method CreateDirectory()
      requires Valid() && tupleCount == |tuples| < TWO48
      modifies this`directory, this`tuples
      ensures Valid() && multiset(tuples) == multiset(old(tuples))
      ensures Index(directory, tuples, old(tuples), bits, tags)
    {
      hide Filter, OrTags, PackEntry, TagOf, BucketOf;
      ghost var given := tuples;
      tuples := SortByHash(tuples);
      ghost var sorted := tuples;
      var hashes := Map(tuples, HashOf);
      var count := CountPerBucket(hashes);
      var start := StartPerBucket(count);
      var filters := FilterPerBucket(hashes);
      for b := 0 to bucketCnt
        invariant |directory| == bucketCnt + 1 && tuples == sorted
        invariant forall x :: 0 <= x < b ==> directory[x] == EntryOf(tuples, bits, x, tags)
      {
        directory := directory[b := PackEntry(start[b], filters[b])];
      }
      BelowEnd(tuples, bits);
      directory := directory[bucketCnt := PackEntry(start[bucketCnt], 0)];
      forall b | 0 <= b < bucketCnt ensures BucketHolds(tuples, tuples, bits, b) {
        SortedBucketIsRun(tuples, bits, b);
      }
      IndexOfPermutation(directory, tuples, tuples, given, bits, tags);
    }

    // Step 2: count tuples per bucket
    method CountPerBucket(hashes: seq<Hash>) returns (count: seq<nat>)
      requires Valid() && hashes == Map(tuples, HashOf)
      ensures |count| == bucketCnt && forall b :: 0 <= b < bucketCnt ==> count[b] == |Bucket(tuples, bits, b)|
    {
      hide Filter, BucketOf;
      count := seq(bucketCnt, _ => 0);
      EmptyBuckets(tuples, bits);
      for i := 0 to |hashes|
        invariant |count| == bucketCnt
        invariant forall b :: 0 <= b < bucketCnt ==> count[b] == |Bucket(tuples[..i], bits, b)|
      {
        var slot := BucketIndexFromHash(hashes[i]);
        forall b | 0 <= b < bucketCnt
          ensures |Bucket(tuples[..i + 1], bits, b)| == |Bucket(tuples[..i], bits, b)| + if b == slot then 1 else 0
        {
          FilterNext(tuples, InBucket(bits, b), i);
        }
        count := count[slot := count[slot] + 1];
      }
      assert tuples[..|tuples|] == tuples;
    }

    // Step 3: prefix sum
    method StartPerBucket(count: seq<nat>) returns (start: seq<nat>)
      requires Valid() && |count| == bucketCnt && forall b :: 0 <= b < bucketCnt ==>
                 count[b] == |Bucket(tuples, bits, b)|
      ensures |start| == bucketCnt + 1 && forall b :: 0 <= b <= bucketCnt ==> start[b] == Below(tuples, bits, b)
    {
      hide Filter;
      start := seq(bucketCnt + 1, _ => 0);
      BelowEnd(tuples, bits);
      for i := 0 to bucketCnt
        invariant |start| == bucketCnt + 1
        invariant forall b :: 0 <= b <= i ==> start[b] == Below(tuples, bits, b)
      {
        BelowNext(tuples, bits, i);
        start := start[i + 1 := start[i] + count[i]];
      }
    }

    // Step 4: set filters
    method FilterPerBucket(hashes: seq<Hash>) returns (filters: seq<bv16>)
      requires Valid() && hashes == Map(tuples, HashOf)
      ensures |filters| == bucketCnt && forall b :: 0 <= b < bucketCnt ==>
                filters[b] == OrTags(Bucket(tuples, bits, b), tags)
    {
      hide Filter, BucketOf, OrTags, TagOf;
      filters := seq(bucketCnt, _ => 0);
      EmptyBuckets(tuples, bits);
      NoTags(tags);
      for i := 0 to |hashes|
        invariant |filters| == bucketCnt
        invariant forall b :: 0 <= b < bucketCnt ==> filters[b] == OrTags(Bucket(tuples[..i], bits, b), tags)
      {
        var slot := BucketIndexFromHash(hashes[i]);
        var tag := TagOf(tags, hashes[i]);
        forall b | 0 <= b < bucketCnt
          ensures OrTags(Bucket(tuples[..i + 1], bits, b), tags) ==
                  if b == slot then OrTags(Bucket(tuples[..i], bits, b), tags) | tag
                  else OrTags(Bucket(tuples[..i], bits, b), tags)
        {
          FilterNext(tuples, InBucket(bits, b), i);
          OrTagsSnoc(Bucket(tuples[..i], bits, b), tuples[i], tags);
        }
        filters := filters[slot := filters[slot] | tag];
      }
      assert tuples[..|tuples|] == tuples;
    }

    // The steps of the parallel build; merge_phase interleaves them.
    method CountAndTag(t: Tuple)
      requires Valid()
      modifies this`directory
      ensures Valid()
      ensures var b := BucketOf(t.hash, bits);
              b < bucketCnt && directory == old(directory)[b := CountAndTagWord(old(directory)[b], TagOf(tags, t.hash))]
    {
      hide CountAndTagWord, TagOf;
      var slot := BucketIndexFromHash(t.hash);
      directory := directory[slot := CountAndTagWord(directory[slot], TagOf(tags, t.hash))];
    }

    method PrefixSum(i: nat, prefix: nat) returns (val: nat)
      requires Valid() && i < bucketCnt
      modifies this`directory
      ensures Valid() && val == UnpackStart(old(directory)[i])
      ensures directory == old(directory)[i := PackEntry(prefix, UnpackFilter(old(directory)[i]))]
    {
      hide PackEntry, UnpackStart, UnpackFilter;
      val := UnpackStart(directory[i]);
      directory := directory[i := PackEntry(prefix, UnpackFilter(directory[i]))];
    }

    // false where the source throws
    method Insert(t: Tuple, index: nat) returns (ok: bool)
      modifies this`tuples
      ensures ok == (index < |old(tuples)|)
      ensures tuples == if ok then old(tuples)[index := t] else old(tuples)
    {
      ok := index < |tuples|;
      if ok {
        tuples := tuples[index := t];
      }
    }

    method FinalizeDirectory()
      requires Valid()
      modifies this`directory
      ensures Valid() && directory == old(directory)[bucketCnt := PackEntry(tupleCount, 0)]
    {
      directory := directory[bucketCnt := PackEntry(tupleCount, 0)];
    }

    // lookup_range: on an index, the range contains every tuple with the key.
    method Lookup(key: int, ghost ts: seq<Tuple>) returns (lo: nat, hi: nat)
      requires Valid() && tupleCount == |ts| < TWO48 && Index(directory, tuples, ts, bits, tags)
      requires forall i :: 0 <= i < |ts| && ts[i].key == key ==> ts[i].hash == hash(key)
      ensures lo <= hi <= |tuples| && (lo, hi) == LookupRange(directory, tupleCount, hash(key), bits, tags)
      ensures multiset(Filter(tuples[lo..hi], KeyIs(key))) == multiset(Filter(ts, KeyIs(key)))
    {
      hide Index, Filter, PackEntry, UnpackStart, UnpackFilter, Admits, TagOf;
      LookupFindsAll(directory, tuples, ts, bits, tags, key, hash(key));
      if tupleCount == 0 {
        return 0, 0;
      }
      var h := hash(key);
      var slot := BucketIndexFromHash(h);
      if !Admits(UnpackFilter(directory[slot]), TagOf(tags, h)) {
        return 0, 0;
      }
      return UnpackStart(directory[slot]), UnpackStart(directory[slot + 1]);
    }
  }

  function HashOf(t: Tuple): Hash { t.hash }

  lemma EmptyBuckets(ts: seq<Tuple>, k: Bits)
    ensures forall b: nat :: Bucket(ts[..0], k, b) == []
  {
  }

  lemma NoTags(tags: seq<bv16>)
    requires |tags| == TAGS
    ensures OrTags([], tags) == 0
  {
  }

  lemma OrTagsOne(t: Tuple, tags: seq<bv16>)
    requires |tags| == TAGS
    ensures OrTags([t], tags) == TagOf(tags, t.hash)
  {
    hide TagOf;
    assert OrTags([t], tags) == TagOf(tags, t.hash) | OrTags([], tags);
  }

  lemma OrTagsSnoc(ts: seq<Tuple>, t: Tuple, tags: seq<bv16>)
    requires |tags| == TAGS
    ensures OrTags(ts + [t], tags) == OrTags(ts, tags) | TagOf(tags, t.hash)
  {
    hide OrTags, TagOf;
    OrTagsConcat(ts, [t], tags);
    OrTagsOne(t, tags);
  }

  // An index over some tuples is an index over any reordering of them.
  lemma IndexOfPermutation(directory: seq<Word>, tuples: seq<Tuple>, ts: seq<Tuple>, ts': seq<Tuple>, k: Bits,
                           tags: seq<bv16>)
    requires |tags| == TAGS && Index(directory, tuples, ts, k, tags) && multiset(ts) == multiset(ts')
    ensures Index(directory, tuples, ts', k, tags)
  {
    hide Filter, OrTags, PackEntry;
    assert |multiset(ts)| == |multiset(ts')|;
    forall b | 0 <= b < Shl(1, k)
      ensures EntryOf(ts, k, b, tags) == EntryOf(ts', k, b, tags)
      ensures BucketHolds(tuples, ts', k, b)
    {
      FilterPermute(ts, ts', InBucket(k, b));
      FilterPermute(ts, ts', BelowBucket(k, b));
      FilterPermute(ts, ts', BelowBucket(k, b + 1));
      OrTagsPermute(Bucket(ts, k, b), Bucket(ts', k, b), tags);
      assert BucketHolds(tuples, ts, k, b);
    }
  }

  lemma ShlIsMonotoneInShift(a: nat, b: nat)
    requires a <= b
    ensures Shl(1, a) <= Shl(1, b) && (a < b ==> Shl(1, a) < Shl(1, b))
    decreases b - a
  {
    if a < b {
      ShlIsMonotone(0, 1, a);
      ShlShl(1, a, 1);
      ShlDouble(1, a);
      ShlIsMonotoneInShift(a + 1, b);
    }
  }
}
