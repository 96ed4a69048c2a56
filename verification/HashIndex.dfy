// What a built HashMapUnchained (src/hashmap_unchained.hpp) holds: one entry per bucket, and
// the tuples grouped by bucket. Index is this specification; the sequential and the parallel
// build are both proved to reach it, and lookups are proved from it.
module HashIndex {
  import opened Arith
  import opened Bags
  import opened Directory

  const TAGS: nat := 2048

  function TagOf(tags: seq<bv16>, hash: Hash): bv16
    requires |tags| == TAGS
  {
    tags[hash % 0x1_0000_0000 / 0x20_0000] // uint32_t(hash) >> (32 - 11)
  }

  // The tag is chosen by bits 21 to 31 of the hash.
  lemma TagBits(tags: seq<bv16>, high: nat, bits: nat, low: nat)
    requires |tags| == TAGS && bits < 2048 && low < 2097152 && high * 4294967296 + bits * 2097152 + low < TWO64
    ensures TagOf(tags, high * 4294967296 + bits * 2097152 + low) == tags[bits]
  {
    DivModUnique(high * 4294967296 + bits * 2097152 + low, 4294967296, high, bits * 2097152 + low);
    DivModUnique(bits * 2097152 + low, 2097152, bits, low);
  }

  function InBucket(k: Bits, b: nat): Tuple -> bool {
    (t: Tuple) => BucketOf(t.hash, k) == b
  }

  function BelowBucket(k: Bits, b: nat): Tuple -> bool {
    (t: Tuple) => BucketOf(t.hash, k) < b
  }

  function Bucket(ts: seq<Tuple>, k: Bits, b: nat): seq<Tuple> {
    Filter(ts, InBucket(k, b))
  }

  // Where bucket b starts: the number of tuples in the buckets before it.
  function Below(ts: seq<Tuple>, k: Bits, b: nat): nat {
    |Filter(ts, BelowBucket(k, b))|
  }

  function OrTags(ts: seq<Tuple>, tags: seq<bv16>): bv16
    requires |tags| == TAGS
  {
    if ts == [] then 0 else TagOf(tags, ts[0].hash) | OrTags(ts[1..], tags)
  }

  function EntryOf(ts: seq<Tuple>, k: Bits, b: nat, tags: seq<bv16>): Word
    requires |tags| == TAGS
  {
    PackEntry(Below(ts, k, b), OrTags(Bucket(ts, k, b), tags))
  }

  // The directory and tuple array of an index over the tuples ts with 2^k buckets.
  ghost predicate Index(directory: seq<Word>, tuples: seq<Tuple>, ts: seq<Tuple>, k: Bits, tags: seq<bv16>)
    requires |tags| == TAGS
  {
    && |directory| == Shl(1, k) + 1 && |tuples| == |ts|
    && (forall b :: 0 <= b < Shl(1, k) ==> directory[b] == EntryOf(ts, k, b, tags))
    && directory[Shl(1, k)] == PackEntry(|ts|, 0)
    && (forall b :: 0 <= b < Shl(1, k) ==> BucketHolds(tuples, ts, k, b))
  }

  ghost predicate BucketHolds(tuples: seq<Tuple>, ts: seq<Tuple>, k: Bits, b: nat) {
    && Below(ts, k, b) <= Below(ts, k, b + 1) <= |tuples|
    && multiset(tuples[Below(ts, k, b)..Below(ts, k, b + 1)]) == multiset(Bucket(ts, k, b))
  }

  lemma {:induction false} BelowNext(ts: seq<Tuple>, k: Bits, b: nat)
    ensures Below(ts, k, b + 1) == Below(ts, k, b) + |Bucket(ts, k, b)|
    ensures Below(ts, k, b) <= |ts|
  {
    if ts != [] {
      BelowNext(ts[1..], k, b);
    }
  }

  lemma BelowIsMonotone(ts: seq<Tuple>, k: Bits, a: nat, b: nat)
    requires a <= b
    ensures Below(ts, k, a) <= Below(ts, k, b)
    decreases b - a
  {
    if a < b {
      BelowNext(ts, k, b - 1);
      BelowIsMonotone(ts, k, a, b - 1);
    }
  }

  lemma BelowEnd(ts: seq<Tuple>, k: Bits)
    ensures Below(ts, k, Shl(1, k)) == |ts| && Below(ts, k, 0) == 0
  {
    forall i | 0 <= i < |ts| ensures BelowBucket(k, Shl(1, k))(ts[i]) {
      BucketBound(ts[i].hash, k);
    }
    FilterAll(ts, BelowBucket(k, Shl(1, k)));
    FilterNone(ts, BelowBucket(k, 0));
  }

  lemma {:induction false} OrTagsConcat(a: seq<Tuple>, b: seq<Tuple>, tags: seq<bv16>)
    requires |tags| == TAGS
    ensures OrTags(a + b, tags) == OrTags(a, tags) | OrTags(b, tags)
  {
    hide TagOf;
    if a == [] {
      assert a + b == b;
    } else {
      OrTagsConcat(a[1..], b, tags);
      assert (a + b)[1..] == a[1..] + b;
    }
  }

  lemma OrTagsTakesOut(b: seq<Tuple>, i: nat, tags: seq<bv16>)
    requires |tags| == TAGS && i < |b|
    ensures OrTags(b, tags) == TagOf(tags, b[i].hash) | OrTags(b[..i] + b[i + 1..], tags)
  {
    hide TagOf;
    OrTagsConcat(b[..i], b[i + 1..], tags);
    OrTagsConcat(b[..i], b[i..], tags);
    assert b == b[..i] + b[i..] && b[i..][1..] == b[i + 1..];
  }

  lemma {:induction false} OrTagsPermute(a: seq<Tuple>, b: seq<Tuple>, tags: seq<bv16>)
    requires |tags| == TAGS && multiset(a) == multiset(b)
    ensures OrTags(a, tags) == OrTags(b, tags)
    decreases |a|
  {
    if a == [] {
      assert |multiset(b)| == |b|;
    } else {
      hide TagOf;
      OrTagsTakesOut(a, 0, tags);
      assert a[..0] + a[0 + 1..] == a[1..];
      hide OrTags;
      assert a[0] in multiset(b);
      var i :| 0 <= i < |b| && b[i] == a[0];
      var rest := b[..i] + b[i + 1..];
      RemoveFirst(a, b, i);
      OrTagsPermute(a[1..], rest, tags);
      OrTagsTakesOut(b, i, tags);
    }
  }

  // A tag or-ed in is admitted.
  lemma {:induction false} TagsAreAdmitted(ts: seq<Tuple>, tags: seq<bv16>, i: nat)
    requires |tags| == TAGS && i < |ts|
    ensures Admits(OrTags(ts, tags), TagOf(tags, ts[i].hash))
  {
    hide TagOf;
    if i > 0 {
      TagsAreAdmitted(ts[1..], tags, i - 1);
    }
  }

  ghost predicate BucketsAgree(t1: seq<Tuple>, ts1: seq<Tuple>, t2: seq<Tuple>, ts2: seq<Tuple>, k: Bits, b: nat) {
    var lo, hi := Below(ts1, k, b), Below(ts1, k, b + 1);
    && lo == Below(ts2, k, b) && hi == Below(ts2, k, b + 1)
    && lo <= hi <= |t1| && hi <= |t2|
    && multiset(t1[lo..hi]) == multiset(t2[lo..hi])
  }

  // The entries are the same however the same tuples were ordered before the build, and the
  // buckets hold the same tuples.
  lemma IndexesAgree(d1: seq<Word>, t1: seq<Tuple>, ts1: seq<Tuple>, d2: seq<Word>, t2: seq<Tuple>, ts2: seq<Tuple>,
                     k: Bits, tags: seq<bv16>)
    requires |tags| == TAGS && multiset(ts1) == multiset(ts2)
    requires Index(d1, t1, ts1, k, tags) && Index(d2, t2, ts2, k, tags)
    ensures d1 == d2
    ensures forall b :: 0 <= b < Shl(1, k) ==> BucketsAgree(t1, ts1, t2, ts2, k, b)
  {
    hide OrTags, Filter, PackEntry;
    assert |multiset(ts1)| == |multiset(ts2)|;
    forall b | 0 <= b < Shl(1, k) ensures d1[b] == d2[b] && BucketsAgree(t1, ts1, t2, ts2, k, b) {
      FilterPermute(ts1, ts2, InBucket(k, b));
      FilterPermute(ts1, ts2, BelowBucket(k, b));
      FilterPermute(ts1, ts2, BelowBucket(k, b + 1));
      OrTagsPermute(Bucket(ts1, k, b), Bucket(ts2, k, b), tags);
      assert BucketHolds(t1, ts1, k, b) && BucketHolds(t2, ts2, k, b);
    }
  }

  function LookupRange(directory: seq<Word>, count: nat, hash: Hash, k: Bits, tags: seq<bv16>): (nat, nat)
    requires |tags| == TAGS && |directory| == Shl(1, k) + 1
  {
    if count == 0 then (0, 0)
    else
      BucketBound(hash, k);
      var slot := BucketOf(hash, k);
      if !Admits(UnpackFilter(directory[slot]), TagOf(tags, hash)) then (0, 0)
      else (UnpackStart(directory[slot]), UnpackStart(directory[slot + 1]))
  }

  function KeyIs(key: int): Tuple -> bool {
    (t: Tuple) => t.key == key
  }

  // The looked-up range holds every tuple with the key, as often as it was put in: no bucket
  // boundary and no filter hides one.
  lemma LookupFindsAll(directory: seq<Word>, tuples: seq<Tuple>, ts: seq<Tuple>, k: Bits, tags: seq<bv16>, key: int,
                       hash: Hash)
    requires |tags| == TAGS && Index(directory, tuples, ts, k, tags) && |ts| < TWO48
    requires forall i :: 0 <= i < |ts| && ts[i].key == key ==> ts[i].hash == hash
    ensures var (lo, hi) := LookupRange(directory, |ts|, hash, k, tags);
            && lo <= hi <= |tuples|
            && multiset(Filter(tuples[lo..hi], KeyIs(key))) == multiset(Filter(ts, KeyIs(key)))
  {
    hide Filter, OrTags, TagOf, Admits, PackEntry, UnpackStart, UnpackFilter, Index;
    if ts == [] {
      FilterUnfold(ts, KeyIs(key));
      assert tuples[0..0] == [];
    } else {
      BucketBound(hash, k);
      var b := BucketOf(hash, k);
      var bucket := Bucket(ts, k, b);
      IndexAt(directory, tuples, ts, k, tags, b);
      if !Admits(OrTags(bucket, tags), TagOf(tags, hash)) {
        NoKeyInBucket(ts, k, tags, key, hash);
        FilterUnfold(tuples[0..0], KeyIs(key));
      } else {
        KeysAreInBucket(ts, k, key, hash);
        FilterPermute(tuples[Below(ts, k, b)..Below(ts, k, b + 1)], bucket, KeyIs(key));
      }
    }
  }

  lemma IndexAt(directory: seq<Word>, tuples: seq<Tuple>, ts: seq<Tuple>, k: Bits, tags: seq<bv16>, b: nat)
    requires |tags| == TAGS && Index(directory, tuples, ts, k, tags) && |ts| < TWO48 && b < Shl(1, k)
    ensures |directory| == Shl(1, k) + 1 && |tuples| == |ts|
    ensures UnpackStart(directory[b]) == Below(ts, k, b) && UnpackFilter(directory[b]) == OrTags(Bucket(ts, k, b), tags)
    ensures UnpackStart(directory[b + 1]) == Below(ts, k, b + 1) && BucketHolds(tuples, ts, k, b)
  {
    hide Filter, OrTags, PackEntry, UnpackStart, UnpackFilter;
    BelowNext(ts, k, b);
    BelowNext(ts, k, b + 1);
    BelowEnd(ts, k);
    PackUnpack(Below(ts, k, b), OrTags(Bucket(ts, k, b), tags));
    if b + 1 < Shl(1, k) {
      PackUnpack(Below(ts, k, b + 1), OrTags(Bucket(ts, k, b + 1), tags));
    } else {
      PackUnpack(|ts|, 0);
    }
  }

  lemma KeysAreInBucket(ts: seq<Tuple>, k: Bits, key: int, hash: Hash)
    requires forall i :: 0 <= i < |ts| && ts[i].key == key ==> ts[i].hash == hash
    ensures multiset(Filter(Bucket(ts, k, BucketOf(hash, k)), KeyIs(key))) == multiset(Filter(ts, KeyIs(key)))
  {
    hide Filter;
    var b := BucketOf(hash, k);
    forall t ensures multiset(Filter(Bucket(ts, k, b), KeyIs(key)))[t] == multiset(Filter(ts, KeyIs(key)))[t] {
      FilterBag(Bucket(ts, k, b), KeyIs(key), t);
      FilterBag(ts, InBucket(k, b), t);
      FilterBag(ts, KeyIs(key), t);
    }
  }

  lemma NoKeyInBucket(ts: seq<Tuple>, k: Bits, tags: seq<bv16>, key: int, hash: Hash)
    requires |tags| == TAGS
    requires forall i :: 0 <= i < |ts| && ts[i].key == key ==> ts[i].hash == hash
    requires !Admits(OrTags(Bucket(ts, k, BucketOf(hash, k)), tags), TagOf(tags, hash))
    ensures multiset(Filter(ts, KeyIs(key))) == multiset{}
  {
    hide Filter, TagOf, Admits;
    var bucket := Bucket(ts, k, BucketOf(hash, k));
    forall t ensures multiset(Filter(ts, KeyIs(key)))[t] == 0 {
      FilterBag(ts, KeyIs(key), t);
      FilterBag(ts, InBucket(k, BucketOf(hash, k)), t);
      if t.key == key && t in multiset(ts) {
        assert t in multiset(bucket);
        var i :| 0 <= i < |bucket| && bucket[i] == t;
        TagsAreAdmitted(bucket, tags, i);
      }
    }
  }
}
