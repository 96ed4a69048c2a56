// The packed directory of src/hashmap_unchained.hpp: a 64-bit entry holds a 48-bit tuple
// index (or count) above a 16-bit Bloom filter, and a bucket is the top bits of a hash.
module Directory {
  import opened Arith

  const TWO16: nat := 0x1_0000
  const TWO48: nat := 0x1_0000_0000_0000
  const TWO64: nat := 0x1_0000_0000_0000_0000

  type Word = w: nat | w < TWO64
  type Hash = h: nat | h < TWO64
  type Bits = k: nat | k <= 64

  datatype Tuple = Tuple(key: int, value: nat, hash: Hash)

  function UnpackStart(w: Word): nat { w / TWO16 }

  function UnpackFilter(w: Word): bv16 { ToBits(w % TWO16) }

  function ToBits(n: nat): bv16
    requires n < TWO16
  {
    n as bv16
  }

  function FromBits(b: bv16): (n: nat)
    ensures n < TWO16
  {
    b as nat
  }

  lemma BitsRoundTrip(b: bv16)
    ensures ToBits(FromBits(b)) == b
  {
  }

  // (start << 16) | filter, in 64 bits
  function PackEntry(start: nat, filter: bv16): Word {
    start % TWO48 * TWO16 + FromBits(filter)
  }

  // directory[slot] += 1 << 16, then |= tag: or-ing 16 bits into a word leaves the rest alone.
  function CountAndTagWord(w: Word, tag: bv16): Word {
    var sum := (w + TWO16) % TWO64;
    PackEntry(UnpackStart(sum), UnpackFilter(sum) | tag)
  }

  lemma Halves(start: nat, low: nat)
    requires start < TWO48 && low < TWO16
    ensures start * TWO16 + low < TWO64
    ensures (start * TWO16 + low) / TWO16 == start && (start * TWO16 + low) % TWO16 == low
  {
  }

  lemma PackUnpack(start: nat, filter: bv16)
    requires start < TWO48
    ensures UnpackStart(PackEntry(start, filter)) == start && UnpackFilter(PackEntry(start, filter)) == filter
    ensures PackEntry(start, filter) == start * TWO16 + FromBits(filter)
  {
    hide ToBits, FromBits;
    BitsRoundTrip(filter);
    Halves(start, FromBits(filter));
    Halves(start, 0);
  }

  // Counting keeps the filter apart from the count as long as the count fits in 48 bits.
  lemma CountAndTag(count: nat, filter: bv16, tag: bv16)
    requires count + 1 < TWO48
    ensures CountAndTagWord(PackEntry(count, filter), tag) == PackEntry(count + 1, filter | tag)
  {
    hide ToBits, FromBits;
    BitsRoundTrip(filter);
    PackUnpack(count, filter);
    PackUnpack(count + 1, filter | tag);
    Halves(count + 1, FromBits(filter));
    var sum := (count + 1) * TWO16 + FromBits(filter);
    assert PackEntry(count, filter) + TWO16 == sum;
  }

  // !(tag & ~filter)
  predicate Admits(filter: bv16, tag: bv16) {
    tag & !filter == 0
  }

  function Shr(x: nat, n: nat): nat {
    if n == 0 then x else Shr(x / 2, n - 1)
  }

  function Shl(x: nat, n: nat): nat
    decreases n
  {
    if n == 0 then x else Shl(2 * x, n - 1)
  }

  lemma {:induction false} ShrShr(x: nat, a: nat, b: nat)
    ensures Shr(Shr(x, a), b) == Shr(x, a + b)
    decreases a
  {
    if a > 0 {
      ShrShr(x / 2, a - 1, b);
    }
  }

  lemma {:induction false} ShlShl(x: nat, a: nat, b: nat)
    ensures Shl(Shl(x, a), b) == Shl(x, a + b)
    decreases a
  {
    if a > 0 {
      ShlShl(2 * x, a - 1, b);
    }
  }

  // Shifting right rounds down to the multiple that shifting left gives back.
  lemma {:induction false} ShrIsFloor(x: nat, y: nat, n: nat)
    ensures Shr(x, n) < y <==> x < Shl(y, n)
    decreases n
  {
    if n > 0 {
      ShrIsFloor(x / 2, y, n - 1);
      ShlDouble(y, n - 1);
    }
  }

  lemma {:induction false} ShlDouble(y: nat, n: nat)
    ensures Shl(2 * y, n) == 2 * Shl(y, n)
    decreases n
  {
    if n > 0 {
      ShlDouble(2 * y, n - 1);
    }
  }

  lemma {:induction false} ShlIsMonotone(x: nat, y: nat, n: nat)
    requires x < y
    ensures Shl(x, n) < Shl(y, n)
    decreases n
  {
    if n > 0 {
      ShlIsMonotone(2 * x, 2 * y, n - 1);
    }
  }

  // bucket_index_from_hash in a directory of 2^k buckets: hash >> (64 - k), and 0 for one bucket
  function BucketOf(hash: Hash, k: Bits): nat {
    if k == 0 then 0 else Shr(hash, 64 - k)
  }

  // compute_hash(key) >> 59
  function PartitionOf(hash: Hash): nat { Shr(hash, 59) }

  lemma TopBits(hash: Hash, k: Bits)
    ensures Shr(hash, 64 - k) < Shl(1, k)
  {
    ShlShl(1, k, 64 - k);
    TwoTo64();
    ShrIsFloor(hash, Shl(1, k), 64 - k);
  }

  lemma TwoTo64()
    ensures Shl(1, 64) == TWO64
  {
    ShlBy8(1);
    ShlBy8(0x100);
    ShlBy8(TWO16);
    ShlBy8(0x100_0000);
    ShlBy8(0x1_0000_0000);
    ShlBy8(0x100_0000_0000);
    ShlBy8(TWO48);
    ShlBy8(0x100_0000_0000_0000);
    ShlShl(1, 8, 8);
    ShlShl(1, 16, 8);
    ShlShl(1, 24, 8);
    ShlShl(1, 32, 8);
    ShlShl(1, 40, 8);
    ShlShl(1, 48, 8);
    ShlShl(1, 56, 8);
  }

  lemma ShlBy8(x: nat)
    ensures Shl(x, 8) == 0x100 * x
  {
    assert Shl(x, 8) == Shl(2 * x, 7) == Shl(4 * x, 6) == Shl(8 * x, 5) == Shl(16 * x, 4);
    assert Shl(16 * x, 4) == Shl(32 * x, 3) == Shl(64 * x, 2) == Shl(128 * x, 1) == Shl(256 * x, 0);
  }

  lemma BucketBound(hash: Hash, k: Bits)
    ensures BucketOf(hash, k) < Shl(1, k)
  {
    TopBits(hash, k);
  }

  // The largest k for which (32 << k) is below 2^64.
  const MOST_BITS: nat := 58

  // The first directory slot of partition p: (p << k) / 32, in 64 bits
  function FirstBucket(p: nat, k: nat): nat { Shl(p, k) % TWO64 / 32 }

  // With 2^k buckets, 5 <= k <= 58, a hash belongs to partition p exactly when its bucket lies
  // in the partition's range of directory slots.
  lemma PartitionOwnsBuckets(hash: Hash, p: nat, k: Bits)
    requires 5 <= k <= MOST_BITS && p <= 32
    ensures PartitionOf(hash) < p <==> BucketOf(hash, k) < FirstBucket(p, k)
    ensures p < 32 ==> (PartitionOf(hash) == p <==> FirstBucket(p, k) <= BucketOf(hash, k) < FirstBucket(p + 1, k))
    ensures PartitionOf(hash) < 32
  {
    FirstBucketIs(p, k);
    ShrShr(hash, 64 - k, k - 5);
    ShrIsFloor(BucketOf(hash, k), p, k - 5);
    if p < 32 {
      FirstBucketIs(p + 1, k);
      ShrIsFloor(BucketOf(hash, k), p + 1, k - 5);
    }
    TopBits(hash, 5);
    ShlIs32(1);
  }

  lemma ShlIs32(x: nat)
    ensures Shl(x, 5) == 32 * x
  {
    assert Shl(x, 5) == Shl(2 * x, 4) == Shl(4 * x, 3) == Shl(8 * x, 2) == Shl(16 * x, 1) == Shl(32 * x, 0);
  }

  lemma FirstBucketIs(p: nat, k: nat)
    requires 5 <= k <= MOST_BITS && p <= 32
    ensures FirstBucket(p, k) == Shl(p, k - 5)
  {
    ShiftFits(p, k);
    ShlShl(p, k - 5, 5);
    ShlIs32(Shl(p, k - 5));
  }

  lemma ShiftFits(p: nat, k: nat)
    requires k <= MOST_BITS && p <= 32
    ensures Shl(p, k) < TWO64
  {
    TwoTo64();
    ShlIs32(1);
    ShlShl(1, 5, k);
    ShlGrows(5 + k, 64);
    if p < 32 {
      ShlIsMonotone(p, 32, k);
    }
  }

  lemma {:induction false} ShlGrows(a: nat, b: nat)
    requires a < b
    ensures Shl(1, a) < Shl(1, b)
    decreases b
  {
    ShlDouble(1, b - 1);
    ShlPositive(b - 1);
    if a < b - 1 {
      ShlGrows(a, b - 1);
    }
  }

  lemma {:induction false} ShlPositive(n: nat)
    ensures Shl(1, n) > 0
  {
    if n > 0 {
      ShlPositive(n - 1);
      ShlDouble(1, n - 1);
    }
  }

  lemma RangesTileDirectory(p: nat, k: nat)
    requires 5 <= k <= MOST_BITS && p < 32
    ensures FirstBucket(0, k) == 0 && FirstBucket(32, k) == Shl(1, k)
    ensures FirstBucket(p, k) < FirstBucket(p + 1, k)
  {
    FirstBucketIs(0, k);
    FirstBucketIs(32, k);
    FirstBucketIs(p, k);
    FirstBucketIs(p + 1, k);
    ShlIsMonotone(p, p + 1, k - 5);
    ShlIs32(1);
    ShlShl(1, 5, k - 5);
    ShlZero(k - 5);
  }

  // The ranges reach the end of the directory exactly up to 2^58 buckets: from 2^59 on the
  // shift of the last worker's end wraps to 0.
  lemma LastRangeWraps(k: Bits)
    requires 5 <= k
    ensures FirstBucket(32, k) == Shl(1, k) <==> k <= MOST_BITS
    ensures k > MOST_BITS ==> FirstBucket(32, k) == 0
  {
    if k <= MOST_BITS {
      RangesTileDirectory(0, k);
    } else {
      ShlIs32(1);
      ShlShl(1, 5, k);
      ShlShl(1, 64, k + 5 - 64);
      TwoTo64();
      ShlOfMultiple(TWO64, k + 5 - 64);
      ShlPositive(k);
    }
  }

  lemma {:induction false} ShlOfMultiple(x: nat, n: nat)
    requires x % TWO64 == 0
    ensures Shl(x, n) % TWO64 == 0
    decreases n
  {
    if n > 0 {
      DivModUnique(2 * x, TWO64, 2 * (x / TWO64), 0);
      ShlOfMultiple(2 * x, n - 1);
    }
  }

  lemma {:induction false} ShlZero(n: nat)
    ensures Shl(0, n) == 0
    decreases n
  {
    if n > 0 {
      ShlZero(n - 1);
    }
  }
}
