// The 8192-byte page (include/plan.h, src/build_table.cpp): little-endian 16-bit header words,
// a bitmap at the end with one bit per row, and values from the front.
module PageFormat {
  import opened Arith

  const PAGE_SIZE: nat := 8192

  type Byte = b: nat | b < 256

  type Page = p: seq<Byte> | |p| == PAGE_SIZE witness seq(PAGE_SIZE, _ => 0)

  function U16(n: nat): seq<Byte>
    requires n < 0x1_0000
  {
    [n % 256, n / 256]
  }

  function U16At(p: seq<Byte>, at: nat): nat
    requires at + 2 <= |p|
  {
    p[at] as nat + 256 * (p[at + 1] as nat)
  }

  // memcpy into a page
  function Splice(p: seq<Byte>, at: nat, bytes: seq<Byte>): (q: seq<Byte>)
    requires at + |bytes| <= |p|
    ensures |q| == |p|
  {
    p[..at] + bytes + p[at + |bytes|..]
  }

  lemma SpliceIs(p: seq<Byte>, at: nat, bytes: seq<Byte>)
    requires at + |bytes| <= |p|
    ensures Splice(p, at, bytes)[at..at + |bytes|] == bytes
    ensures forall i, j :: 0 <= i <= j <= |p| && (j <= at || at + |bytes| <= i) ==>
              Splice(p, at, bytes)[i..j] == p[i..j]
  {
    var q := Splice(p, at, bytes);
    forall i, j | 0 <= i <= j <= |p| && (j <= at || at + |bytes| <= i) ensures q[i..j] == p[i..j] {
    }
  }

  lemma U16Reads(p: seq<Byte>, at: nat, n: nat)
    requires n < 0x1_0000 && at + 2 <= |p| && p[at..at + 2] == U16(n)
    ensures U16At(p, at) == n
  {
    assert p[at] == p[at..at + 2][0] && p[at + 1] == p[at..at + 2][1];
  }

  // The lower byte comes first.
  lemma WordIsTwoBytes(p: seq<Byte>, at: nat, n: nat)
    requires at + 2 <= |p| && U16At(p, at) == n
    ensures p[at] == n % 256 && p[at + 1] == n / 256
  {
  }

  // The two header words of a page.
  function WithHeader(p: seq<Byte>, first: nat, second: nat): (q: seq<Byte>)
    requires |p| >= 4 && first < 0x1_0000 && second < 0x1_0000
    ensures |q| == |p|
  {
    Splice(Splice(p, 0, U16(first)), 2, U16(second))
  }

  lemma HeaderReads(p: seq<Byte>, first: nat, second: nat)
    requires |p| >= 4 && first < 0x1_0000 && second < 0x1_0000
    ensures U16At(WithHeader(p, first, second), 0) == first && U16At(WithHeader(p, first, second), 2) == second
    ensures WithHeader(p, first, second)[4..] == p[4..]
  {
    hide Splice, U16At;
    var q := Splice(p, 0, U16(first));
    SpliceIs(p, 0, U16(first));
    SpliceIs(q, 2, U16(second));
    var r := Splice(q, 2, U16(second));
    assert r[0..2] == q[0..2];
    assert r[4..|p|] == q[4..|p|] == p[4..|p|];
    U16Reads(r, 0, first);
    U16Reads(r, 2, second);
    assert WithHeader(p, first, second) == r && r[4..] == r[4..|p|] && p[4..] == p[4..|p|];
  }

  // Writing behind the header keeps it.
  lemma SpliceKeepsHeader(p: seq<Byte>, at: nat, bytes: seq<Byte>)
    requires 4 <= at && at + |bytes| <= |p|
    ensures U16At(Splice(p, at, bytes), 0) == U16At(p, 0) && U16At(Splice(p, at, bytes), 2) == U16At(p, 2)
  {
  }

  // b & (1 << k)
  predicate BitOf(b: nat, k: nat) {
    if k == 0 then b % 2 == 1 else BitOf(b / 2, k - 1)
  }

  // b with bit k set to v: b |= 1 << k, or b &= ~(1 << k)
  function PutBit(b: nat, k: nat, v: bool): nat {
    if k == 0 then b / 2 * 2 + (if v then 1 else 0) else 2 * PutBit(b / 2, k - 1, v) + b % 2
  }

  lemma {:induction false} BitsAfterPut(b: nat, k: nat, v: bool, j: nat)
    ensures BitOf(PutBit(b, k, v), j) == if j == k then v else BitOf(b, j)
  {
    if k > 0 && j > 0 {
      BitsAfterPut(b / 2, k - 1, v, j - 1);
    }
  }

  function Two(n: nat): nat {
    if n == 0 then 1 else 2 * Two(n - 1)
  }

  lemma {:induction false} PutBitFits(b: nat, k: nat, v: bool, n: nat)
    requires k < n && b < Two(n)
    ensures PutBit(b, k, v) < Two(n)
  {
    assert Two(n) == 2 * Two(n - 1) && b / 2 < Two(n - 1);
    if k > 0 {
      PutBitFits(b / 2, k - 1, v, n - 1);
    }
  }

  function ByteWithBit(b: Byte, k: nat, v: bool): Byte
    requires k < 8
  {
    assert Two(8) == 2 * Two(7) == 4 * Two(6) == 8 * Two(5) == 16 * Two(4) == 32 * Two(3) == 64 * Two(2);
    PutBitFits(b, k, v, 8);
    PutBit(b, k, v)
  }

  lemma BitsAfterUpdate(b: Byte, k: nat, v: bool, j: nat)
    requires k < 8
    ensures BitOf(ByteWithBit(b, k, v), j) == if j == k then v else BitOf(b, j)
  {
    BitsAfterPut(b, k, v, j);
  }

  predicate BitAt(bitmap: seq<Byte>, i: nat)
    requires i / 8 < |bitmap|
  {
    BitOf(bitmap[i / 8], i % 8)
  }

  // The bits of a byte, the lowest first.
  lemma BitsOfByte(b: nat, k: nat)
    requires k < 8
    ensures BitOf(b, k) <==> b / [1, 2, 4, 8, 16, 32, 64, 128][k] % 2 == 1
  {
    BitIsQuotient(b, k);
    assert Two(k) == [1, 2, 4, 8, 16, 32, 64, 128][k] by {
      assert Two(7) == 2 * Two(6) == 4 * Two(5) == 8 * Two(4) == 16 * Two(3) == 32 * Two(2) == 64 * Two(1) == 128;
    }
  }

  lemma {:induction false} BitIsQuotient(b: nat, k: nat)
    ensures Two(k) > 0 && (BitOf(b, k) <==> b / Two(k) % 2 == 1)
  {
    if k > 0 {
      BitIsQuotient(b / 2, k - 1);
      HalfQuotient(b, Two(k - 1));
    }
  }

  function BitmapBytes(rows: nat): nat { (rows + 7) / 8 }
}
