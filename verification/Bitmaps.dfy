// Bytewise logic on bitmaps (src/statement.cpp) and what it does to single bits.
module Bitmaps {
  import opened PageFormat

  function BitAnd(a: nat, b: nat): nat {
    if a == 0 || b == 0 then 0 else (if a % 2 == 1 && b % 2 == 1 then 1 else 0) + 2 * BitAnd(a / 2, b / 2)
  }

  function BitOr(a: nat, b: nat): nat
    decreases a + b
  {
    if a == 0 then b else if b == 0 then a
    else (if a % 2 == 1 || b % 2 == 1 then 1 else 0) + 2 * BitOr(a / 2, b / 2)
  }

  lemma {:induction false} NoBits(k: nat)
    ensures !BitOf(0, k)
  {
    if k > 0 {
      NoBits(k - 1);
    }
  }

  lemma {:induction false} AndBits(a: nat, b: nat, k: nat)
    ensures BitOf(BitAnd(a, b), k) == (BitOf(a, k) && BitOf(b, k))
    decreases k
  {
    NoBits(k);
    if k > 0 && a != 0 && b != 0 {
      AndBits(a / 2, b / 2, k - 1);
    }
  }

  lemma {:induction false} OrBits(a: nat, b: nat, k: nat)
    ensures BitOf(BitOr(a, b), k) == (BitOf(a, k) || BitOf(b, k))
    decreases k
  {
    NoBits(k);
    if k > 0 && a != 0 && b != 0 {
      OrBits(a / 2, b / 2, k - 1);
    }
  }

  lemma {:induction false} NotBits(b: nat, k: nat, n: nat)
    requires k < n && b < Two(n)
    ensures BitOf(Two(n) - 1 - b, k) == !BitOf(b, k)
    decreases k
  {
    if k > 0 {
      NotBits(b / 2, k - 1, n - 1);
      assert (Two(n) - 1 - b) / 2 == Two(n - 1) - 1 - b / 2;
    }
  }

  lemma {:induction false} BitAndFits(a: nat, b: nat)
    ensures BitAnd(a, b) <= a
  {
    if a != 0 && b != 0 {
      BitAndFits(a / 2, b / 2);
    }
  }

  lemma {:induction false} BitOrFits(a: nat, b: nat, n: nat)
    requires a < Two(n) && b < Two(n)
    ensures BitOr(a, b) < Two(n)
    decreases n
  {
    if a != 0 && b != 0 {
      BitOrFits(a / 2, b / 2, n - 1);
    }
  }

  lemma ByteIsEightBits()
    ensures Two(8) == 256
  {
    assert Two(8) == 2 * Two(7) == 4 * Two(6) == 8 * Two(5) == 16 * Two(4) == 32 * Two(3) == 64 * Two(2);
  }

  function ByteAnd(a: Byte, b: Byte): Byte { BitAndFits(a, b); BitAnd(a, b) }

  function ByteOr(a: Byte, b: Byte): Byte { ByteIsEightBits(); BitOrFits(a, b, 8); BitOr(a, b) }

  function ByteNot(b: Byte): Byte { 255 - b }

  predicate Bit(bitmap: seq<Byte>, i: nat) {
    i / 8 < |bitmap| && BitAt(bitmap, i)
  }

  // Row i's bit is in byte i / 8, the lowest bit first.
  lemma BitIs(bitmap: seq<Byte>, i: nat)
    ensures Bit(bitmap, i) <==> i / 8 < |bitmap| && bitmap[i / 8] / [1, 2, 4, 8, 16, 32, 64, 128][i % 8] % 2 == 1
  {
    hide BitOf;
    if i / 8 < |bitmap| {
      BitsOfByte(bitmap[i / 8], i % 8);
    }
  }

  method BitmapNot(bitmap: seq<Byte>) returns (ret: seq<Byte>)
    ensures |ret| == |bitmap| && forall i :: 0 <= i / 8 < |ret| && 0 <= i ==> Bit(ret, i) == !Bit(bitmap, i)
  {
    hide BitOf, ByteNot;
    ret := bitmap;
    for b := 0 to |bitmap|
      invariant |ret| == |bitmap| && ret[b..] == bitmap[b..]
      invariant forall c :: 0 <= c < b ==> ret[c] == ByteNot(bitmap[c])
    {
      ret := ret[b := ByteNot(ret[b])];
    }
    forall i | 0 <= i / 8 < |ret| && 0 <= i ensures Bit(ret, i) == !Bit(bitmap, i) {
      ByteNotBits(bitmap[i / 8], i % 8);
    }
  }

  lemma ByteNotBits(b: Byte, k: nat)
    requires k < 8
    ensures BitOf(ByteNot(b), k) == !BitOf(b, k)
  {
    ByteIsEightBits();
    NotBits(b, k, 8);
  }

  method BitmapAnd(lhs: seq<Byte>, rhs: seq<Byte>) returns (ret: seq<Byte>)
    requires |lhs| == |rhs|
    ensures |ret| == |lhs| && forall i :: 0 <= i / 8 < |ret| && 0 <= i ==> Bit(ret, i) == (Bit(lhs, i) && Bit(rhs, i))
  {
    hide BitOf, BitAnd;
    ret := seq(|lhs|, _ => 0);
    for b := 0 to |lhs|
      invariant |ret| == |lhs| && forall c :: 0 <= c < b ==> ret[c] == ByteAnd(lhs[c], rhs[c])
    {
      ret := ret[b := ByteAnd(lhs[b], rhs[b])];
    }
    forall i | 0 <= i / 8 < |ret| && 0 <= i ensures Bit(ret, i) == (Bit(lhs, i) && Bit(rhs, i)) {
      AndBits(lhs[i / 8], rhs[i / 8], i % 8);
    }
  }

  method BitmapOr(lhs: seq<Byte>, rhs: seq<Byte>) returns (ret: seq<Byte>)
    requires |lhs| == |rhs|
    ensures |ret| == |lhs| && forall i :: 0 <= i / 8 < |ret| && 0 <= i ==> Bit(ret, i) == (Bit(lhs, i) || Bit(rhs, i))
  {
    hide BitOf, BitOr;
    ret := seq(|lhs|, _ => 0);
    for b := 0 to |lhs|
      invariant |ret| == |lhs| && forall c :: 0 <= c < b ==> ret[c] == ByteOr(lhs[c], rhs[c])
    {
      ret := ret[b := ByteOr(lhs[b], rhs[b])];
    }
    forall i | 0 <= i / 8 < |ret| && 0 <= i ensures Bit(ret, i) == (Bit(lhs, i) || Bit(rhs, i)) {
      OrBits(lhs[i / 8], rhs[i / 8], i % 8);
    }
  }
}
