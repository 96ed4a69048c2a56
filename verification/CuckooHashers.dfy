// CuckooHashers of src/hashmap_cuckoo.hpp for 64-bit keys, which std::hash leaves as they are.
module CuckooHashers {

  function Shifted(a: bv64): bv64 { a ^ (a >> 33) }

  function Scaled(a: bv64): bv64 { a * 0xff51afd7ed558ccd }

  function Rescaled(a: bv64): bv64 { a * 0xc4ceb9fe1a85ec53 }

  // mix_hash
  function MixHash(i: bv64): bv64 { Shifted(Rescaled(Shifted(Scaled(Shifted(i + 1))))) }

  function FirstHash(key: bv64): nat { key as nat }

  function SecondHash(key: bv64): nat { MixHash(key) as nat }

  // ---- every step can be undone ----

  function Unscaled(a: bv64): bv64 { a * 0x4f74430c22a54005 }

  function Unrescaled(a: bv64): bv64 { a * 0x9cb4b2f8129337db }

  lemma ShiftedIs(a: bv64, b: bv64)
    requires b == a ^ (a >> 33)
    ensures Shifted(a) == b && Shifted(b) == a
  {
  }

  lemma ScaledIs(a: bv64, b: bv64)
    requires b == a * 0xff51afd7ed558ccd
    ensures Scaled(a) == b && Unscaled(b) == a
  {
  }

  lemma RescaledIs(a: bv64, b: bv64)
    requires b == a * 0xc4ceb9fe1a85ec53
    ensures Rescaled(a) == b && Unrescaled(b) == a
  {
  }

  lemma StepsAreUndone(a: bv64)
    ensures Shifted(Shifted(a)) == a && Unscaled(Scaled(a)) == a && Unrescaled(Rescaled(a)) == a
  {
    hide Shifted, Scaled, Rescaled, Unscaled, Unrescaled;
    var b: bv64 :| b == a ^ (a >> 33);
    ShiftedIs(a, b);
    b :| b == a * 0xff51afd7ed558ccd;
    ScaledIs(a, b);
    b :| b == a * 0xc4ceb9fe1a85ec53;
    RescaledIs(a, b);
  }

  function Unmixed(x: bv64): bv64 { Shifted(Unscaled(Shifted(Unrescaled(Shifted(x))))) }

  lemma MixIsUndone(i: bv64)
    ensures Unmixed(MixHash(i)) == i + 1
  {
    hide Shifted, Scaled, Rescaled, Unscaled, Unrescaled;
    var a := Shifted(i + 1);
    var b := Shifted(Scaled(a));
    StepsAreUndone(Rescaled(b));
    StepsAreUndone(b);
    StepsAreUndone(Scaled(a));
    StepsAreUndone(a);
    StepsAreUndone(i + 1);
  }

  lemma SameNumber(x: bv64, y: bv64)
    ensures FirstHash(x) == FirstHash(y) ==> x == y
    ensures x + 1 == y + 1 ==> x == y
  {
    WordIsItsNumber(x);
    WordIsItsNumber(y);
  }

  lemma WordIsItsNumber(x: bv64)
    ensures (x as nat) as bv64 == x
  {
  }

  lemma SecondIsMixed(key: bv64)
    ensures SecondHash(key) == FirstHash(MixHash(key))
  {
  }

  // Keys that share one of their hashes share both.
  lemma HashesGoTogether(a: bv64, b: bv64)
    ensures SecondHash(a) == SecondHash(b) <==> FirstHash(a) == FirstHash(b)
  {
    hide FirstHash, SecondHash, MixHash, Unmixed;
    SecondIsMixed(a);
    SecondIsMixed(b);
    SameNumber(a, b);
    SameNumber(MixHash(a), MixHash(b));
    MixIsUndone(a);
    MixIsUndone(b);
  }
}
