// The 8-byte value_t and the packed string reference of include/columnar_utils.hpp: three
// kind bits below 61 bits of payload. Fields that do not overlap are or-ed by adding them.
module Values {
  import opened Arith

  const TWO61: int := 0x2000_0000_0000_0000
  const TWO32: int := 0x1_0000_0000

  type I32 = i: int | -0x8000_0000 <= i < 0x8000_0000

  type I64 = i: int | -0x8000_0000_0000_0000 <= i < 0x8000_0000_0000_0000

  datatype StrRep = StrRep(table: nat, column: nat, page: nat, offset: nat)

  datatype Value = Null | Int32(i: int) | Text(rep: StrRep)

  const KIND_NULL: nat := 0
  const KIND_INT32: nat := 1
  const KIND_STRING: nat := 2

  // static_cast<int32_t>: the low 32 bits, read as a two's complement number
  function Wrap32(i: int): I32 {
    var low := i % TWO32;
    if low < 0x8000_0000 then low else low - TWO32
  }

  // The low 61 bits of the sign-extended integer, above the kind.
  function MakeInt32(i: I32): nat {
    (i % TWO61) * 8 + KIND_INT32
  }

  // Sign-extends the payload from bit 60.
  function AsI32(raw: nat): I32 {
    var payload := raw / 8 % TWO61;
    Wrap32(if payload >= TWO61 / 2 then payload - TWO61 else payload)
  }

  function MakeString(r: StrRep): nat {
    var payload := r.table % 0x20 + r.column % 0x8 * 0x20 + r.page % 0x10_0000 * 0x100 + r.offset % 0x1_0000 * 0x1000_0000;
    payload * 8 + KIND_STRING
  }

  function AsStrRep(raw: nat): StrRep {
    var payload := raw / 8;
    StrRep(payload % 0x20, payload / 0x20 % 0x8, payload / 0x100 % 0x10_0000, payload / 0x1000_0000 % 0x1_0000)
  }

  function Kind(raw: nat): nat { raw % 8 }

  predicate RepFits(r: StrRep) {
    r.table < 0x20 && r.column < 0x8 && r.page < 0x10_0000 && r.offset < 0x1_0000
  }

  predicate Packable(v: Value) {
    match v
    case Null => true
    case Int32(i) => -0x8000_0000 <= i < 0x8000_0000
    case Text(rep) => RepFits(rep)
  }

  lemma Int32Word(i: I32)
    ensures AsI32(MakeInt32(i)) == i && Kind(MakeInt32(i)) == KIND_INT32
    ensures MakeInt32(i) == 8 * (if i < 0 then i + 0x2000_0000_0000_0000 else i) + 1
  {
    DivModUnique(MakeInt32(i), 8, i % TWO61, KIND_INT32);
    DivModUnique(i, TWO61, if i < 0 then -1 else 0, if i < 0 then i + TWO61 else i);
    DivModUnique(i, TWO32, if i < 0 then -1 else 0, if i < 0 then i + TWO32 else i);
  }

  lemma Fields(a: nat, b: nat, c: nat, d: nat)
    requires a < 0x20 && b < 0x8 && c < 0x10_0000 && d < 0x1_0000
    ensures var p := a + b * 0x20 + c * 0x100 + d * 0x1000_0000;
            && p % 0x20 == a && p / 0x20 % 0x8 == b && p / 0x100 % 0x10_0000 == c && p / 0x1000_0000 % 0x1_0000 == d
            && p * 8 + KIND_STRING < 0x1_0000_0000_0000_0000
  {
    var p := a + b * 0x20 + c * 0x100 + d * 0x1000_0000;
    DivModUnique(p, 0x20, b + 0x8 * (c + 0x10_0000 * d), a);
    DivModUnique(b + 0x8 * (c + 0x10_0000 * d), 0x8, c + 0x10_0000 * d, b);
    DivModUnique(p, 0x100, c + 0x10_0000 * d, a + b * 0x20);
    DivModUnique(c + 0x10_0000 * d, 0x10_0000, d, c);
    DivModUnique(p, 0x1000_0000, d, a + b * 0x20 + c * 0x100);
  }

  lemma StringWord(r: StrRep)
    ensures Kind(MakeString(r)) == KIND_STRING
    ensures AsStrRep(MakeString(r)) == r <==> RepFits(r)
    ensures RepFits(r) ==> MakeString(r) == 8 * (r.table + 32 * r.column + 256 * r.page + 268435456 * r.offset) + 2
    ensures MakeString(r) < 0x1_0000_0000_0000_0000
  {
    var a, b, c, d := r.table % 0x20, r.column % 0x8, r.page % 0x10_0000, r.offset % 0x1_0000;
    var payload := a + b * 0x20 + c * 0x100 + d * 0x1000_0000;
    DivModUnique(MakeString(r), 8, payload, KIND_STRING);
    Fields(a, b, c, d);
  }

  function Raw(v: Value): nat
    requires v.Int32? ==> Packable(v)
  {
    match v
    case Null => KIND_NULL
    case Int32(i) => MakeInt32(i)
    case Text(rep) => MakeString(rep)
  }

  // What the accessors make of a word: as_i32 or as_str_rep by its kind.
  function Unraw(raw: nat): Value {
    if Kind(raw) == KIND_INT32 then Int32(AsI32(raw))
    else if Kind(raw) == KIND_STRING then Text(AsStrRep(raw))
    else Null
  }

  // A value comes back from its word exactly when its fields fit.
  lemma ValueSurvivesPacking(v: Value)
    requires v.Int32? ==> Packable(v)
    ensures Unraw(Raw(v)) == v <==> Packable(v)
    ensures Raw(v) < 0x1_0000_0000_0000_0000
  {
    match v
    case Null =>
    case Int32(i) =>
      hide AsI32;
      Int32Word(i);
    case Text(rep) =>
      hide AsStrRep;
      StringWord(rep);
  }
}
