// Filter statements (src/statement.cpp): the bitmap evaluation over columns against the
// evaluation row by row.
module Statements {
  import opened Arith
  import opened Options
  import opened PageFormat
  import opened FixedPages
  import opened Bitmaps
  import opened Values
  import opened InnerColumns

  datatype Data = IntData(i: I32) | LongData(l: I64) | RealData(r: real) | TextData(s: Bytes) | NoData

  datatype Literal = IntLiteral(n: I64) | RealLiteral(x: real) | TextLiteral(s: Bytes) | NoLiteral

  // What the statements leave to others: LIKE, and the conversion of a 64-bit integer to double.
  datatype Env = Env(like: (Bytes, Bytes) -> bool, toDouble: int -> real)

  datatype LogicalType = AND | OR | NOT

  datatype Statement =
    | Comparison(column: nat, op: Op, value: Literal)
    | LogicalOperation(logical: LogicalType, children: seq<Statement>)

  // ---- row by row ----

  // get_numeric_value
  function NumberOf(d: Data, env: Env): Option<real> {
    match d
    case IntData(i) => Some(i as real)
    case LongData(l) => Some(env.toDouble(l))
    case RealData(r) => Some(r)
    case _ => None
  }

  function NumberIn(v: Literal, env: Env): Option<real> {
    match v
    case IntLiteral(n) => Some(env.toDouble(n))
    case RealLiteral(x) => Some(x)
    case _ => None
  }

  predicate CompareData(op: Op, d: Data, v: Literal, env: Env) {
    if op == IS_NULL then d.NoData?
    else if op == IS_NOT_NULL then !d.NoData?
    else if op == LIKE || op == NOT_LIKE then d.TextData? && v.TextLiteral? && (env.like(d.s, v.s) == (op == LIKE))
    else if NumberOf(d, env).Some? && NumberIn(v, env).Some? then
      CompareReals(op, NumberOf(d, env).value, NumberIn(v, env).value)
    else if d.TextData? && v.TextLiteral? then CompareTexts(op, d.s, v.s, env.like)
    else false
  }

  predicate EvalRow(s: Statement, record: seq<Data>, env: Env) {
    match s
    case Comparison(column, op, value) => column < |record| && CompareData(op, record[column], value, env)
    case LogicalOperation(AND, children) => forall c :: 0 <= c < |children| ==> EvalRow(children[c], record, env)
    case LogicalOperation(OR, children) => exists c :: 0 <= c < |children| && EvalRow(children[c], record, env)
    case LogicalOperation(NOT, children) => |children| == 1 && !EvalRow(children[0], record, env)
  }

  // What a comparison makes of a row with a number x against a number y.
  lemma NumbersOfRow(column: nat, op: Op, value: Literal, record: seq<Data>, env: Env, x: real, y: real)
    requires column < |record|
    requires match record[column]
             case IntData(i) => x == i as real
             case LongData(l) => x == env.toDouble(l)
             case RealData(r) => x == r
             case _ => false
    requires match value case IntLiteral(n) => y == env.toDouble(n) case RealLiteral(r) => y == r case _ => false
    ensures var taken := EvalRow(Comparison(column, op, value), record, env);
            match op
            case EQ => taken == (x == y)
            case NEQ => taken == (x != y)
            case LT => taken == (x < y)
            case GT => taken == (x > y)
            case LEQ => taken == (x <= y)
            case GEQ => taken == (x >= y)
            case LIKE => !taken
            case NOT_LIKE => !taken
            case IS_NULL => !taken
            case IS_NOT_NULL => taken
  {
  }

  // And of a row with a string, or a null, or with a value of another kind than the literal.
  lemma TextsOfRow(column: nat, op: Op, a: Bytes, b: Bytes, record: seq<Data>, env: Env)
    requires column < |record| && record[column] == TextData(a)
    ensures var taken := EvalRow(Comparison(column, op, TextLiteral(b)), record, env);
            match op
            case EQ => taken == (a == b)
            case NEQ => taken == (a != b)
            case LT => taken == Precedes(a, b)
            case GT => taken == Precedes(b, a)
            case LEQ => taken == !Precedes(b, a)
            case GEQ => taken == !Precedes(a, b)
            case LIKE => taken == env.like(a, b)
            case NOT_LIKE => taken == !env.like(a, b)
            case IS_NULL => !taken
            case IS_NOT_NULL => taken
  {
    TextIsTaken(op, a, b, env.like);
  }

  lemma OthersOfRow(column: nat, op: Op, value: Literal, record: seq<Data>, env: Env)
    requires column < |record|
    requires match record[column]
             case NoData => true
             case TextData(_) => !value.TextLiteral?
             case _ => !value.IntLiteral? && !value.RealLiteral?
    ensures EvalRow(Comparison(column, op, value), record, env) <==>
            (op == IS_NULL && record[column] == NoData) || (op == IS_NOT_NULL && record[column] != NoData)
  {
  }

  lemma OperationOfRow(logical: LogicalType, children: seq<Statement>, record: seq<Data>, env: Env)
    ensures EvalRow(LogicalOperation(logical, children), record, env) <==>
            match logical
            case AND => forall c :: 0 <= c < |children| ==> EvalRow(children[c], record, env)
            case OR => exists c :: 0 <= c < |children| && EvalRow(children[c], record, env)
            case NOT => |children| == 1 && !EvalRow(children[0], record, env)
  {
  }

  // ---- columns ----

  datatype ColumnRef =
    | IntRef(ints: NumberColumn<I32>)
    | LongRef(longs: NumberColumn<I64>)
    | RealRef(reals: NumberColumn<real>)
    | TextRef(texts: StringColumn)

  function Ints(table: seq<ColumnRef>): set<object> {
    set c | 0 <= c < |table| && table[c].IntRef? :: table[c].ints
  }

  function Longs(table: seq<ColumnRef>): set<object> {
    set c | 0 <= c < |table| && table[c].LongRef? :: table[c].longs
  }

  function Reals(table: seq<ColumnRef>): set<object> {
    set c | 0 <= c < |table| && table[c].RealRef? :: table[c].reals
  }

  function Texts(table: seq<ColumnRef>): set<object> {
    set c | 0 <= c < |table| && table[c].TextRef? :: table[c].texts
  }

  // The objects of the columns.
  function Objects(table: seq<ColumnRef>): set<object> {
    Ints(table) + Longs(table) + Reals(table) + Texts(table)
  }

  ghost predicate TableOk(table: seq<ColumnRef>, rows: nat)
    reads Objects(table)
  {
    forall c :: 0 <= c < |table| ==>
      match table[c]
      case IntRef(ints) => ints.Valid() && |ints.data| == rows
      case LongRef(longs) => longs.Valid() && |longs.data| == rows
      case RealRef(reals) => reals.Valid() && |reals.data| == rows
      case TextRef(texts) => texts.Valid() && texts.row == rows
  }

  ghost function DataAt(table: seq<ColumnRef>, rows: nat, c: nat, i: nat): Data
    requires TableOk(table, rows) && c < |table| && i < rows
    reads Objects(table)
  {
    match table[c]
    case IntRef(ints) => if ints.CellAt(i).Some? then IntData(ints.CellAt(i).value) else NoData
    case LongRef(longs) => if longs.CellAt(i).Some? then LongData(longs.CellAt(i).value) else NoData
    case RealRef(reals) => if reals.CellAt(i).Some? then RealData(reals.CellAt(i).value) else NoData
    case TextRef(texts) => if texts.CellAt(i).Some? then TextData(texts.CellAt(i).value) else NoData
  }

  // Row i of the table.
  ghost function Record(table: seq<ColumnRef>, rows: nat, i: nat): (record: seq<Data>)
    requires TableOk(table, rows) && i < rows
    reads Objects(table)
    ensures |record| == |table| && forall c :: 0 <= c < |table| ==> record[c] == DataAt(table, rows, c, i)
  {
    seq(|table|, c requires 0 <= c < |table| && TableOk(table, rows) reads Objects(table) => DataAt(table, rows, c, i))
  }

  // What the columns hold, row by row.
  ghost predicate Holds(table: seq<ColumnRef>, records: seq<seq<Data>>)
    reads Objects(table)
  {
    && TableOk(table, |records|)
    && forall i :: 0 <= i < |records| ==> records[i] == Record(table, |records|, i)
  }

  predicate IsNullTest(op: Op) { op == IS_NULL || op == IS_NOT_NULL }

  predicate IsLike(op: Op) { op == LIKE || op == NOT_LIKE }

  // Literals have the column's type, AND and OR two children, NOT one.
  predicate WellTyped(s: Statement, table: seq<ColumnRef>) {
    match s
    case Comparison(column, op, value) =>
      && column < |table|
      && (IsNullTest(op) ||
          match table[column]
          case IntRef(_) => !IsLike(op) && value.IntLiteral?
          case LongRef(_) => !IsLike(op) && value.IntLiteral?
          case RealRef(_) => !IsLike(op) && value.RealLiteral?
          case TextRef(_) => value.TextLiteral?)
    case LogicalOperation(logical, children) =>
      && |children| == (if logical == NOT then 1 else 2)
      && forall c :: 0 <= c < |children| ==> WellTyped(children[c], table)
  }

  // ---- literals ----

  // When the cut-off literal compares with every int32 as the literal itself does.
  predicate Faithful(op: Op, n: int) {
    || -0x8000_0000 <= n < 0x8000_0000
    || (n >= 0x8000_0000 && (op == GT || op == LEQ) && Wrap32(n) == 0x7FFF_FFFF)
    || (n < -0x8000_0000 && (op == LT || op == GEQ) && Wrap32(n) == -0x8000_0000)
  }

  predicate Agrees(op: Op, v: I32, n: int) {
    CompareInts(op, v, Wrap32(n)) == CompareInts(op, v, n)
  }

  lemma WrapInRange(n: I32)
    ensures Wrap32(n) == n
  {
    DivModUnique(n, TWO32, if n < 0 then -1 else 0, if n < 0 then n + TWO32 else n);
  }

  // static_cast<int32_t> of the literal keeps a comparison for every value exactly when Faithful.
  lemma LiteralsAgree(op: Op, n: int)
    requires !IsNullTest(op) && !IsLike(op)
    ensures (forall v: I32 :: Agrees(op, v, n)) <==> Faithful(op, n)
  {
    if -0x8000_0000 <= n < 0x8000_0000 {
      WrapInRange(n);
    } else if Faithful(op, n) {
    } else {
      hide Wrap32;
      var w := Wrap32(n);
      var top: I32, bottom: I32 := 0x7FFF_FFFF, -0x8000_0000;
      assert !Agrees(op, w, n) || !Agrees(op, top, n) || !Agrees(op, bottom, n);
    }
  }

  // No literal outside int32 is met by =, but the cut-off one is: x = 4294967296 takes the zeros.
  lemma WrappedLiteralMatches()
    ensures CompareInts(EQ, 0, Wrap32(0x1_0000_0000)) && !CompareInts(EQ, 0, 0x1_0000_0000)
  {
  }

  // The conversion to double keeps the order, and every integer up to 2^53.
  ghost predicate Rounding(toDouble: int -> real) {
    && (forall a, b :: a <= b ==> toDouble(a) <= toDouble(b))
    && (forall a :: -0x20_0000_0000_0000 <= a <= 0x20_0000_0000_0000 ==> toDouble(a) == a as real)
  }

  // No neighbour of the literal on the side that matters has the same double.
  ghost predicate Apart(op: Op, n: I64, toDouble: int -> real) {
    && ((op == EQ || op == NEQ || op == LT || op == GEQ) && n > -0x8000_0000_0000_0000 ==> toDouble(n - 1) != toDouble(n))
    && ((op == EQ || op == NEQ || op == GT || op == LEQ) && n < 0x7FFF_FFFF_FFFF_FFFF ==> toDouble(n + 1) != toDouble(n))
  }

  ghost predicate AsDoubles(op: Op, v: I64, n: I64, toDouble: int -> real) {
    CompareReals(op, toDouble(v), toDouble(n)) == CompareInts(op, v, n)
  }

  // Comparing as doubles, as the row evaluation does, is comparing as 64-bit integers for
  // every value exactly when the literal is apart.
  lemma DoublesAgree(op: Op, n: I64, toDouble: int -> real)
    requires Rounding(toDouble) && !IsNullTest(op) && !IsLike(op)
    ensures (forall v: I64 :: AsDoubles(op, v, n, toDouble)) <==> Apart(op, n, toDouble)
  {
    if Apart(op, n, toDouble) {
      forall v: I64 ensures AsDoubles(op, v, n, toDouble) {
        if v < n {
          assert toDouble(v) <= toDouble(n - 1) <= toDouble(n);
        } else if v > n {
          assert toDouble(n) <= toDouble(n + 1) <= toDouble(v);
        }
      }
    } else {
      var low: I64 := if n > -0x8000_0000_0000_0000 then n - 1 else n;
      var high: I64 := if n < 0x7FFF_FFFF_FFFF_FFFF then n + 1 else n;
      assert !AsDoubles(op, low, n, toDouble) || !AsDoubles(op, high, n, toDouble);
    }
  }

  // Literals below 2^53 are apart; x = 2^53 takes 2^53 + 1 row by row, as both are one double,
  // and not in the bitmap evaluation.
  lemma SmallLiteralsAreApart(op: Op, n: I64, toDouble: int -> real)
    requires Rounding(toDouble) && -0x20_0000_0000_0000 < n < 0x20_0000_0000_0000
    ensures Apart(op, n, toDouble)
  {
  }

  lemma RoundedLiteralMatches(env: Env)
    requires Rounding(env.toDouble) && env.toDouble(0x20_0000_0000_0001) == env.toDouble(0x20_0000_0000_0000)
    ensures var d, v := LongData(0x20_0000_0000_0001), IntLiteral(0x20_0000_0000_0000);
            CompareData(EQ, d, v, env) && !ColumnTakes(EQ, d, v, env)
  {
  }

  // An int32 against a 64-bit literal compares as doubles like as integers.
  lemma Int32AsDouble(op: Op, v: I32, n: I64, toDouble: int -> real)
    requires Rounding(toDouble)
    ensures CompareReals(op, v as real, toDouble(n)) == CompareInts(op, v, n)
  {
    assert toDouble(v) == v as real && toDouble(v - 1) == (v - 1) as real && toDouble(v + 1) == (v + 1) as real;
    if n < v {
      assert toDouble(n) <= toDouble(v - 1);
    } else if n > v {
      assert toDouble(v + 1) <= toDouble(n);
    }
  }

  ghost predicate Exact(s: Statement, table: seq<ColumnRef>, env: Env) {
    match s
    case Comparison(column, op, value) =>
      column < |table| && !IsNullTest(op) && value.IntLiteral? ==>
        && (table[column].IntRef? ==> Faithful(op, value.n))
        && (table[column].LongRef? ==> Apart(op, value.n, env.toDouble))
    case LogicalOperation(_, children) => forall c :: 0 <= c < |children| ==> Exact(children[c], table, env)
  }

  // ---- bitmaps ----

  // What the kernel of a column makes of a cell: an INT32 literal is cut off to 32 bits, and
  // integers are compared as integers.
  predicate ColumnTakes(op: Op, d: Data, v: Literal, env: Env) {
    if op == IS_NULL then d.NoData?
    else if op == IS_NOT_NULL then !d.NoData?
    else
      match (d, v)
      case (IntData(i), IntLiteral(n)) => CompareInts(op, i, Wrap32(n))
      case (LongData(l), IntLiteral(n)) => CompareInts(op, l, n)
      case (RealData(r), RealLiteral(x)) => CompareReals(op, r, x)
      case (TextData(a), TextLiteral(b)) => CompareTexts(op, a, b, env.like)
      case (_, _) => false
  }

  // Which cells are to be taken, operator by operator: strings in the order of their first
  // byte that differs, numbers of an INT32 column against the low 32 bits of the literal.
  ghost predicate ColumnTaken(op: Op, d: Data, v: Literal, env: Env, taken: bool) {
    && (op == IS_NULL ==> taken == (d == NoData))
    && (op == IS_NOT_NULL ==> taken == (d != NoData))
    && (d == NoData && !IsNullTest(op) ==> !taken)
    && (d.IntData? && v.IntLiteral? ==>
          var w := Wrap32(v.n);
          match op
          case EQ => taken == (d.i == w)
          case NEQ => taken == (d.i != w)
          case LT => taken == (d.i < w)
          case GT => taken == (d.i > w)
          case LEQ => taken == (d.i <= w)
          case GEQ => taken == (d.i >= w)
          case _ => true)
    && (d.LongData? && v.IntLiteral? ==>
          match op
          case EQ => taken == (d.l == v.n)
          case NEQ => taken == (d.l != v.n)
          case LT => taken == (d.l < v.n)
          case GT => taken == (d.l > v.n)
          case LEQ => taken == (d.l <= v.n)
          case GEQ => taken == (d.l >= v.n)
          case _ => true)
    && (d.RealData? && v.RealLiteral? ==>
          match op
          case EQ => taken == (d.r == v.x)
          case NEQ => taken == (d.r != v.x)
          case LT => taken == (d.r < v.x)
          case GT => taken == (d.r > v.x)
          case LEQ => taken == (d.r <= v.x)
          case GEQ => taken == (d.r >= v.x)
          case _ => true)
    && (d.TextData? && v.TextLiteral? ==>
          match op
          case EQ => taken == (d.s == v.s)
          case NEQ => taken == (d.s != v.s)
          case LT => taken == Precedes(d.s, v.s)
          case GT => taken == Precedes(v.s, d.s)
          case LEQ => taken == !Precedes(v.s, d.s)
          case GEQ => taken == !Precedes(d.s, v.s)
          case LIKE => taken == env.like(d.s, v.s)
          case NOT_LIKE => taken == !env.like(d.s, v.s)
          case _ => true)
  }

  // The int32 that differs from the literal by a multiple of 2^32.
  lemma WrapIsUnique(n: int, w: int)
    ensures Wrap32(n) == w <==> -0x8000_0000 <= w < 0x8000_0000 && (n - w) % 0x1_0000_0000 == 0
  {
    if -0x8000_0000 <= w < 0x8000_0000 && (n - w) % 0x1_0000_0000 == 0 {
      var q := (n - w) / 0x1_0000_0000;
      DivModUnique(n, TWO32, if w < 0 then q - 1 else q, if w < 0 then w + TWO32 else w);
    } else if Wrap32(n) == w {
      DivModUnique(n - w, TWO32, n / TWO32 + if w < 0 then 1 else 0, 0);
    }
  }

  lemma ColumnTakesWhen(op: Op, d: Data, v: Literal, env: Env)
    ensures ColumnTaken(op, d, v, env, ColumnTakes(op, d, v, env))
  {
    hide Wrap32;
    if d.TextData? && v.TextLiteral? {
      TextColumnTakes(op, d.s, v.s, env);
    } else {
      hide CompareTexts;
    }
  }

  lemma TextColumnTakes(op: Op, a: Bytes, b: Bytes, env: Env)
    ensures ColumnTaken(op, TextData(a), TextLiteral(b), env, ColumnTakes(op, TextData(a), TextLiteral(b), env))
  {
    hide CompareTexts, Precedes;
    TextIsTaken(op, a, b, env.like);
  }

  // Comparison::eval over columns: the rows it takes.
  method EvalComparison(column: nat, op: Op, value: Literal, table: seq<ColumnRef>, rows: nat, env: Env)
    returns (ret: seq<Byte>)
    requires TableOk(table, rows) && WellTyped(Comparison(column, op, value), table)
    ensures |ret| == BitmapBytes(rows)
    ensures forall i :: 0 <= i < rows ==> Bit(ret, i) == ColumnTakes(op, DataAt(table, rows, column, i), value, env)
    ensures forall i :: 0 <= i < rows ==> ColumnTaken(op, DataAt(table, rows, column, i), value, env, Bit(ret, i))
  {
    hide Bit, CompareTexts, CompareInts, CompareReals, Wrap32, ColumnTaken;
    if IsNullTest(op) {
      ret := EvalNullTest(column, op, table, rows);
    } else {
      match table[column]
      case IntRef(c) => ret := c.Compare(op, Wrap32(value.n), (o: Op, a: I32, b: I32) => CompareInts(o, a, b));
      case LongRef(c) => ret := c.Compare(op, value.n, (o: Op, a: I64, b: I64) => CompareInts(o, a, b));
      case RealRef(c) => ret := c.Compare(op, value.x, CompareReals);
      case TextRef(c) => ret := c.Compare(op, value.s, env.like);
    }
    forall i | 0 <= i < rows ensures ColumnTaken(op, DataAt(table, rows, column, i), value, env, Bit(ret, i)) {
      var taken := ColumnTakes(op, DataAt(table, rows, column, i), value, env);
      ColumnTakesWhen(op, DataAt(table, rows, column, i), value, env);
      assert Bit(ret, i) == taken;
    }
  }

  method EvalNullTest(column: nat, op: Op, table: seq<ColumnRef>, rows: nat) returns (ret: seq<Byte>)
    requires TableOk(table, rows) && column < |table| && IsNullTest(op)
    ensures |ret| == BitmapBytes(rows)
    ensures forall i :: 0 <= i < rows ==> Bit(ret, i) == (DataAt(table, rows, column, i).NoData? == (op == IS_NULL))
  {
    hide Bit;
    var bitmap :=
      match table[column]
      case IntRef(c) => c.bitmap
      case LongRef(c) => c.bitmap
      case RealRef(c) => c.bitmap
      case TextRef(c) => c.bitmap;
    BytesCover(rows);
    if op == IS_NULL {
      ret := BitmapNot(bitmap);
    } else {
      ret := bitmap;
    }
  }

  lemma BytesCover(rows: nat)
    ensures forall i :: 0 <= i < rows ==> 0 <= i / 8 < BitmapBytes(rows)
  {
  }

  // A cell of a column of this type.
  predicate CellOf(d: Data, ref: ColumnRef) {
    match d
    case IntData(_) => ref.IntRef?
    case LongData(_) => ref.LongRef?
    case RealData(_) => ref.RealRef?
    case TextData(_) => ref.TextRef?
    case NoData => true
  }

  // Under Exact the column takes a cell when the row evaluation does.
  lemma LeafAgrees(s: Statement, table: seq<ColumnRef>, d: Data, env: Env)
    requires s.Comparison? && WellTyped(s, table) && Exact(s, table, env) && CellOf(d, table[s.column])
    requires Rounding(env.toDouble)
    ensures ColumnTakes(s.op, d, s.value, env) == CompareData(s.op, d, s.value, env)
  {
    hide Faithful, Wrap32, Apart, Rounding, CompareInts, CompareReals, CompareTexts;
    if !IsNullTest(s.op) {
      match d
      case IntData(i) =>
        LiteralsAgree(s.op, s.value.n);
        Int32AsDouble(s.op, i, s.value.n, env.toDouble);
        assert Agrees(s.op, i, s.value.n);
      case LongData(l) =>
        DoublesAgree(s.op, s.value.n, env.toDouble);
        assert AsDoubles(s.op, l, s.value.n, env.toDouble);
      case TextData(a) =>
        TextOps(s.op, a, s.value.s, env.like);
      case _ =>
    }
  }

  lemma TextOps(op: Op, a: Bytes, b: Bytes, like: (Bytes, Bytes) -> bool)
    ensures IsLike(op) ==> CompareTexts(op, a, b, like) == (like(a, b) == (op == LIKE))
  {
  }

  // A row against an operation is the operation on the row against its children.
  predicate LogicalRow(s: Statement, record: seq<Data>, env: Env)
    requires s.LogicalOperation? && |s.children| == if s.logical == NOT then 1 else 2
  {
    EvalRow(s, record, env) ==
    match s.logical
    case AND => EvalRow(s.children[0], record, env) && EvalRow(s.children[1], record, env)
    case OR => EvalRow(s.children[0], record, env) || EvalRow(s.children[1], record, env)
    case NOT => !EvalRow(s.children[0], record, env)
  }

  lemma TwoChildren(s: Statement, record: seq<Data>, env: Env)
    requires s.LogicalOperation? && |s.children| == if s.logical == NOT then 1 else 2
    ensures LogicalRow(s, record, env)
  {
  }

  // A comparison whose literal is not cut off or rounded, or to no effect.
  method EvalLeaf(s: Statement, table: seq<ColumnRef>, env: Env, ghost records: seq<seq<Data>>, rows: nat)
    returns (ret: seq<Byte>)
    requires rows == |records| && Holds(table, records) && s.Comparison? && WellTyped(s, table) && Exact(s, table, env)
    requires Rounding(env.toDouble)
    ensures Holds(table, records) && |ret| == BitmapBytes(rows)
    ensures forall i :: 0 <= i < rows ==> Bit(ret, i) == EvalRow(s, records[i], env)
  {
    hide Bit, CompareData, ColumnTakes, WellTyped, Exact, Rounding;
    InTable(s, table);
    ret := EvalComparison(s.column, s.op, s.value, table, rows, env);
    forall i | 0 <= i < rows ensures Bit(ret, i) == EvalRow(s, records[i], env) {
      LeafAgrees(s, table, DataAt(table, rows, s.column, i), env);
    }
  }

  lemma InTable(s: Statement, table: seq<ColumnRef>)
    requires s.Comparison? && WellTyped(s, table)
    ensures s.column < |table| && WellTyped(Comparison(s.column, s.op, s.value), table)
  {
  }

  // The bitmap operation of a node; the columns stay as they are.
  method Combine(logical: LogicalType, left: seq<Byte>, right: seq<Byte>, table: seq<ColumnRef>,
                 ghost records: seq<seq<Data>>) returns (ret: seq<Byte>)
    requires |left| == |right| && Holds(table, records)
    ensures |ret| == |left| && Holds(table, records)
    ensures forall i :: 0 <= i / 8 < |ret| && 0 <= i ==>
              Bit(ret, i) ==
              match logical
              case AND => Bit(left, i) && Bit(right, i)
              case OR => Bit(left, i) || Bit(right, i)
              case NOT => !Bit(left, i)
  {
    hide Bit;
    match logical
    case NOT => ret := BitmapNot(left);
    case AND => ret := BitmapAnd(left, right);
    case OR => ret := BitmapOr(left, right);
  }

  // eval over columns: bit i is what eval makes of row i, nulls under NOT included; the bits
  // behind the last row mean nothing.
  method Eval(s: Statement, table: seq<ColumnRef>, env: Env, ghost records: seq<seq<Data>>,
              rows: nat) returns (ret: seq<Byte>)
    requires rows == |records| && Holds(table, records) && WellTyped(s, table) && Exact(s, table, env)
    requires Rounding(env.toDouble)
    ensures Holds(table, records) && |ret| == BitmapBytes(rows)
    ensures forall i :: 0 <= i < rows ==> Bit(ret, i) == EvalRow(s, records[i], env)
    decreases s
  {
    hide Bit, EvalRow, Holds, Rounding;
    match s
    case Comparison(_, _, _) =>
      ret := EvalLeaf(s, table, env, records, rows);
    case LogicalOperation(logical, children) =>
      forall i | 0 <= i < rows ensures LogicalRow(s, records[i], env) && i / 8 < BitmapBytes(rows) {
        TwoChildren(s, records[i], env);
      }
      var left := Eval(children[0], table, env, records, rows);
      var right := left;
      if logical != NOT {
        right := Eval(children[1], table, env, records, rows);
      }
      ret := Combine(logical, left, right, table, records);
  }
}
