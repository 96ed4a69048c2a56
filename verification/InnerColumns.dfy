// InnerColumn (include/inner_column.h): values with a bitmap of non-null rows, and the
// comparison kernels, which fill a bitmap of matching rows in blocks of whole bytes.
module InnerColumns {
  import opened Options
  import opened PageFormat
  import opened FixedPages
  import opened Bitmaps
  import ThreadPool

  const THREADS: nat := 12 // filter_tp

  datatype Op = EQ | NEQ | LT | GT | LEQ | GEQ | LIKE | NOT_LIKE | IS_NULL | IS_NOT_NULL

  predicate CompareInts(op: Op, a: int, b: int) {
    match op
    case EQ => a == b
    case NEQ => a != b
    case LT => a < b
    case GT => a > b
    case LEQ => a <= b
    case GEQ => a >= b
    case _ => false
  }

  predicate CompareReals(op: Op, a: real, b: real) {
    match op
    case EQ => a == b
    case NEQ => a != b
    case LT => a < b
    case GT => a > b
    case LEQ => a <= b
    case GEQ => a >= b
    case _ => false
  }

  // Byte strings in the order of std::string.
  predicate Before(a: Bytes, b: Bytes) {
    b != [] && (a == [] || a[0] < b[0] || (a[0] == b[0] && Before(a[1..], b[1..])))
  }

  // a is a proper prefix of b, or smaller in the first byte in which they differ.
  ghost predicate Precedes(a: Bytes, b: Bytes) {
    exists n :: 0 <= n <= |a| && n < |b| && a[..n] == b[..n] && (n == |a| || a[n] < b[n])
  }

  lemma {:induction false} BeforeIsPrecedes(a: Bytes, b: Bytes)
    ensures Before(a, b) <==> exists n :: 0 <= n <= |a| && n < |b| && a[..n] == b[..n] && (n == |a| || a[n] < b[n])
  {
    if b != [] && (a == [] || a[0] < b[0]) {
      assert a[..0] == b[..0];
    } else if a != [] && b != [] {
      BeforeIsPrecedes(a[1..], b[1..]);
      if n :| 0 <= n < |a| && n < |b| - 1 && a[1..][..n] == b[1..][..n] && (n == |a| - 1 || a[1..][n] < b[1..][n]) {
        if a[0] == b[0] {
          assert a[..n + 1] == [a[0]] + a[1..][..n] && b[..n + 1] == [b[0]] + b[1..][..n];
        }
      }
      if n :| 0 <= n <= |a| && n < |b| && a[..n] == b[..n] && (n == |a| || a[n] < b[n]) {
        if n > 0 {
          assert a[0] == a[..n][0] == b[..n][0] == b[0];
          assert a[1..][..n - 1] == a[..n][1..] == b[..n][1..] == b[1..][..n - 1];
        }
      }
    }
  }

  predicate CompareTexts(op: Op, a: Bytes, b: Bytes, like: (Bytes, Bytes) -> bool) {
    match op
    case EQ => a == b
    case NEQ => a != b
    case LT => Before(a, b)
    case GT => Before(b, a)
    case LEQ => !Before(b, a)
    case GEQ => !Before(a, b)
    case LIKE => like(a, b)
    case NOT_LIKE => !like(a, b)
    case _ => false
  }

  // What each operator takes.
  ghost predicate TextTaken(op: Op, a: Bytes, b: Bytes, like: (Bytes, Bytes) -> bool) {
    match op
    case EQ => CompareTexts(op, a, b, like) == (a == b)
    case NEQ => CompareTexts(op, a, b, like) == (a != b)
    case LT => CompareTexts(op, a, b, like) == Precedes(a, b)
    case GT => CompareTexts(op, a, b, like) == Precedes(b, a)
    case LEQ => CompareTexts(op, a, b, like) == !Precedes(b, a)
    case GEQ => CompareTexts(op, a, b, like) == !Precedes(a, b)
    case LIKE => CompareTexts(op, a, b, like) == like(a, b)
    case NOT_LIKE => CompareTexts(op, a, b, like) == !like(a, b)
    case _ => true
  }

  lemma TextIsTaken(op: Op, a: Bytes, b: Bytes, like: (Bytes, Bytes) -> bool)
    ensures TextTaken(op, a, b, like)
  {
    BeforeIsPrecedes(a, b);
    BeforeIsPrecedes(b, a);
  }

  // bitmap_push_back for row n
  method BitmapPushBack(bitmap: seq<Byte>, n: nat, notNull: bool) returns (bm: seq<Byte>)
    requires |bitmap| == BitmapBytes(n)
    ensures |bm| == BitmapBytes(n + 1) && Bit(bm, n) == notNull
    ensures forall i :: 0 <= i < n ==> Bit(bm, i) == Bit(bitmap, i)
  {
    hide PutBit, BitOf;
    if (n + 8) / 8 > |bitmap| {
      bm := bitmap + [if notNull then 1 else 0];
      FirstBit(n);
    } else {
      bm := bitmap[n / 8 := ByteWithBit(bitmap[n / 8], n % 8, notNull)];
      forall i | 0 <= i <= n ensures Bit(bm, i) == if i == n then notNull else Bit(bitmap, i) {
        BitsAfterUpdate(bitmap[n / 8], n % 8, notNull, i % 8);
      }
    }
  }

  lemma FirstBit(n: nat)
    ensures BitOf(1, 0) && !BitOf(0, 0)
    ensures BitmapBytes(n) < (n + 8) / 8 ==> n % 8 == 0 && n / 8 == BitmapBytes(n)
  {
  }

  // The rows of byte_begin..byte_end that are not null and pass the test: their bits are or-ed
  // into the output.
  method Kernel(bitmap: seq<Byte>, output: seq<Byte>, byteBegin: nat, byteEnd: nat, rows: nat, test: nat -> bool)
    returns (ret: seq<Byte>)
    requires |output| == |bitmap| == BitmapBytes(rows) && byteBegin <= byteEnd <= |bitmap|
    requires forall i :: byteBegin * 8 <= i < rows ==> !Bit(output, i)
    ensures |ret| == |output|
    ensures forall i :: 0 <= i < rows ==>
              Bit(ret, i) == if byteBegin * 8 <= i < byteEnd * 8 then Bit(bitmap, i) && test(i) else Bit(output, i)
  {
    hide PutBit, BitOf;
    ret := output;
    var end := if byteEnd * 8 < rows then byteEnd * 8 else rows;
    var i: nat := byteBegin * 8;
    while i < end
      invariant byteBegin * 8 <= i && (i <= end || byteBegin == byteEnd) && |ret| == |output|
      invariant forall k :: 0 <= k < rows ==>
                  Bit(ret, k) == if byteBegin * 8 <= k < i && k < end then Bit(bitmap, k) && test(k) else Bit(output, k)
    {
      if BitAt(bitmap, i) && test(i) {
        ghost var was := ret;
        ret := ret[i / 8 := ByteWithBit(ret[i / 8], i % 8, true)];
        forall k | 0 <= k < rows ensures Bit(ret, k) == if k == i then true else Bit(was, k) {
          BitsAfterUpdate(was[i / 8], i % 8, true, k % 8);
        }
      }
      i := i + 1;
    }
  }

  // A kernel over all rows, in the ranges the thread pool hands out, worker by worker;
  // ParallelKernel has the other schedules.
  method RunKernel(bitmap: seq<Byte>, rows: nat, test: nat -> bool) returns (ret: seq<Byte>)
    requires |bitmap| == BitmapBytes(rows)
    ensures |ret| == |bitmap| && forall i :: 0 <= i < rows ==> Bit(ret, i) == (Bit(bitmap, i) && test(i))
  {
    hide ThreadPool.BeginIdx, BitOf;
    ret := seq(|bitmap|, _ => 0);
    var bytes := BitmapBytes(rows);
    ThreadPool.BeginIdxGrows(bytes, THREADS, 0);
    forall i | 0 <= i < rows ensures !Bit(ret, i) {
      NoBits(i % 8);
    }
    for t := 0 to THREADS
      invariant |ret| == |bitmap| && ThreadPool.BeginIdx(bytes, THREADS, t) <= bytes
      invariant forall i :: 0 <= i < rows ==>
                  Bit(ret, i) == (i < ThreadPool.BeginIdx(bytes, THREADS, t) * 8 && Bit(bitmap, i) && test(i))
    {
      var begin := ThreadPool.BeginIdx(bytes, THREADS, t);
      var end := ThreadPool.BeginIdx(bytes, THREADS, t + 1);
      ThreadPool.BeginIdxGrows(bytes, THREADS, t);
      BeginIdxBound(bytes, t + 1);
      if begin < end {
        ret := Kernel(bitmap, ret, begin, end, rows, test);
      }
    }
  }

  lemma BeginIdxBound(bytes: nat, t: nat)
    requires t <= THREADS
    ensures ThreadPool.BeginIdx(bytes, THREADS, t) <= bytes
    decreases THREADS - t
  {
    ThreadPool.BeginIdxGrows(bytes, THREADS, t);
    if t < THREADS {
      BeginIdxBound(bytes, t + 1);
    }
  }

  // InnerColumn<T> for numbers; `zero` is T{}.
  class NumberColumn<T> {
    const zero: T
    var data: seq<T>
    var bitmap: seq<Byte>

    ghost predicate Valid()
      reads this
    {
      |bitmap| == BitmapBytes(|data|)
    }

    // The column's rows; a null keeps a zero in data.
    function CellAt(i: nat): Option<T>
      requires i < |data|
      reads this
    {
      if Bit(bitmap, i) then Some(data[i]) else None
    }

    ghost function Cells(): (s: seq<Option<T>>)
      reads this
      ensures |s| == |data|
    {
      seq(|data|, i requires 0 <= i < |data| reads this => CellAt(i))
    }

    constructor (zero: T)
      ensures Valid() && Cells() == [] && this.zero == zero
    {
      this.zero, data, bitmap := zero, [], [];
    }

    method PushBack(value: T)
      requires Valid()
      modifies this
      ensures Valid() && Cells() == old(Cells()) + [Some(value)]
    {
      hide Bit;
      var bm := BitmapPushBack(bitmap, |data|, true);
      data, bitmap := data + [value], bm;
    }

    method PushBackNull()
      requires Valid()
      modifies this
      ensures Valid() && Cells() == old(Cells()) + [None]
    {
      hide Bit;
      var bm := BitmapPushBack(bitmap, |data|, false);
      data, bitmap := data + [zero], bm;
    }

    // equal, not_equal, less, greater, less_equal, greater_equal with the operators of T
    method Compare(op: Op, rhs: T, cmp: (Op, T, T) -> bool) returns (ret: seq<Byte>)
      requires Valid()
      ensures |ret| == |bitmap|
      ensures forall i :: 0 <= i < |data| ==> Bit(ret, i) == (CellAt(i).Some? && cmp(op, CellAt(i).value, rhs))
    {
      var values := data;
      ret := RunKernel(bitmap, |data|, (i: nat) => i < |values| && cmp(op, values[i], rhs));
    }
  }

  class StringColumn {
    var data: Bytes
    var offsets: seq<nat>
    var bitmap: seq<Byte>
    var row: nat

    ghost predicate Valid()
      reads this
    {
      && |offsets| == row && |bitmap| == BitmapBytes(row)
      && (forall i, j :: 0 <= i <= j < row ==> offsets[i] <= offsets[j])
      && |data| == if row == 0 then 0 else offsets[row - 1]
    }

    function Get(i: nat): Bytes
      requires Valid() && i < row
      reads this
    {
      var begin := if i == 0 then 0 else offsets[i - 1];
      data[begin..offsets[i]]
    }

    function CellAt(i: nat): Option<Bytes>
      requires Valid() && i < row
      reads this
    {
      if Bit(bitmap, i) then Some(Get(i)) else None
    }

    ghost function Cells(): (s: seq<Option<Bytes>>)
      requires Valid()
      reads this
      ensures |s| == row
    {
      seq(row, i requires 0 <= i < row && Valid() reads this => CellAt(i))
    }

    constructor ()
      ensures Valid() && Cells() == []
    {
      data, offsets, bitmap, row := [], [], [], 0;
    }

    method PushBack(value: Bytes)
      requires Valid()
      modifies this
      ensures Valid() && Cells() == old(Cells()) + [Some(value)]
    {
      hide Bit;
      var bm := BitmapPushBack(bitmap, row, true);
      ghost var before, was := Cells(), data;
      var chars := data + value;
      data, offsets, bitmap, row := chars, offsets + [|chars|], bm, row + 1;
      forall i | 0 <= i < row ensures CellAt(i) == (before + [Some(value)])[i] {
        var begin := if i == 0 then 0 else offsets[i - 1];
        assert i < row - 1 ==> chars[begin..offsets[i]] == was[begin..offsets[i]];
        assert i == row - 1 ==> chars[begin..offsets[i]] == value;
      }
    }

    method PushBackNull()
      requires Valid()
      modifies this
      ensures Valid() && Cells() == old(Cells()) + [None]
    {
      hide Bit;
      var bm := BitmapPushBack(bitmap, row, false);
      offsets, bitmap, row := offsets + [|data|], bm, row + 1;
    }

    // equal to greater_equal, like and not_like
    method Compare(op: Op, rhs: Bytes, like: (Bytes, Bytes) -> bool) returns (ret: seq<Byte>)
      requires Valid()
      ensures |ret| == |bitmap|
      ensures forall i :: 0 <= i < row ==>
                Bit(ret, i) == (CellAt(i).Some? && CompareTexts(op, CellAt(i).value, rhs, like))
      ensures forall i :: 0 <= i < row ==>
                match op
                case EQ => Bit(ret, i) == (CellAt(i).Some? && CellAt(i).value == rhs)
                case NEQ => Bit(ret, i) == (CellAt(i).Some? && CellAt(i).value != rhs)
                case LT => Bit(ret, i) == (CellAt(i).Some? && Precedes(CellAt(i).value, rhs))
                case GT => Bit(ret, i) == (CellAt(i).Some? && Precedes(rhs, CellAt(i).value))
                case LEQ => Bit(ret, i) == (CellAt(i).Some? && !Precedes(rhs, CellAt(i).value))
                case GEQ => Bit(ret, i) == (CellAt(i).Some? && !Precedes(CellAt(i).value, rhs))
                case LIKE => Bit(ret, i) == (CellAt(i).Some? && like(CellAt(i).value, rhs))
                case NOT_LIKE => Bit(ret, i) == (CellAt(i).Some? && !like(CellAt(i).value, rhs))
                case _ => true
    {
      hide CompareTexts, Bit;
      var values := seq(row, i requires 0 <= i < row && Valid() reads this => Get(i));
      ret := RunKernel(bitmap, row, (i: nat) => i < |values| && CompareTexts(op, values[i], rhs, like));
      forall i | 0 <= i < row
        ensures CellAt(i).Some? ==> values[i] == CellAt(i).value && TextTaken(op, values[i], rhs, like)
      {
        TextIsTaken(op, values[i], rhs, like);
      }
    }
  }
}
