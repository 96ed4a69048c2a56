// The input tables of a plan (include/plan.h): what their cells mean, what a scan makes of
// them (my_copy of include/column_store_utils.hpp), and when reading that back gives the cells.
module PlanInputs {
  import opened Bags
  import opened ColumnStore
  import opened FixedPages
  import opened PageFormat
  import opened StringRefs
  import opened TableScan
  import opened Values
  import opened VarcharPages

  datatype DataType = INT32 | INT64 | FP64 | VARCHAR

  // A column's cells and its pages, which say them in chunks of rows or, for strings, in
  // segments with a run of pages each.
  datatype InputColumn = InputColumn(dt: DataType, cells: seq<Cell>, pages: seq<Page>, chunks: seq<seq<Cell>>,
                                     segments: seq<Segment>, runs: seq<seq<Page>>)

  datatype InputTable = InputTable(rows: nat, columns: seq<InputColumn>)

  function Width(dt: DataType): nat {
    if dt == INT32 then 4 else 8
  }

  ghost predicate ColumnOk(c: InputColumn) {
    if c.dt == VARCHAR then
      && Holds(c.runs, c.segments) && Concat(c.runs) == c.pages && |c.pages| <= 0x10_0000
      && Concat(Map(c.segments, RowsOf)) == c.cells
    else
      && PagesHold(c.pages, Width(c.dt), c.chunks) && ChunksOk(Width(c.dt), c.chunks) && Concat(c.chunks) == c.cells
      && (c.dt == INT32 && NoNulls(c.cells) ==> EquallyFilled(c.chunks))
  }

  ghost predicate TableOk(t: InputTable) {
    |t.columns| <= 0x8 && forall c :: 0 <= c < |t.columns| ==> |t.columns[c].cells| == t.rows && ColumnOk(t.columns[c])
  }

  // ---- what the cells mean ----

  datatype Datum = Missing | Number(i: int) | Wide(bytes: Bytes) | Chars(bytes: Bytes)

  function CellDatum(dt: DataType): Cell -> Datum {
    (cell: Cell) =>
      if cell.None? then Missing
      else match dt
        case INT32 => if |cell.value| == 4 then Number(Int32Of(cell.value)) else Missing
        case VARCHAR => Chars(cell.value)
        case _ => Wide(cell.value)
  }

  function Meant(c: InputColumn): seq<Datum> {
    Map(c.cells, CellDatum(c.dt))
  }

  // ---- what a scan makes of them ----

  ghost function Scanned(c: InputColumn, table: nat, column: nat): seq<Value>
    requires ColumnOk(c)
  {
    match c.dt
    case INT32 => Map(c.cells, CellValue)
    case VARCHAR => Concat(Refs(c.runs, c.segments, table, column))
    case _ => seq(|c.cells|, _ => Null)
  }

  lemma ScannedLength(c: InputColumn, table: nat, column: nat)
    requires ColumnOk(c)
    ensures |Scanned(c, table, column)| == |c.cells|
  {
    hide Concat, Refs, PagesHold, Map;
    if c.dt == VARCHAR {
      StringsLength(c, table, column);
    }
  }

  lemma StringsLength(c: InputColumn, table: nat, column: nat)
    requires ColumnOk(c) && c.dt == VARCHAR
    ensures |Concat(Refs(c.runs, c.segments, table, column))| == |c.cells|
  {
    hide Concat, Map, SegmentRefs;
    var segments := c.segments;
    RefsMatchRows(c.runs, segments, table, column, |segments|);
    assert segments[..|segments|] == segments;
    var refs := Refs(c.runs, segments, table, column);
    assert refs[..|segments|] == refs;
  }

  lemma {:induction false} ConcatAll<T>(ss: seq<seq<T>>, p: T -> bool)
    requires forall s, i :: 0 <= s < |ss| && 0 <= i < |ss[s]| ==> p(ss[s][i])
    ensures forall r :: 0 <= r < |Concat(ss)| ==> p(Concat(ss)[r])
  {
    if ss != [] {
      ConcatAll(ss[1..], p);
    }
  }

  // A scan yields integers and nulls, references and nulls, or nulls.
  lemma ScannedKinds(c: InputColumn, table: nat, column: nat)
    requires ColumnOk(c)
    ensures forall i :: 0 <= i < |Scanned(c, table, column)| ==>
              var v := Scanned(c, table, column)[i];
              if c.dt == INT32 then !v.Text? else if c.dt == VARCHAR then !v.Int32? else v.Null?
  {
    hide Concat, PagesHold, ShortHolds, LongHolds;
    if c.dt == VARCHAR {
      ConcatAll(Refs(c.runs, c.segments, table, column), (v: Value) => !v.Int32?);
    }
  }

  // The types that a scan does not support: every row is null.
  method CopyOther(pages: seq<Page>, numRows: nat) returns (c: ColumnT)
    ensures fresh(c) && c.Valid() && c.hasNulls
    ensures forall i :: 0 <= i < |c.Contents()| ==> c.Contents()[i] == Null
    ensures (forall p :: 0 <= p < |pages| ==> U16At(pages[p], 0) != FIRST_MARK) ==> |c.Contents()| == numRows
  {
    hide Concat, PagesFilled, U16At;
    c := new ColumnT();
    for p := 0 to |pages|
      invariant fresh(c) && c.Valid() && c.hasNulls
      invariant forall i :: 0 <= i < |c.Contents()| ==> c.Contents()[i] == Null
      invariant (forall q :: 0 <= q < p ==> U16At(pages[q], 0) != FIRST_MARK) ==> |c.Contents()| <= numRows
    {
      var header := U16At(pages[p], 0);
      if header == FIRST_MARK {
        c.Insert(Null);
      } else if header != NEXT_MARK {
        var i: nat := 0;
        while i < header && c.numRows < numRows
          invariant i <= header
          invariant fresh(c) && c.Valid() && c.hasNulls
          invariant forall k :: 0 <= k < |c.Contents()| ==> c.Contents()[k] == Null
          invariant (forall q :: 0 <= q < p ==> U16At(pages[q], 0) != FIRST_MARK) ==> |c.Contents()| <= numRows
        {
          c.Insert(Null);
          i := i + 1;
        }
      }
    }
    while c.numRows < numRows
      invariant fresh(c) && c.Valid() && c.hasNulls
      invariant forall k :: 0 <= k < |c.Contents()| ==> c.Contents()[k] == Null
      invariant (forall q :: 0 <= q < |pages| ==> U16At(pages[q], 0) != FIRST_MARK) ==> |c.Contents()| <= numRows
      decreases numRows - c.numRows
    {
      c.Insert(Null);
    }
  }

  lemma NoMarks(c: InputColumn)
    requires ColumnOk(c) && c.dt != VARCHAR
    ensures forall p :: 0 <= p < |c.pages| ==> U16At(c.pages[p], 0) != FIRST_MARK
  {
    hide Concat, Data, Present, Fits, U16At;
    forall p | 0 <= p < |c.pages| ensures U16At(c.pages[p], 0) != FIRST_MARK {
      assert PageHolds(c.pages[p], Width(c.dt), c.chunks[p]);
      RowsBound(Width(c.dt), c.chunks[p]);
    }
  }

  // my_copy for one output column.
  method ScanColumn(c: InputColumn, numRows: nat, table: nat, column: nat) returns (r: ColumnT)
    requires ColumnOk(c) && |c.cells| == numRows
    ensures fresh(r) && r.Valid() && r.Contents() == Scanned(c, table, column)
  {
    hide Concat, Map, Refs, PagesHold, EquallyFilled, ColumnT.Valid, ColumnT.Contents;
    if c.dt == INT32 {
      r := CopyInt32(c.pages, numRows, c.chunks);
      FittedFacts(Map(c.cells, CellValue), numRows);
    } else if c.dt == VARCHAR {
      r := CopyVarchar(c.pages, numRows, table, column, c.runs, c.segments);
      StringsLength(c, table, column);
      FittedFacts(Concat(Refs(c.runs, c.segments, table, column)), numRows);
    } else {
      r := CopyOther(c.pages, numRows);
      NoMarks(c);
    }
  }

  // my_copy: the table's columns that the attributes name.
  method ScanTable(t: InputTable, attrs: seq<nat>, table: nat) returns (cols: seq<ColumnT>)
    requires TableOk(t) && forall a :: 0 <= a < |attrs| ==> attrs[a] < |t.columns|
    ensures |cols| == |attrs| && forall a :: 0 <= a < |cols| ==>
              fresh(cols[a]) && cols[a].Valid() && cols[a].Contents() == Scanned(t.columns[attrs[a]], table, attrs[a])
  {
    hide Scanned, ColumnOk, ColumnT.Valid, ColumnT.Contents;
    cols := [];
    for a := 0 to |attrs|
      invariant |cols| == a && forall k :: 0 <= k < a ==>
                  fresh(cols[k]) && cols[k].Valid() && cols[k].Contents() == Scanned(t.columns[attrs[k]], table, attrs[k])
    {
      var c := ScanColumn(t.columns[attrs[a]], t.rows, table, attrs[a]);
      cols := cols + [c];
    }
  }

  // ---- reading it back ----

  // What a value stands for once its string has been fetched (string_from_rep).
  function Decoded(inputs: seq<seq<seq<Page>>>): Value -> Datum {
    (v: Value) =>
      match v
      case Null => Missing
      case Int32(i) => Number(i)
      case Text(rep) => Chars(RepText(inputs, rep))
  }

  ghost function Seen(inputs: seq<seq<seq<Page>>>, c: InputColumn, table: nat, column: nat): seq<Datum>
    requires ColumnOk(c)
  {
    Map(Scanned(c, table, column), Decoded(inputs))
  }

  // Scanning the column loses nothing: no 64-bit value, and no string that string_from_rep
  // does not bring back.
  ghost predicate Faithful(c: InputColumn) {
    match c.dt
    case INT32 => true
    case VARCHAR => StringsRecoverable(c.segments)
    case _ => forall i :: 0 <= i < |c.cells| ==> c.cells[i].None?
  }

  ghost predicate StringsRecoverable(segments: seq<Segment>) {
    forall s, i :: 0 <= s < |segments| && 0 <= i < |RowsOf(segments[s])| && RowsOf(segments[s])[i].Some? ==>
                     Recoverable(segments, s, i)
  }

  ghost predicate Named(inputs: seq<seq<seq<Page>>>, c: InputColumn, table: nat, column: nat) {
    && table < |inputs| && table < 0x20 && column < |inputs[table]| && column < 0x8
    && inputs[table][column] == c.pages
  }

  // A scanned column reads back as its cells if and only if it is faithful.
  lemma SeenIsMeant(inputs: seq<seq<seq<Page>>>, c: InputColumn, table: nat, column: nat)
    requires ColumnOk(c) && Named(inputs, c, table, column)
    ensures Seen(inputs, c, table, column) == Meant(c) <==> Faithful(c)
  {
    hide Concat, Map, PagesHold, EquallyFilled, Refs;
    match c.dt
    case INT32 => IntsAreSeen(inputs, c, table, column);
    case VARCHAR => StringsAreSeen(inputs, c, table, column);
    case _ =>
      var seen, meant := Seen(inputs, c, table, column), Meant(c);
      if Faithful(c) {
        assert seen == meant;
      } else {
        var i :| 0 <= i < |c.cells| && c.cells[i].Some?;
        assert seen[i] == Missing && meant[i].Wide?;
      }
  }

  lemma IntsAreSeen(inputs: seq<seq<seq<Page>>>, c: InputColumn, table: nat, column: nat)
    requires ColumnOk(c) && c.dt == INT32
    ensures Seen(inputs, c, table, column) == Meant(c)
  {
    hide Concat, Map, PagesHold, EquallyFilled;
    var seen, meant := Seen(inputs, c, table, column), Meant(c);
    forall i | 0 <= i < |c.cells| ensures seen[i] == meant[i] {
    }
  }

  lemma StringsAreSeen(inputs: seq<seq<seq<Page>>>, c: InputColumn, table: nat, column: nat)
    requires ColumnOk(c) && c.dt == VARCHAR && Named(inputs, c, table, column)
    ensures Seen(inputs, c, table, column) == Meant(c) <==> StringsRecoverable(c.segments)
  {
    hide Concat, Map, Refs, Holds, Recoverable;
    var segments := c.segments;
    var seen, meant := Seen(inputs, c, table, column), Meant(c);
    ScannedLength(c, table, column);
    if StringsRecoverable(segments) {
      forall r | 0 <= r < |c.cells| ensures seen[r] == meant[r] {
        StringIsSeen(inputs, c, table, column, r);
      }
    } else if seen == meant {
      var s, i :| 0 <= s < |segments| && 0 <= i < |RowsOf(segments[s])| && RowsOf(segments[s])[i].Some?
                  && !Recoverable(segments, s, i);
      var r := StringAt(inputs, c, table, column, segments, s, i);
    }
  }

  // The row and the reference of row i of segment s.
  lemma StringScanned(c: InputColumn, table: nat, column: nat, segments: seq<Segment>, s: nat, i: nat)
    returns (r: nat, v: Value)
    requires ColumnOk(c) && c.dt == VARCHAR && table < 0x20 && column < 0x8 && segments == c.segments
    requires s < |segments| && i < |RowsOf(segments[s])|
    ensures r == |Concat(Map(segments[..s], RowsOf))| + i < |c.cells| == |Scanned(c, table, column)|
    ensures c.cells[r] == RowsOf(segments[s])[i] && Scanned(c, table, column)[r] == v
    ensures if c.cells[r].None? then v == Null
            else
              && v.Text? && v.rep.table == table && v.rep.column == column && v.rep.page < |c.pages|
              && RefersTo(v.rep, c.runs, segments, s, i)
  {
    hide Concat, Map, SegmentRefs, Refs, Recoverable, ShortHolds, LongHolds;
    ScannedLength(c, table, column);
    RowIn(segments, s, i);
    RefAt(c.runs, segments, table, column, s, i);
    r := |Concat(Map(segments[..s], RowsOf))| + i;
    v := SegmentRefs(segments[s], table, column, |Concat(c.runs[..s])|)[i];
    AtSegment(c.pages, c.runs, segments, s);
    SegmentHasRoom(c.runs, segments, s);
    RowIsReferred(c.runs, segments, table, column, s, i);
  }

  // Row i of segment s, as seen and as meant.
  lemma StringAt(inputs: seq<seq<seq<Page>>>, c: InputColumn, table: nat, column: nat, segments: seq<Segment>, s: nat, i: nat)
    returns (r: nat)
    requires ColumnOk(c) && c.dt == VARCHAR && Named(inputs, c, table, column) && segments == c.segments
    requires s < |segments| && i < |RowsOf(segments[s])|
    ensures r == |Concat(Map(segments[..s], RowsOf))| + i < |c.cells| && c.cells[r] == RowsOf(segments[s])[i]
    ensures |Seen(inputs, c, table, column)| == |Meant(c)| == |c.cells|
    ensures c.cells[r].None? ==> Seen(inputs, c, table, column)[r] == Meant(c)[r]
    ensures c.cells[r].Some? ==> (Seen(inputs, c, table, column)[r] == Meant(c)[r] <==> Recoverable(segments, s, i))
  {
    hide Concat, Map, Recoverable, Holds, Scanned, RefersTo, RepText;
    var v;
    r, v := StringScanned(c, table, column, segments, s, i);
    if c.cells[r].Some? {
      RepTextExact(inputs, v.rep, c.runs, segments, s, i);
    }
  }

  lemma StringIsSeen(inputs: seq<seq<seq<Page>>>, c: InputColumn, table: nat, column: nat, r: nat)
    requires ColumnOk(c) && c.dt == VARCHAR && Named(inputs, c, table, column) && r < |c.cells|
    requires StringsRecoverable(c.segments)
    ensures r < |Seen(inputs, c, table, column)| && Seen(inputs, c, table, column)[r] == Meant(c)[r]
  {
    hide Concat, Map, Refs, Recoverable, Holds;
    var segments := c.segments;
    var s, i := RowAt(segments, r);
    var at := StringAt(inputs, c, table, column, segments, s, i);
  }
}
