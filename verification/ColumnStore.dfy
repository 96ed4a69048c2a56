// column_t of include/column_store_utils.hpp, get_value and merge_results of src/execute.cpp:
// columns of 1024-value pages, or a null-free INT32 column read in place.
module ColumnStore {
  import opened Arith
  import opened Bags
  import opened PageFormat
  import opened FixedPages
  import opened Values

  const ELEMENTS_PER_PAGE: nat := 1024

  // The four little-endian bytes of an int32_t, and back.
  function Int32Bytes(i: I32): Bytes {
    var u := i % TWO32;
    var u8 := u / 0x100;
    var u16 := u8 / 0x100;
    [u % 0x100, u8 % 0x100, u16 % 0x100, u16 / 0x100]
  }

  function Int32Of(b: Bytes): I32
    requires |b| == 4
  {
    Wrap32(b[0] as int + 0x100 * (b[1] as int) + 0x1_0000 * (b[2] as int) + 0x100_0000 * (b[3] as int))
  }

  lemma Int32RoundTrip(i: I32)
    ensures Int32Of(Int32Bytes(i)) == i
  {
    var b := Int32Bytes(i);
    assert b[0] as int + 0x100 * (b[1] as int) + 0x1_0000 * (b[2] as int) + 0x100_0000 * (b[3] as int) == i % TWO32;
    DivModUnique(i, TWO32, if i < 0 then -1 else 0, if i < 0 then i + TWO32 else i);
  }

  // The four bytes of a number, the lowest first; a negative one has 2^32 added to it.
  lemma Int32IsItsBytes(b: Bytes)
    requires |b| == 4
    ensures var v, u := Int32Of(b), b[0] as int + 256 * (b[1] as int) + 65536 * (b[2] as int) + 16777216 * (b[3] as int);
            -2147483648 <= v <= 2147483647 && (v - u == 0 || v - u == -4294967296)
  {
    var u := b[0] as int + 256 * (b[1] as int) + 65536 * (b[2] as int) + 16777216 * (b[3] as int);
    DivModUnique(u, TWO32, 0, u);
  }

  lemma BytesOfInt32(i: I32)
    ensures var u := if i < 0 then i + 4294967296 else i;
            Int32Bytes(i) == [u % 256, u / 256 % 256, u / 65536 % 256, u / 16777216]
  {
    DivModUnique(i, TWO32, if i < 0 then -1 else 0, if i < 0 then i + TWO32 else i);
  }

  // What my_copy makes of an INT32 cell.
  function CellValue(c: Cell): Value {
    if c.Some? && |c.value| == 4 then Int32(Int32Of(c.value)) else Null
  }

  // Pages that can be read in place: INT32 values without nulls, found by their position.
  ghost predicate InPlace(pages: seq<Page>, chunks: seq<seq<Cell>>) {
    PagesHold(pages, 4, chunks) && ChunksOk(4, chunks) && NoNulls(Concat(chunks)) && EquallyFilled(chunks)
  }

  ghost predicate PagesFilled(pages: seq<seq<Value>>) {
    && (forall p :: 0 <= p < |pages| - 1 ==> |pages[p]| == ELEMENTS_PER_PAGE)
    && (pages != [] ==> 0 < |pages[|pages| - 1]| <= ELEMENTS_PER_PAGE)
  }

  lemma ValueIsAppended(pages: seq<seq<Value>>, v: Value)
    requires PagesFilled(pages)
    ensures var n := |pages|;
            if n == 0 || |pages[n - 1]| == ELEMENTS_PER_PAGE
            then PagesFilled(pages + [[v]]) && Concat(pages + [[v]]) == Concat(pages) + [v]
            else
              var after := pages[n - 1 := pages[n - 1] + [v]];
              PagesFilled(after) && Concat(after) == Concat(pages) + [v]
  {
    hide Concat;
    var n := |pages|;
    if n == 0 || |pages[n - 1]| == ELEMENTS_PER_PAGE {
      ConcatSnoc(pages, [v]);
    } else {
      var front := pages[..n - 1];
      assert pages == front + [pages[n - 1]];
      assert pages[n - 1 := pages[n - 1] + [v]] == front + [pages[n - 1] + [v]];
      ConcatSnoc(front, pages[n - 1]);
      ConcatSnoc(front, pages[n - 1] + [v]);
    }
  }

  // insert on a column's pages alone
  method InsertValue(pages: seq<seq<Value>>, value: Value) returns (after: seq<seq<Value>>)
    requires PagesFilled(pages)
    ensures PagesFilled(after) && Concat(after) == Concat(pages) + [value]
  {
    hide Concat;
    ValueIsAppended(pages, value);
    if pages == [] || |pages[|pages| - 1]| >= ELEMENTS_PER_PAGE {
      after := pages + [[value]];
    } else {
      after := pages[|pages| - 1 := pages[|pages| - 1] + [value]];
    }
  }

  // v is the number in the four bytes of a row of pages of equally many rows.
  ghost predicate InPlaceValue(pages: seq<Page>, row: nat, v: int) {
    && pages != [] && -2147483648 <= v <= 2147483647
    && var rows := pages[0][0] as int + 256 * (pages[0][1] as int);
       && rows > 0 && row / rows < |pages| && 4 + 4 * (row % rows) + 4 <= 8192
       && var page, at := pages[row / rows], 4 + 4 * (row % rows);
          var u := page[at] as int + 256 * (page[at + 1] as int) + 65536 * (page[at + 2] as int)
                   + 16777216 * (page[at + 3] as int);
          v == u || v == u - 4294967296
  }

  lemma ValueInPlace(pages: seq<Page>, row: nat)
    requires pages != [] && U16At(pages[0], 0) > 0 && |ValueByPosition(pages, row)| == 4
    ensures InPlaceValue(pages, row, Int32Of(ValueByPosition(pages, row)))
  {
    hide Int32Of;
    Int32IsItsBytes(ValueByPosition(pages, row));
  }

  class ColumnT {
    var numRows: nat
    var hasNulls: bool
    var pages: seq<seq<Value>>
    var origCol: seq<Page>
    ghost var chunks: seq<seq<Cell>> // what origCol's pages hold when it stands for the column

    ghost predicate Valid()
      reads this
    {
      if hasNulls then numRows == |Concat(pages)| && PagesFilled(pages)
      else numRows == |Concat(chunks)| && InPlace(origCol, chunks)
    }

    ghost function Contents(): (s: seq<Value>)
      requires Valid()
      reads this
      ensures |s| == numRows
    {
      if hasNulls then Concat(pages) else Map(Concat(chunks), CellValue)
    }

    constructor ()
      ensures Valid() && hasNulls && Contents() == []
    {
      numRows, hasNulls, pages, origCol, chunks := 0, true, [], [], [];
    }

    method Insert(value: Value)
      requires Valid() && hasNulls
      modifies this
      ensures Valid() && hasNulls && Contents() == old(Contents()) + [value]
    {
      hide Concat;
      pages := InsertValue(pages, value);
      numRows := numRows + 1;
    }

    // get_value: the division by the page size finds the row it should, whichever way the
    // column is stored.
    function GetValue(row: nat): (v: Value)
      requires Valid() && row < numRows
      reads this
      ensures v == Contents()[row]
      ensures hasNulls ==> row / 1024 < |pages| && row % 1024 < |pages[row / 1024]| && v == pages[row / 1024][row % 1024]
      ensures !hasNulls ==> v.Int32? && InPlaceValue(origCol, row, v.i)
    {
      hide Concat, PagesHold, ValueByPosition, EquallyFilled;
      if hasNulls then
        EqualLengths(pages, ELEMENTS_PER_PAGE, row);
        pages[row / ELEMENTS_PER_PAGE][row % ELEMENTS_PER_PAGE]
      else
        PositionalRead(origCol, chunks, row);
        ValueInPlace(origCol, row);
        Int32(Int32Of(ValueByPosition(origCol, row)))
    }
  }

  // Columns of the same number of rows, each in filled pages.
  ghost predicate Table(cols: seq<seq<seq<Value>>>, rows: nat) {
    forall c :: 0 <= c < |cols| ==> PagesFilled(cols[c]) && |Concat(cols[c])| == rows
  }

  // One row of a worker's columns goes to the end of the results.
  method InsertRow(results: seq<seq<seq<Value>>>, part: seq<seq<seq<Value>>>, row: nat, ghost m: nat, ghost n: nat)
    returns (after: seq<seq<seq<Value>>>)
    requires Table(results, m) && Table(part, n) && |results| == |part| && row < n
    ensures Table(after, m + 1) && |after| == |results|
    ensures forall c :: 0 <= c < |after| ==> Concat(after[c]) == Concat(results[c]) + [Concat(part[c])[row]]
  {
    hide Concat, PagesFilled;
    after := results;
    for col := 0 to |part|
      invariant |after| == |results| && forall c :: col <= c < |after| ==> after[c] == results[c]
      invariant forall c :: 0 <= c < col ==>
                  PagesFilled(after[c]) && Concat(after[c]) == Concat(results[c]) + [Concat(part[c])[row]]
    {
      PagedRead(part[col], row);
      var pageId := row / ELEMENTS_PER_PAGE;
      var offset := row % ELEMENTS_PER_PAGE;
      var more := InsertValue(after[col], part[col][pageId][offset]);
      after := after[col := more];
    }
  }

  lemma PagedRead(pages: seq<seq<Value>>, row: nat)
    requires PagesFilled(pages) && row < |Concat(pages)|
    ensures row / ELEMENTS_PER_PAGE < |pages| && row % ELEMENTS_PER_PAGE < |pages[row / ELEMENTS_PER_PAGE]|
    ensures pages[row / ELEMENTS_PER_PAGE][row % ELEMENTS_PER_PAGE] == Concat(pages)[row]
  {
    hide Concat;
    EqualLengths(pages, ELEMENTS_PER_PAGE, row);
  }

  method MergePart(results: seq<seq<seq<Value>>>, part: seq<seq<seq<Value>>>, rows: nat, ghost m: nat)
    returns (after: seq<seq<seq<Value>>>)
    requires Table(results, m) && Table(part, rows) && |results| == |part|
    ensures Table(after, m + rows) && |after| == |results|
    ensures forall c :: 0 <= c < |after| ==> Concat(after[c]) == Concat(results[c]) + Concat(part[c])
  {
    hide Concat, PagesFilled;
    after := results;
    for row := 0 to rows
      invariant Table(after, m + row) && |after| == |results|
      invariant forall c :: 0 <= c < |after| ==> Concat(after[c]) == Concat(results[c]) + Concat(part[c])[..row]
    {
      after := InsertRow(after, part, row, m + row, rows);
    }
  }

  // Column c of every worker's table.
  function ColumnOf(c: nat): seq<seq<seq<Value>>> -> seq<Value> {
    (cols: seq<seq<seq<Value>>>) => if c < |cols| then Concat(cols[c]) else []
  }

  ghost predicate Parts(local: seq<seq<seq<seq<Value>>>>, rows: seq<nat>, columns: nat) {
    |rows| == |local| && forall p :: 0 <= p < |local| ==> Table(local[p], rows[p]) && |local[p]| == columns
  }

  // merge_results: the workers' rows one worker after the other, row by row into all columns.
  method MergeResults(local: seq<seq<seq<seq<Value>>>>, rows: seq<nat>, columns: nat)
    returns (results: seq<seq<seq<Value>>>)
    requires Parts(local, rows, columns)
    ensures |results| == columns
    ensures forall c :: 0 <= c < columns ==>
              PagesFilled(results[c]) && Concat(results[c]) == Concat(Map(local, ColumnOf(c)))
  {
    hide Concat, PagesFilled, Map;
    results := seq(columns, _ => []);
    ghost var total: nat := 0;
    NothingMerged(local, results);
    for p := 0 to |local|
      invariant Table(results, total) && |results| == columns
      invariant forall c :: 0 <= c < columns ==> Concat(results[c]) == Concat(Map(local[..p], ColumnOf(c)))
    {
      ghost var before := results;
      if |local[p]| > 0 {
        results := MergePart(results, local[p], rows[p], total);
        total := total + rows[p];
      }
      forall c | 0 <= c < columns ensures Concat(results[c]) == Concat(Map(local[..p + 1], ColumnOf(c))) {
        NextPart(local, p, c);
      }
    }
    assert local[..|local|] == local;
  }

  lemma NothingMerged(local: seq<seq<seq<seq<Value>>>>, results: seq<seq<seq<Value>>>)
    requires forall c :: 0 <= c < |results| ==> results[c] == []
    ensures Table(results, 0)
    ensures forall c :: 0 <= c < |results| ==> Concat(results[c]) == Concat(Map(local[..0], ColumnOf(c)))
  {
  }

  lemma NextPart(local: seq<seq<seq<seq<Value>>>>, p: nat, c: nat)
    requires p < |local|
    ensures Concat(Map(local[..p + 1], ColumnOf(c))) == Concat(Map(local[..p], ColumnOf(c))) + ColumnOf(c)(local[p])
  {
    hide Concat, Map;
    MapNext(local, ColumnOf(c), p);
    ConcatSnoc(Map(local[..p], ColumnOf(c)), ColumnOf(c)(local[p]));
  }
}
