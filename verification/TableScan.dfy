// my_copy of include/column_store_utils.hpp: a scan turns table columns into column_t's.
module TableScan {
  import opened Options
  import opened Bags
  import opened PageFormat
  import opened FixedPages
  import opened VarcharPages
  import opened Values
  import opened StringRefs
  import opened ColumnStore
  import ColumnInserter

  // ---- INT32 ----

  lemma {:induction false} AllPresent(cells: seq<Cell>)
    ensures Present(cells) == |cells| <==> NoNulls(cells)
  {
    if cells != [] {
      AllPresent(cells[1..]);
      assert NoNulls(cells) <==> cells[0].Some? && NoNulls(cells[1..]) by {
        assert forall i :: 0 < i < |cells| ==> cells[i] == cells[1..][i - 1];
        assert forall i :: 0 <= i < |cells| - 1 ==> cells[1..][i] == cells[i + 1];
      }
    }
  }

  lemma NullsAreOnPages(chunks: seq<seq<Cell>>, cells: seq<Cell>, p: nat)
    requires Concat(chunks) == cells && p < |chunks| && !NoNulls(chunks[p])
    ensures !NoNulls(cells)
  {
    ConcatAt(chunks, p);
    var i :| 0 <= i < |chunks[p]| && chunks[p][i].None?;
    assert cells[|Concat(chunks[..p])| + i].None?;
  }

  lemma {:induction false} NoNullsOnPages(chunks: seq<seq<Cell>>)
    requires forall p :: 0 <= p < |chunks| ==> NoNulls(chunks[p])
    ensures NoNulls(Concat(chunks))
  {
    if chunks != [] {
      NoNullsOnPages(chunks[1..]);
    }
  }

  method HasNulls(pages: seq<Page>, ghost chunks: seq<seq<Cell>>) returns (hasNulls: bool)
    requires PagesHold(pages, 4, chunks)
    ensures hasNulls <==> !NoNulls(Concat(chunks))
  {
    hide Concat, Data, Present, BitsMatch, Fits, NoNulls;
    for p := 0 to |pages|
      invariant forall q :: 0 <= q < p ==> NoNulls(chunks[q])
    {
      assert PageHolds(pages[p], 4, chunks[p]);
      AllPresent(chunks[p]);
      if U16At(pages[p], 2) < U16At(pages[p], 0) {
        NullsAreOnPages(chunks, Concat(chunks), p);
        return true;
      }
    }
    NoNullsOnPages(chunks);
    return false;
  }

  // The first n of vs, with nulls where there are too few.
  function Fitted(vs: seq<Value>, n: nat): (r: seq<Value>)
    ensures |r| == n
  {
    if |vs| >= n then vs[..n] else vs + seq(n - |vs|, _ => Null)
  }

  lemma FittedFacts(vs: seq<Value>, n: nat)
    ensures |vs| == n ==> Fitted(vs, n) == vs
    ensures Fitted(vs[..if |vs| < n then |vs| else n], n) == Fitted(vs, n)
  {
  }

  method Pad(c: ColumnT, numRows: nat)
    requires c.Valid() && c.hasNulls && |c.Contents()| <= numRows
    modifies c
    ensures c.Valid() && c.hasNulls && c.Contents() == Fitted(old(c.Contents()), numRows)
  {
    hide Concat;
    ghost var vs := c.Contents();
    var rowIdx := c.numRows;
    while rowIdx < numRows
      invariant |vs| <= rowIdx <= numRows && c.Valid() && c.hasNulls
      invariant c.Contents() == vs + seq(rowIdx - |vs|, _ => Null)
    {
      c.Insert(Null);
      rowIdx := rowIdx + 1;
    }
  }

  // What row r reads as: null, or the number in its four bytes, the lowest first.
  ghost predicate CellIsRead(cells: seq<Cell>, r: nat, v: Value) {
    if r < |cells| && cells[r].Some? && |cells[r].value| == 4 then
      && v.Int32? && -2147483648 <= v.i <= 2147483647
      && var b := cells[r].value;
         var u := b[0] as int + 256 * (b[1] as int) + 65536 * (b[2] as int) + 16777216 * (b[3] as int);
         v.i == u || v.i == u - 4294967296
    else v == Null
  }

  lemma CellsAreRead(chunks: seq<seq<Cell>>, n: nat)
    ensures forall r :: 0 <= r < n ==> CellIsRead(Concat(chunks), r, Fitted(Map(Concat(chunks), CellValue), n)[r])
  {
    hide Concat, Map, Int32Of;
    var cells := Concat(chunks);
    forall r | 0 <= r < n ensures CellIsRead(cells, r, Fitted(Map(cells, CellValue), n)[r]) {
      if r < |cells| && cells[r].Some? && |cells[r].value| == 4 {
        Int32IsItsBytes(cells[r].value);
      }
    }
  }

  // An INT32 column. With nulls the rows are copied, null where the pages lack some. Without
  // nulls the pages stay where they are, and stand for the column when they can be read in
  // place and have as many rows as the table.
  method CopyInt32(pages: seq<Page>, numRows: nat, ghost chunks: seq<seq<Cell>>) returns (c: ColumnT)
    requires PagesHold(pages, 4, chunks) && ChunksOk(4, chunks)
    ensures fresh(c) && c.numRows == numRows && (c.hasNulls <==> !NoNulls(Concat(chunks)))
    ensures c.hasNulls ==> c.Valid() && c.Contents() == Fitted(Map(Concat(chunks), CellValue), numRows)
    ensures c.hasNulls ==> forall r :: 0 <= r < numRows ==> CellIsRead(Concat(chunks), r, c.Contents()[r])
    ensures !c.hasNulls ==> c.origCol == pages
    ensures !c.hasNulls && |Concat(chunks)| == numRows && EquallyFilled(chunks) ==>
              c.Valid() && c.Contents() == Map(Concat(chunks), CellValue)
  {
    hide Concat, Data, Present, BitsMatch, PageHolds, CellValue, NoNulls, EquallyFilled, CellIsRead, CellsOk;
    CellsAreRead(chunks, numRows);
    c := new ColumnT();
    FittedFacts(Map(Concat(chunks), CellValue), numRows);
    var hasNulls := HasNulls(pages, chunks);
    if !hasNulls {
      c.numRows, c.hasNulls, c.origCol, c.chunks := numRows, false, pages, chunks;
    } else {
      CopyInt32Pages(c, pages, numRows, Concat(chunks), chunks);
      Pad(c, numRows);
    }
  }

  method CopyInt32Pages(c: ColumnT, pages: seq<Page>, numRows: nat, ghost cells: seq<Cell>,
                        ghost chunks: seq<seq<Cell>>)
    requires PagesHold(pages, 4, chunks) && ChunksOk(4, chunks) && Concat(chunks) == cells
    requires c.Valid() && c.hasNulls && c.Contents() == []
    modifies c
    ensures c.Valid() && c.hasNulls
    ensures c.Contents() == Map(cells, CellValue)[..if |cells| < numRows then |cells| else numRows]
  {
    hide Concat, Map, Data, Present, BitsMatch, PageHolds, CellValue, CellsOk, ColumnT.Valid, ColumnT.Contents;
    var rowIdx: nat := 0;
    assert chunks[..0] == [];
    ConcatUnfold(chunks[..0]);
    for p := 0 to |pages|
      invariant rowIdx == (if |Concat(chunks[..p])| < numRows then |Concat(chunks[..p])| else numRows) <= |cells|
      invariant c.Valid() && c.hasNulls
      invariant c.Contents() == Map(cells, CellValue)[..rowIdx]
    {
      ConcatAt(chunks, p);
      if rowIdx < numRows {
        rowIdx := CopyInt32Page(c, pages[p], rowIdx, numRows, cells, chunks[p]);
      }
    }
    assert chunks[..|pages|] == chunks;
  }

  lemma NextInt32(page: Page, chunk: seq<Cell>, i: nat)
    requires PageHolds(page, 4, chunk) && CellsOk(4, chunk) && i < |chunk|
    ensures Present(chunk[..i + 1]) == Present(chunk[..i]) + if chunk[i].Some? then 1 else 0
    ensures BitAt(page[PAGE_SIZE - BitmapBytes(|chunk|)..], i) == chunk[i].Some?
    ensures chunk[i].Some? ==>
              var at := 4 + 4 * Present(chunk[..i]);
              at + 4 <= PAGE_SIZE && CellValue(chunk[i]) == Int32(Int32Of(page[at..at + 4]))
    ensures chunk[i].None? ==> CellValue(chunk[i]) == Null
  {
    hide Data, Present, BitAt, Int32Of;
    assert chunk[..i + 1] == chunk[..i] + [chunk[i]];
    DataSnoc(chunk[..i], chunk[i]);
    ColumnInserter.DataIsWholeValues(chunk[..i]);
    ValueAt(page, 4, chunk, i);
  }

  method CopyInt32Row(c: ColumnT, page: Page, bitmap: seq<Byte>, i: nat, dataIdx: nat, ghost chunk: seq<Cell>)
    returns (next: nat)
    requires PageHolds(page, 4, chunk) && CellsOk(4, chunk) && i < |chunk|
    requires bitmap == page[PAGE_SIZE - BitmapBytes(|chunk|)..] && dataIdx == Present(chunk[..i])
    requires c.Valid() && c.hasNulls
    modifies c
    ensures next == Present(chunk[..i + 1])
    ensures c.Valid() && c.hasNulls && c.Contents() == old(c.Contents()) + [CellValue(chunk[i])]
  {
    hide Data, Present, BitAt, Concat, CellValue, Int32Of, PagesFilled;
    NextInt32(page, chunk, i);
    next := dataIdx;
    if BitAt(bitmap, i) {
      var at := 4 + 4 * dataIdx;
      c.Insert(Int32(Int32Of(page[at..at + 4])));
      next := dataIdx + 1;
    } else {
      c.Insert(Null);
    }
  }

  method CopyInt32Page(c: ColumnT, page: Page, firstRow: nat, numRows: nat, ghost cells: seq<Cell>,
                       ghost chunk: seq<Cell>) returns (rowIdx: nat)
    requires PageHolds(page, 4, chunk) && CellsOk(4, chunk) && firstRow < numRows
    requires firstRow + |chunk| <= |cells| && forall i :: 0 <= i < |chunk| ==> cells[firstRow + i] == chunk[i]
    requires c.Valid() && c.hasNulls && c.Contents() == Map(cells, CellValue)[..firstRow]
    modifies c
    ensures rowIdx == if firstRow + |chunk| < numRows then firstRow + |chunk| else numRows
    ensures c.Valid() && c.hasNulls && c.Contents() == Map(cells, CellValue)[..rowIdx]
  {
    hide Data, Present, BitAt, Concat, Map, CellValue, Int32Of, BitsMatch, CellsOk, Fits, ColumnT.Valid, ColumnT.Contents;
    var rowsInPage := U16At(page, 0);
    var bitmap := page[PAGE_SIZE - BitmapBytes(rowsInPage)..];
    var dataIdx := 0;
    rowIdx := firstRow;
    DataUnfold(chunk[..0]);
    var i := 0;
    while i < rowsInPage && rowIdx < numRows
      invariant 0 <= i <= rowsInPage && rowIdx == firstRow + i <= numRows
      invariant dataIdx == Present(chunk[..i])
      invariant c.Valid() && c.hasNulls && c.Contents() == Map(cells, CellValue)[..rowIdx]
    {
      dataIdx := CopyInt32Row(c, page, bitmap, i, dataIdx, chunk);
      rowIdx := rowIdx + 1;
      i := i + 1;
    }
  }

  // ---- VARCHAR ----

  // The bit fields of a reference cut off what does not fit.
  function RepOf(table: nat, column: nat, page: nat, offset: nat): StrRep {
    StrRep(table % 0x20, column % 0x8, page % 0x10_0000, offset % 0x1_0000)
  }

  function RowRef(rows: seq<Cell>, i: nat, table: nat, column: nat, page: nat): Value
    requires i < |rows|
  {
    if rows[i].Some? then Text(RepOf(table, column, page, |Data(rows[..i])|)) else Null
  }

  // The references for the rows of a segment whose first page has the given number.
  function SegmentRefs(s: Segment, table: nat, column: nat, page: nat): (r: seq<Value>)
    ensures |r| == |RowsOf(s)|
  {
    match s
    case Short(rows) => seq(|rows|, i requires 0 <= i < |rows| => RowRef(rows, i, table, column, page))
    case Long(_) => [Text(RepOf(table, column, page, 0))]
  }

  ghost function Refs(runs: seq<seq<Page>>, segments: seq<Segment>, table: nat, column: nat): (r: seq<seq<Value>>)
    requires |runs| == |segments|
    ensures |r| == |segments| && forall s :: 0 <= s < |r| ==>
              r[s] == SegmentRefs(segments[s], table, column, |Concat(runs[..s])|)
  {
    seq(|segments|, s requires 0 <= s < |segments| => SegmentRefs(segments[s], table, column, |Concat(runs[..s])|))
  }

  // The start of row i's string is the end offset before it.
  method RowStart(page: Page, dataIdx: nat, ghost rows: seq<Cell>, ghost i: nat) returns (start: nat)
    requires ShortHolds(page, rows) && i < |rows| && rows[i].Some? && dataIdx == Present(rows[..i])
    requires StartKnown(page, rows, i)
    ensures start == |Data(rows[..i])|
  {
    hide Data, Present, U16At, BitsMatch;
    StringOfRow(page, rows, i);
    start := if dataIdx == 0 then 0 else U16At(page, 4 + 2 * (dataIdx - 1));
  }

  ghost predicate StartKnown(page: Page, rows: seq<Cell>, i: nat)
    requires i <= |rows|
  {
    var n := Present(rows[..i]);
    if n == 0 then Data(rows[..i]) == [] else 4 + 2 * n <= PAGE_SIZE && U16At(page, 2 + 2 * n) == |Data(rows[..i])|
  }

  lemma NextStartKnown(page: Page, rows: seq<Cell>, i: nat)
    requires ShortHolds(page, rows) && i < |rows| && StartKnown(page, rows, i)
    ensures StartKnown(page, rows, i + 1)
    ensures BitAt(page[PAGE_SIZE - BitmapBytes(|rows|)..], i) == rows[i].Some?
  {
    hide Data, Present, U16At, BitAt;
    StringOfRow(page, rows, i);
    assert rows[..i + 1] == rows[..i] + [rows[i]];
    DataSnoc(rows[..i], rows[i]);
    assert rows[i].None? ==> Data(rows[..i]) + [] == Data(rows[..i]);
  }

  method CopyShortPage(c: ColumnT, page: Page, pageId: nat, firstRow: nat, numRows: nat, table: nat, column: nat,
                       ghost rows: seq<Cell>)
    returns (rowIdx: nat)
    requires ShortHolds(page, rows) && c.Valid() && c.hasNulls
    modifies c
    ensures c.Valid() && c.hasNulls
    ensures rowIdx == if numRows <= firstRow then firstRow else if firstRow + |rows| < numRows then firstRow + |rows| else numRows
    ensures c.Contents() == old(c.Contents()) + SegmentRefs(Short(rows), table, column, pageId)[..rowIdx - firstRow]
  {
    hide Data, Present, BitAt, Concat, ShortHolds, PagesFilled, StartKnown;
    PageFacts(page, rows);
    var rowsInPage := U16At(page, 0);
    var bitmap := page[PAGE_SIZE - BitmapBytes(rowsInPage)..];
    var dataIdx := 0;
    rowIdx := firstRow;
    ghost var before, refs := c.Contents(), SegmentRefs(Short(rows), table, column, pageId);
    var i: nat := 0;
    while i < rowsInPage && rowIdx < numRows
      invariant 0 <= i <= rowsInPage && rowIdx == firstRow + i && (i > 0 ==> rowIdx <= numRows)
      invariant dataIdx == Present(rows[..i]) && StartKnown(page, rows, i)
      invariant c.Valid() && c.hasNulls && c.Contents() == before + refs[..i]
    {
      assert refs[..i + 1] == refs[..i] + [RowRef(rows, i, table, column, pageId)];
      NextStartKnown(page, rows, i);
      assert rows[..i + 1] == rows[..i] + [rows[i]];
      DataSnoc(rows[..i], rows[i]);
      if BitAt(bitmap, i) {
        var startOff := RowStart(page, dataIdx, rows, i);
        c.Insert(Text(RepOf(table, column, pageId, startOff)));
        dataIdx := dataIdx + 1;
      } else {
        c.Insert(Null);
      }
      rowIdx := rowIdx + 1;
      i := i + 1;
    }
  }

  lemma PageFacts(page: Page, rows: seq<Cell>)
    requires ShortHolds(page, rows)
    ensures U16At(page, 0) == |rows| && BitmapBytes(|rows|) <= PAGE_SIZE
    ensures Present(rows[..0]) == 0 && StartKnown(page, rows, 0)
  {
  }

  function Cut(vs: seq<Value>, n: nat): seq<Value> {
    if |vs| > n then vs[..n] else vs
  }

  // What a segment adds when at most n rows are wanted.
  lemma CutGrows(vs: seq<Value>, more: seq<Value>, n: nat)
    ensures Cut(vs + more, n) == if n <= |vs| then Cut(vs, n) else Cut(vs, n) + Cut(more, n - |vs|)
  {
  }

  lemma SegmentStarts(p: nat, pages: seq<Page>, tail: seq<Page>, runs: seq<seq<Page>>, segments: seq<Segment>,
                      s: nat, row: nat)
    requires Concat(runs) == pages && p <= |pages| && Reading(pages[p..], tail, runs, segments, s, [], row)
    ensures p == |Concat(runs[..s])|
  {
    hide Concat, Map;
    assert runs == runs[..s] + runs[s..];
    ConcatAppend(runs[..s], runs[s..]);
    assert tail == [];
  }

  lemma NextRefs(runs: seq<seq<Page>>, segments: seq<Segment>, table: nat, column: nat, s: nat)
    requires |runs| == |segments| && s < |segments|
    ensures var refs := Refs(runs, segments, table, column);
            Concat(refs[..s + 1]) == Concat(refs[..s]) + SegmentRefs(segments[s], table, column, |Concat(runs[..s])|)
  {
    hide Concat, SegmentRefs;
    var refs := Refs(runs, segments, table, column);
    assert refs[..s + 1] == refs[..s] + [refs[s]];
    ConcatSnoc(refs[..s], refs[s]);
  }

  lemma {:induction false} RefsMatchRows(runs: seq<seq<Page>>, segments: seq<Segment>, table: nat, column: nat, s: nat)
    requires |runs| == |segments| && s <= |segments|
    ensures |Concat(Refs(runs, segments, table, column)[..s])| == |Concat(Map(segments[..s], RowsOf))|
    decreases s
  {
    hide Concat, Map, SegmentRefs, Refs;
    ConcatUnfold(Refs(runs, segments, table, column)[..0]);
    ConcatUnfold(Map(segments[..0], RowsOf));
    if s > 0 {
      RefsMatchRows(runs, segments, table, column, s - 1);
      NextRefs(runs, segments, table, column, s - 1);
      assert segments[..s] == segments[..s - 1] + [segments[s - 1]];
      MapSnoc(segments[..s - 1], segments[s - 1], RowsOf);
      ConcatSnoc(Map(segments[..s - 1], RowsOf), RowsOf(segments[s - 1]));
    }
  }

  ghost predicate FirstPageOf(page: Page, s: Segment) {
    match s
    case Short(rows) => ShortHolds(page, rows) && U16At(page, 0) <= 65504
    case Long(_) => U16At(page, 0) == FIRST_MARK
  }

  // A page that begins a segment, or (begun is None) goes on with a long string.
  method CopyVarcharPage(c: ColumnT, page: Page, pageId: nat, firstRow: nat, numRows: nat, table: nat, column: nat,
                         ghost begun: Option<Segment>)
    returns (rowIdx: nat)
    requires c.Valid() && c.hasNulls
    requires begun.None? ==> U16At(page, 0) == NEXT_MARK
    requires begun.Some? ==> FirstPageOf(page, begun.value)
    modifies c
    ensures c.Valid() && c.hasNulls
    ensures begun.None? || numRows <= firstRow ==> c.Contents() == old(c.Contents())
    ensures begun.None? ==> rowIdx == firstRow
    ensures begun.Some? ==>
              var n := |RowsOf(begun.value)|;
              if numRows <= firstRow then firstRow <= rowIdx <= firstRow + n
              else
                && rowIdx == (if firstRow + n < numRows then firstRow + n else numRows)
                && c.Contents() == old(c.Contents()) + Cut(SegmentRefs(begun.value, table, column, pageId), numRows - firstRow)
  {
    hide Concat, ShortHolds, PagesFilled;
    rowIdx := firstRow;
    var header := U16At(page, 0);
    if header == FIRST_MARK {
      if rowIdx < numRows {
        c.Insert(Text(RepOf(table, column, pageId, 0)));
      }
      rowIdx := rowIdx + 1;
    } else if header != NEXT_MARK {
      rowIdx := CopyShortPage(c, page, pageId, firstRow, numRows, table, column, begun.value.rows);
    }
  }

  // Where the scan stands behind page p.
  lemma PageTurn(p: nat, pages: seq<Page>, tail: seq<Page>, runs: seq<seq<Page>>, segments: seq<Segment>, s: nat,
                 text: Bytes, row: nat,
                 table: nat, column: nat, numRows: nat)
    returns (begun: Option<Segment>, tail': seq<Page>, s': nat, text': Bytes, row': nat)
    requires Concat(runs) == pages && p < |pages| && Holds(runs, segments) && |runs| == |segments|
    requires Reading(pages[p..], tail, runs, segments, s, text, row)
    requires |Concat(Refs(runs, segments, table, column)[..s])| == row
    ensures Reading(pages[p + 1..], tail', runs, segments, s', text', row')
    ensures begun.None? ==> U16At(pages[p], 0) == NEXT_MARK && s' == s && row' == row
    ensures begun.Some? ==>
              var refs := Refs(runs, segments, table, column);
              var more := SegmentRefs(begun.value, table, column, p);
              && FirstPageOf(pages[p], begun.value) && s' == s + 1 <= |segments| && row' == row + |RowsOf(begun.value)|
              && |Concat(refs[..s'])| == row'
              && Cut(Concat(refs[..s']), numRows) ==
                 if numRows <= row then Cut(Concat(refs[..s]), numRows)
                 else Cut(Concat(refs[..s]), numRows) + Cut(more, numRows - row)
  {
    hide Concat, Map, Data, Present, Reading, PieceHolds, ShortHolds, Holds, SegmentRefs, Refs, Cut;
    assert pages[p..][1..] == pages[p + 1..];
    if text != [] {
      NextPiece(pages[p..], tail, runs, segments, s, text, row);
      begun, tail', s', text', row' := None, tail[1..], s, text[|Piece(text)|..], row;
    } else {
      SegmentStarts(p, pages, tail, runs, segments, s, row);
      NextSegment(pages[p..], tail, runs, segments, s, row);
      NextRefs(runs, segments, table, column, s);
      CutGrows(Concat(Refs(runs, segments, table, column)[..s]), SegmentRefs(segments[s], table, column, p), numRows);
      begun, s', row' := Some(segments[s]), s + 1, row + |RowsOf(segments[s])|;
      tail', text' := [], [];
      if segments[s].Long? {
        tail', text' := runs[s][1..], segments[s].text[|Piece(segments[s].text)|..];
      }
    }
  }

  // A VARCHAR column: a reference per string, page by page.
  method CopyVarchar(pages: seq<Page>, numRows: nat, table: nat, column: nat, ghost runs: seq<seq<Page>>,
                     ghost segments: seq<Segment>)
    returns (c: ColumnT)
    requires Holds(runs, segments) && Concat(runs) == pages
    ensures fresh(c) && c.Valid() && c.hasNulls
    ensures c.Contents() == Fitted(Concat(Refs(runs, segments, table, column)), numRows)
  {
    hide Concat, Map, Data, Present, Reading, PieceHolds, ShortHolds, Holds, SegmentRefs, Refs, PagesFilled, FirstPageOf;
    c := new ColumnT();
    NothingRead(runs, segments);
    ghost var refs := Refs(runs, segments, table, column);
    var rowIdx: nat := 0;
    ghost var s: nat, text: Bytes, tail: seq<Page>, row: nat := 0, [], [], 0;
    RefsMatchRows(runs, segments, table, column, 0);
    assert pages[0..] == pages;
    for p := 0 to |pages|
      invariant Reading(pages[p..], tail, runs, segments, s, text, row) && s <= |segments|
      invariant |Concat(refs[..s])| == row && (rowIdx == row || numRows <= rowIdx <= row)
      invariant fresh(c) && c.Valid() && c.hasNulls && c.Contents() == Cut(Concat(refs[..s]), numRows)
    {
      var page := pages[p];
      ghost var begun;
      begun, tail, s, text, row := PageTurn(p, pages, tail, runs, segments, s, text, row, table, column, numRows);
      rowIdx := CopyVarcharPage(c, page, p, rowIdx, numRows, table, column, begun);
    }
    assert refs[..|segments|] == refs && pages[|pages|..] == [];
    AllRead(tail, runs, segments, s, text, row);
    Pad(c, numRows);
  }

  // ---- strings, late ----

  // The reference of a row names its segment's first page and where its string starts.
  lemma RefOfRow(runs: seq<seq<Page>>, segments: seq<Segment>, table: nat, column: nat, r: nat) returns (s: nat, i: nat)
    requires Holds(runs, segments) && r < |Concat(Map(segments, RowsOf))|
    requires table < 0x20 && column < 0x8 && |Concat(runs)| <= 0x10_0000
    ensures s < |segments| && i < |RowsOf(segments[s])| && r == |Concat(Map(segments[..s], RowsOf))| + i
    ensures Concat(Map(segments, RowsOf))[r] == RowsOf(segments[s])[i]
    ensures |runs| == |segments|
    ensures var refs := Concat(Refs(runs, segments, table, column));
            var page := |Concat(runs[..s])|;
            && r < |refs| == |Concat(Map(segments, RowsOf))| && page < |Concat(runs)|
            && refs[r] == SegmentRefs(segments[s], table, column, page)[i]
            && (segments[s].Short? ==> Room(segments[s].rows))
  {
    hide Concat, Map, SegmentRefs, Data, Present, Refs, Room, Holds, RowsOf;
    s, i := RowAt(segments, r);
    SegmentHasRoom(runs, segments, s);
    RefAt(runs, segments, table, column, s, i);
    RefsMatchRows(runs, segments, table, column, |segments|);
    assert segments[..|segments|] == segments;
    RefsAreAll(runs, segments, table, column);
    PageInside(runs, segments, s);
  }

  lemma PageInside(runs: seq<seq<Page>>, segments: seq<Segment>, s: nat)
    requires Holds(runs, segments) && s < |segments|
    ensures s < |runs| && |Concat(runs[..s])| < |Concat(runs)|
  {
    hide Concat, Map, ShortHolds, LongHolds, Reading;
    AtSegment(Concat(runs), runs, segments, s);
  }

  lemma RefsAreAll(runs: seq<seq<Page>>, segments: seq<Segment>, table: nat, column: nat)
    requires |runs| == |segments|
    ensures Refs(runs, segments, table, column)[..|segments|] == Refs(runs, segments, table, column)
  {
  }

  lemma SegmentHasRoom(runs: seq<seq<Page>>, segments: seq<Segment>, s: nat)
    requires Holds(runs, segments) && s < |segments|
    ensures |runs| == |segments| && (segments[s].Short? ==> Room(segments[s].rows))
  {
    assert SegmentHolds(runs[s], segments[s]);
  }

  lemma RefAt(runs: seq<seq<Page>>, segments: seq<Segment>, table: nat, column: nat, s: nat, i: nat)
    requires |runs| == |segments| && s < |segments| && i < |RowsOf(segments[s])|
    ensures var refs := Refs(runs, segments, table, column);
            var r := |Concat(Map(segments[..s], RowsOf))| + i;
            r < |Concat(refs)| && Concat(refs)[r] == SegmentRefs(segments[s], table, column, |Concat(runs[..s])|)[i]
  {
    hide Concat, Map, SegmentRefs;
    var refs := Refs(runs, segments, table, column);
    RefsMatchRows(runs, segments, table, column, s);
    ConcatAt(refs, s);
  }

  lemma OffsetFits(rows: seq<Cell>, i: nat)
    requires Room(rows) && i <= |rows|
    ensures |Data(rows[..i])| < 0x1_0000
  {
    hide Data, Present;
    PrefixesGrow(rows, i, i);
  }

  lemma RowIsReferred(runs: seq<seq<Page>>, segments: seq<Segment>, table: nat, column: nat, s: nat, i: nat)
    requires |runs| == |segments| && s < |segments| && i < |RowsOf(segments[s])| && |Concat(runs[..s])| < 0x10_0000
    requires table < 0x20 && column < 0x8 && (segments[s].Short? ==> Room(segments[s].rows))
    ensures var v := SegmentRefs(segments[s], table, column, |Concat(runs[..s])|)[i];
            if RowsOf(segments[s])[i].None? then v == Null
            else
              && v.Text? && v.rep.table == table && v.rep.column == column
              && RefersTo(v.rep, runs, segments, s, i) && RepFits(v.rep)
  {
    hide Concat, Data, Present;
    if segments[s].Short? {
      OffsetFits(segments[s].rows, i);
    }
  }

  // A string kept as a reference through a scan and a value_t, against the row it came from:
  // a long string comes back unless another follows it, a short one if it is not empty, and an
  // empty one only when nothing but the bitmap follows it on its page.
  method LateRead(inputs: seq<seq<seq<Page>>>, table: nat, column: nat, numRows: nat, r: nat,
                  ghost values: seq<Cell>, ghost runs: seq<seq<Page>>)
    returns (got: Cell, ghost s: nat, ghost i: nat)
    requires table < |inputs| && table < 0x20 && column < |inputs[table]| && column < 0x8
             && |inputs[table][column]| <= 0x10_0000
    requires Holds(runs, Close(Segments(values))) && Concat(runs) == inputs[table][column] && r < |values| == numRows
    ensures got.Some? == values[r].Some?
    ensures var segments := Close(Segments(values));
            && s < |segments| && i < |RowsOf(segments[s])| && RowsOf(segments[s])[i] == values[r]
            && (values[r].Some? ==> (got == values[r] <==> Recoverable(segments, s, i)))
    ensures values[r].Some? && IsLong(values[r]) ==> (got == values[r] <==> r + 1 == |values| || !IsLong(values[r + 1]))
    ensures values[r].Some? && !IsLong(values[r]) && values[r].value != [] ==> got == values[r]
  {
    hide Concat, Map, Data, Present, Holds, Segments, Close, SegmentRefs, Refs, Recoverable, Raw, Unraw;
    ghost var segments := Close(Segments(values));
    ClosedSegmentsKeepRows(values);
    s, i := RefOfRow(runs, segments, table, column, r);
    RowIsReferred(runs, segments, table, column, s, i);
    var c := CopyVarchar(inputs[table][column], numRows, table, column, runs, segments);
    var v := c.GetValue(r);
    ValueSurvivesPacking(v);
    match Unraw(Raw(v))
    case Text(rep) =>
      RecoverableRows(runs, segments, s, i, r);
      RepTextExact(inputs, rep, runs, segments, s, i);
      var text := StringFromRep(inputs, rep);
      got := Some(text);
    case _ =>
      got := None;
  }
}
