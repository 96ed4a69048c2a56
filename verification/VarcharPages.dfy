// VARCHAR columns of Table::to_columnar and Table::from_columnar (src/build_table.cpp): short
// strings share pages with an array of end offsets; a string longer than 8185 bytes takes
// pages of its own, marked 0xFFFF for the first and 0xFFFE for the others.
module VarcharPages {
  import opened Options
  import opened Bags
  import opened PageFormat
  import opened FixedPages

  const LONGEST: nat := PAGE_SIZE - 7
  const PIECE: nat := PAGE_SIZE - 4
  const FIRST_MARK: nat := 0xFFFF
  const NEXT_MARK: nat := 0xFFFE

  predicate Room(cells: seq<Cell>) {
    4 + 2 * Present(cells) + |Data(cells)| + BitmapBytes(|cells|) <= PAGE_SIZE
  }

  // What a run of pages holds: rows of short strings and nulls, or one long string.
  datatype Segment = Short(rows: seq<Cell>) | Long(text: Bytes)

  datatype Draft = Draft(done: seq<Segment>, cur: seq<Cell>)

  predicate IsLong(c: Cell) { c.Some? && |c.value| > LONGEST }

  function Close(d: Draft): seq<Segment> {
    if d.cur == [] then d.done else d.done + [Short(d.cur)]
  }

  function Add(d: Draft, c: Cell): Draft {
    if IsLong(c) then Draft(Close(d) + [Long(c.value)], [])
    else if Room(d.cur + [c]) then d.(cur := d.cur + [c])
    else Draft(d.done + [Short(d.cur)], [c])
  }

  function Segments(cells: seq<Cell>): Draft {
    if cells == [] then Draft([], []) else Add(Segments(cells[..|cells| - 1]), cells[|cells| - 1])
  }

  function RowsOf(s: Segment): seq<Cell> {
    match s case Short(rows) => rows case Long(text) => [Some(text)]
  }

  ghost predicate ShortHolds(page: Page, cells: seq<Cell>) {
    && Room(cells) && |cells| <= 65504
    && U16At(page, 0) == |cells| && U16At(page, 2) == Present(cells)
    && (forall i :: 0 <= i < |cells| && cells[i].Some? ==> EndOffset(page, cells, i))
    && page[4 + 2 * Present(cells)..4 + 2 * Present(cells) + |Data(cells)|] == Data(cells)
    && BitsMatch(page[PAGE_SIZE - BitmapBytes(|cells|)..], cells)
  }

  // The end offset stored for row i.
  ghost predicate EndOffset(page: Page, cells: seq<Cell>, i: nat)
    requires i < |cells|
  {
    var at := 4 + 2 * Present(cells[..i]);
    at + 2 <= PAGE_SIZE && U16At(page, at) == |Data(cells[..i + 1])|
  }

  ghost predicate PieceHolds(page: Page, mark: nat, piece: Bytes) {
    |piece| <= PIECE && U16At(page, 0) == mark && U16At(page, 2) == |piece| && page[4..4 + |piece|] == piece
  }

  function Piece(text: Bytes): (p: Bytes)
    ensures |p| <= PIECE && (text != [] ==> p != [])
  {
    if |text| <= PIECE then text else text[..PIECE]
  }

  // Pages holding a long string, or the rest of one.
  ghost predicate LongHolds(pages: seq<Page>, text: Bytes, first: bool)
    decreases |text|
  {
    if text == [] then pages == []
    else
      && pages != [] && PieceHolds(pages[0], if first then FIRST_MARK else NEXT_MARK, Piece(text))
      && LongHolds(pages[1..], text[|Piece(text)|..], false)
  }

  ghost predicate SegmentHolds(pages: seq<Page>, s: Segment) {
    match s
    case Short(rows) => rows != [] && |pages| == 1 && ShortHolds(pages[0], rows)
    case Long(text) => |text| > LONGEST && LongHolds(pages, text, true)
  }

  // runs[i]: the pages of the i-th segment.
  ghost predicate Holds(runs: seq<seq<Page>>, segments: seq<Segment>) {
    |runs| == |segments| && forall i :: 0 <= i < |runs| ==> SegmentHolds(runs[i], segments[i])
  }

  // The pages of a column say these segments.
  ghost predicate Says(pages: seq<Page>, segments: seq<Segment>) {
    exists runs: seq<seq<Page>> :: Holds(runs, segments) && Concat(runs) == pages
  }

  // ---- what the segments hold ----

  ghost predicate DraftOk(d: Draft, cells: seq<Cell>) {
    && Concat(Map(d.done, RowsOf)) + d.cur == cells
    && Room(d.cur) && (forall i :: 0 <= i < |d.cur| ==> !IsLong(d.cur[i]))
  }

  lemma ShortCellHasRoom(c: Cell)
    requires !IsLong(c)
    ensures Room([c]) && Room([])
  {
    assert c == [c][0];
    DataUnfold([c]);
    DataUnfold([c][1..]);
  }

  lemma MapSnoc<T, U>(s: seq<T>, x: T, f: T -> U)
    ensures Map(s + [x], f) == Map(s, f) + [f(x)]
  {
  }

  lemma CloseKeepsRows(d: Draft)
    ensures Concat(Map(Close(d), RowsOf)) == Concat(Map(d.done, RowsOf)) + d.cur
  {
    hide Concat, Map;
    if d.cur == [] {
      assert Concat(Map(d.done, RowsOf)) + d.cur == Concat(Map(d.done, RowsOf));
    } else {
      MapSnoc(d.done, Short(d.cur), RowsOf);
      ConcatSnoc(Map(d.done, RowsOf), d.cur);
    }
  }

  lemma AddKeepsRows(d: Draft, cells: seq<Cell>, c: Cell)
    requires DraftOk(d, cells)
    ensures DraftOk(Add(d, c), cells + [c])
  {
    hide Concat, Map, Data, Present;
    CloseKeepsRows(d);
    if IsLong(c) {
      MapSnoc(Close(d), Long(c.value), RowsOf);
      ConcatSnoc(Map(Close(d), RowsOf), [c]);
      ShortCellHasRoom(None);
    } else {
      ShortCellHasRoom(c);
      assert Concat(Map(d.done, RowsOf)) + (d.cur + [c]) == cells + [c];
      MapSnoc(d.done, Short(d.cur), RowsOf);
      ConcatSnoc(Map(d.done, RowsOf), d.cur);
    }
  }

  lemma SegmentsUnfold(cells: seq<Cell>, c: Cell)
    ensures Segments(cells + [c]) == Add(Segments(cells), c)
  {
    assert (cells + [c])[..|cells|] == cells;
  }

  lemma {:induction false} SegmentsKeepRows(cells: seq<Cell>)
    ensures DraftOk(Segments(cells), cells)
    decreases |cells|
  {
    if cells == [] {
      DataUnfold([]);
    } else {
      hide DraftOk, Add, Segments;
      var n := |cells| - 1;
      SegmentsKeepRows(cells[..n]);
      assert cells[..n] + [cells[n]] == cells;
      SegmentsUnfold(cells[..n], cells[n]);
      AddKeepsRows(Segments(cells[..n]), cells[..n], cells[n]);
    }
  }

  lemma ClosedSegmentsKeepRows(cells: seq<Cell>)
    ensures Concat(Map(Close(Segments(cells)), RowsOf)) == cells
  {
    hide Concat, Map, Segments, Close;
    SegmentsKeepRows(cells);
    CloseKeepsRows(Segments(cells));
  }

  // ---- the writer ----

  function U16s(ns: seq<nat>): Bytes
    requires forall i :: 0 <= i < |ns| ==> ns[i] < 0x1_0000
  {
    if ns == [] then [] else U16(ns[0]) + U16s(ns[1..])
  }

  lemma {:induction false} U16sAt(ns: seq<nat>, k: nat)
    requires (forall i :: 0 <= i < |ns| ==> ns[i] < 0x1_0000) && k <= |ns|
    ensures |U16s(ns)| == 2 * |ns|
    ensures k < |ns| ==> U16s(ns)[2 * k..2 * k + 2] == U16(ns[k])
    decreases |ns|
  {
    if ns != [] {
      U16sAt(ns[1..], if k > 0 then k - 1 else 0);
      var rest := U16s(ns[1..]);
      if 0 < k < |ns| {
        assert (U16(ns[0]) + rest)[2 * k..2 * k + 2] == rest[2 * (k - 1)..2 * (k - 1) + 2];
      } else if k == 0 {
        assert (U16(ns[0]) + rest)[0..2] == U16(ns[0]);
      }
    }
  }

  ghost predicate OffsetsMatch(offsets: seq<nat>, cells: seq<Cell>) {
    && |offsets| == Present(cells)
    && (forall k :: 0 <= k < |offsets| ==> offsets[k] <= |Data(cells)|)
    && (forall i :: 0 <= i < |cells| && cells[i].Some? ==> OffsetOfRow(offsets, cells, i))
  }

  ghost predicate OffsetOfRow(offsets: seq<nat>, cells: seq<Cell>, i: nat)
    requires i < |cells|
  {
    Present(cells[..i]) < |offsets| && offsets[Present(cells[..i])] == |Data(cells[..i + 1])|
  }

  lemma OffsetsGrow(offsets: seq<nat>, cells: seq<Cell>, c: Cell)
    requires OffsetsMatch(offsets, cells)
    ensures OffsetsMatch(if c.Some? then offsets + [|Data(cells + [c])|] else offsets, cells + [c])
  {
    hide Data, Present;
    DataSnoc(cells, c);
    var more := cells + [c];
    var offsets' := if c.Some? then offsets + [|Data(more)|] else offsets;
    forall i | 0 <= i < |more| && more[i].Some? ensures OffsetOfRow(offsets', more, i) {
      if i < |cells| {
        assert more[..i] == cells[..i] && more[..i + 1] == cells[..i + 1];
        assert OffsetOfRow(offsets, cells, i);
      } else {
        assert more[..i] == cells && more[..i + 1] == more;
      }
    }
  }

  method SavePage(numRows: nat, data: Bytes, offsets: seq<nat>, bitmap: seq<Byte>, ghost cells: seq<Cell>)
    returns (page: Page)
    requires Room(cells) && cells != []
    requires numRows == |cells| && data == Data(cells) && OffsetsMatch(offsets, cells)
    requires |bitmap| == BitmapBytes(|cells|) && BitsMatch(bitmap, cells)
    ensures ShortHolds(page, cells)
    ensures page[0] == numRows % 256 && page[1] == numRows / 256
    ensures page[2] == |offsets| % 256 && page[3] == |offsets| / 256
  {
    hide Data, Present, BitAt, Splice, U16s, WithHeader, U16At;
    var p0: seq<Byte> := NewPage();
    U16sAt(offsets, 0);
    var o := U16s(offsets);
    var at := 4 + |o|;
    var p1 := WithHeader(p0, numRows, |offsets|);
    HeaderReads(p0, numRows, |offsets|);
    var p2 := Splice(p1, 4, o);
    SpliceKeepsHeader(p1, 4, o);
    SpliceIs(p1, 4, o);
    var p3 := Splice(p2, at, data);
    SpliceKeepsHeader(p2, at, data);
    SpliceIs(p2, at, data);
    var end := PAGE_SIZE - |bitmap|;
    var p4 := Splice(p3, end, bitmap);
    SpliceKeepsHeader(p3, end, bitmap);
    SpliceIs(p3, end, bitmap);
    assert p4[4..at] == p3[4..at] == p2[4..at];
    assert p4[at..at + |data|] == p3[at..at + |data|];
    assert p4[end..] == p4[end..end + |bitmap|];
    forall i | 0 <= i < |cells| && cells[i].Some? ensures EndOffset(p4, cells, i) {
      StoredOffset(p4, offsets, cells, i);
    }
    page := p4;
    WordIsTwoBytes(page, 0, numRows);
    WordIsTwoBytes(page, 2, |offsets|);
  }

  lemma StoredOffset(page: seq<Byte>, offsets: seq<nat>, cells: seq<Cell>, i: nat)
    requires |page| == PAGE_SIZE && Room(cells) && OffsetsMatch(offsets, cells) && i < |cells| && cells[i].Some?
    requires page[4..4 + 2 * |offsets|] == U16s(offsets)
    ensures EndOffset(page, cells, i)
  {
    hide Data, Present, U16s;
    assert OffsetOfRow(offsets, cells, i);
    var k := Present(cells[..i]);
    U16sAt(offsets, k);
    SubSlice(page, 4, 4 + 2 * |offsets|, 2 * k, 2 * k + 2);
    U16Reads(page, 4 + 2 * k, offsets[k]);
  }

  // A piece of a long string written over a page.
  method SavePiece(p0: Page, mark: nat, piece: Bytes) returns (page: Page)
    requires mark < 0x1_0000 && |piece| <= PIECE
    ensures PieceHolds(page, mark, piece)
    ensures page[0] == mark % 256 && page[1] == mark / 256
  {
    hide Splice, WithHeader, U16At;
    var p1 := WithHeader(p0, mark, |piece|);
    HeaderReads(p0, mark, |piece|);
    var p2 := Splice(p1, 4, piece);
    SpliceKeepsHeader(p1, 4, piece);
    SpliceIs(p1, 4, piece);
    page := p2;
    WordIsTwoBytes(page, 0, mark);
  }

  // The pages written so far need only pages for the text from `offset` on.
  ghost predicate Written(pages: seq<Page>, text: Bytes, offset: nat)
    requires offset <= |text|
  {
    forall tail: seq<Page> :: LongHolds(tail, text[offset..], offset == 0) ==> LongHolds(pages + tail, text, true)
  }

  lemma WritingStarts(text: Bytes)
    ensures Written([], text, 0)
  {
    assert text[0..] == text;
    assert forall tail: seq<Page> :: [] + tail == tail;
  }

  lemma OnePieceMore(page: Page, tail: seq<Page>, rest: Bytes, first: bool)
    requires rest != [] && PieceHolds(page, if first then FIRST_MARK else NEXT_MARK, Piece(rest))
    requires LongHolds(tail, rest[|Piece(rest)|..], false)
    ensures LongHolds([page] + tail, rest, first)
  {
    hide PieceHolds;
    assert ([page] + tail)[1..] == tail;
  }

  lemma PieceIsWritten(pages: seq<Page>, page: Page, text: Bytes, offset: nat, len: nat)
    requires offset < |text| && len == (if |text| - offset < PIECE then |text| - offset else PIECE)
    requires Written(pages, text, offset)
    requires PieceHolds(page, if offset == 0 then FIRST_MARK else NEXT_MARK, text[offset..offset + len])
    ensures Written(pages + [page], text, offset + len)
  {
    hide PieceHolds, LongHolds;
    var rest := text[offset..];
    assert Piece(rest) == text[offset..offset + len];
    assert rest[len..] == text[offset + len..];
    forall tail: seq<Page> | LongHolds(tail, text[offset + len..], false) ensures LongHolds(pages + [page] + tail, text, true) {
      OnePieceMore(page, tail, rest, offset == 0);
      assert pages + ([page] + tail) == pages + [page] + tail;
    }
  }

  lemma WritingEnds(pages: seq<Page>, text: Bytes)
    requires text != [] && Written(pages, text, |text|)
    ensures LongHolds(pages, text, true)
  {
    assert LongHolds([], text[|text|..], false);
    assert pages + [] == pages;
  }

  method SaveLongString(text: Bytes) returns (pages: seq<Page>)
    requires text != []
    ensures LongHolds(pages, text, true)
  {
    hide PieceHolds, Written;
    pages := [];
    var offset := 0;
    var firstPage := true;
    WritingStarts(text);
    while offset < |text|
      invariant 0 <= offset <= |text| && firstPage == (offset == 0)
      invariant Written(pages, text, offset)
    {
      var pageDataLen := if |text| - offset < PIECE then |text| - offset else PIECE;
      var p0 := NewPage();
      var page := SavePiece(p0, if firstPage then FIRST_MARK else NEXT_MARK, text[offset..offset + pageDataLen]);
      PieceIsWritten(pages, page, text, offset, pageDataLen);
      pages := pages + [page];
      firstPage := false;
      offset := offset + pageDataLen;
    }
    WritingEnds(pages, text);
  }

  // The state of the writer between rows.
  ghost predicate Drafted(d: Draft, runs: seq<seq<Page>>, pages: seq<Page>, numRows: nat, data: Bytes,
                          offsets: seq<nat>, bitmap: seq<Byte>) {
    && Holds(runs, d.done) && Concat(runs) == pages && Room(d.cur)
    && numRows == |d.cur| && data == Data(d.cur) && OffsetsMatch(offsets, d.cur)
    && |bitmap| == BitmapBytes(|d.cur|) && BitsMatch(bitmap, d.cur)
  }

  lemma NothingDrafted()
    ensures Drafted(Draft([], []), [], [], 0, [], [], [])
  {
  }

  // Table::to_columnar for a VARCHAR column. Header words, offsets, data and bitmap never
  // overlap (Room), no page is empty, and no row count reaches a long-string mark (ShortHolds).
  method ToColumnar(values: seq<Cell>) returns (pages: seq<Page>, ghost runs: seq<seq<Page>>)
    ensures Says(pages, Close(Segments(values)))
    ensures Holds(runs, Close(Segments(values))) && Concat(runs) == pages
  {
    hide Data, Present, BitAt, Segments, Concat, Holds, OffsetsMatch, Drafted;
    pages, runs := [], [];
    var numRows := 0;
    var data: Bytes, offsets: seq<nat>, bitmap: seq<Byte> := [], [], [];
    NothingDrafted();
    SegmentsOfNothing(values);
    for i := 0 to |values|
      invariant Drafted(Segments(values[..i]), runs, pages, numRows, data, offsets, bitmap)
    {
      ghost var d := Segments(values[..i]);
      var v := values[i];
      assert values[..i + 1] == values[..i] + [v];
      SegmentsUnfold(values[..i], v);
      if v.Some? && |v.value| > LONGEST {
        if numRows > 0 {
          pages, runs := Flush(d, runs, pages, numRows, data, offsets, bitmap);
        } else {
          NothingToFlush(d, runs, pages, numRows, data, offsets, bitmap);
        }
        var more := SaveLongString(v.value);
        LongIsAppended(d, runs, pages, numRows, data, offsets, bitmap, more, v.value);
        pages, runs := pages + more, runs + [more];
        numRows, data, offsets, bitmap := 0, [], [], [];
      } else {
        RoomCheck(d, runs, pages, numRows, data, offsets, bitmap, v);
        if 4 + (2 * |offsets| + if v.Some? then 2 else 0) + (|data| + |BytesOf(v)|) + (numRows / 8 + 1) > PAGE_SIZE {
          pages, runs := Flush(d, runs, pages, numRows, data, offsets, bitmap);
          numRows, data, offsets, bitmap := 0, [], [], [];
          ShortCellHasRoom(v);
          assert [] + [v] == [v];
          d := Draft(d.done + [Short(d.cur)], []);
        }
        var bitmap' := PutBitmap(bitmap, numRows, v.Some?);
        RowIsAdded(d, runs, pages, numRows, data, offsets, bitmap, bitmap', v);
        bitmap := bitmap';
        data := data + BytesOf(v);
        if v.Some? {
          offsets := offsets + [|data|];
        }
        numRows := numRows + 1;
      }
    }
    assert values[..|values|] == values;
    if numRows != 0 {
      pages, runs := Flush(Segments(values), runs, pages, numRows, data, offsets, bitmap);
    } else {
      NothingToFlush(Segments(values), runs, pages, numRows, data, offsets, bitmap);
    }
  }

  lemma SegmentsOfNothing(values: seq<Cell>)
    ensures Segments(values[..0]) == Draft([], [])
  {
  }

  lemma NothingToFlush(d: Draft, runs: seq<seq<Page>>, pages: seq<Page>, numRows: nat, data: Bytes,
                       offsets: seq<nat>, bitmap: seq<Byte>)
    requires Drafted(d, runs, pages, numRows, data, offsets, bitmap) && numRows == 0
    ensures Holds(runs, Close(d)) && Concat(runs) == pages
  {
  }

  lemma PageIsFlushed(d: Draft, runs: seq<seq<Page>>, pages: seq<Page>, numRows: nat, data: Bytes, offsets: seq<nat>,
                      bitmap: seq<Byte>, page: Page)
    requires Drafted(d, runs, pages, numRows, data, offsets, bitmap) && numRows > 0 && ShortHolds(page, d.cur)
    ensures Holds(runs + [[page]], Close(d)) && Concat(runs + [[page]]) == pages + [page]
    ensures Drafted(Draft(d.done + [Short(d.cur)], []), runs + [[page]], pages + [page], 0, [], [], [])
  {
    hide Data, Present, BitAt, Concat, OffsetsMatch, ShortHolds;
    ConcatSnoc(runs, [page]);
    NothingDrafted();
  }

  // save_page: the current rows become a page.
  method Flush(ghost d: Draft, ghost runs: seq<seq<Page>>, pages: seq<Page>, numRows: nat, data: Bytes,
               offsets: seq<nat>, bitmap: seq<Byte>)
    returns (pages': seq<Page>, ghost runs': seq<seq<Page>>)
    requires Drafted(d, runs, pages, numRows, data, offsets, bitmap) && numRows > 0
    ensures |pages'| == |pages| + 1 && pages'[..|pages|] == pages
    ensures Holds(runs', Close(d)) && Concat(runs') == pages'
    ensures Drafted(Draft(d.done + [Short(d.cur)], []), runs', pages', 0, [], [], [])
  {
    hide Data, Present, BitAt, Concat, OffsetsMatch, ShortHolds;
    var page := SavePage(numRows, data, offsets, bitmap, d.cur);
    PageIsFlushed(d, runs, pages, numRows, data, offsets, bitmap, page);
    pages', runs' := pages + [page], runs + [[page]];
  }

  lemma LongIsAppended(d: Draft, runs: seq<seq<Page>>, pages: seq<Page>, numRows: nat, data: Bytes,
                       offsets: seq<nat>, bitmap: seq<Byte>,
                       more: seq<Page>, text: Bytes)
    requires Holds(runs, Close(d)) && Concat(runs) == pages && LongHolds(more, text, true) && |text| > LONGEST
    ensures Drafted(Draft(Close(d) + [Long(text)], []), runs + [more], pages + more, 0, [], [], [])
  {
    hide Data, Present, Concat, LongHolds, ShortHolds;
    ConcatSnoc(runs, more);
    NothingDrafted();
  }

  // The room check of the code is Room for the page with the new row, and a page that is out
  // of room is not empty.
  lemma RoomCheck(d: Draft, runs: seq<seq<Page>>, pages: seq<Page>, numRows: nat, data: Bytes, offsets: seq<nat>,
                  bitmap: seq<Byte>, v: Cell)
    requires Drafted(d, runs, pages, numRows, data, offsets, bitmap) && !IsLong(v)
    ensures 4 + (2 * |offsets| + if v.Some? then 2 else 0) + (|data| + |BytesOf(v)|) + (numRows / 8 + 1) <= PAGE_SIZE
            <==> Room(d.cur + [v])
    ensures !Room(d.cur + [v]) ==> numRows > 0
  {
    hide Data, Present, BitAt, Concat, ShortHolds, Holds;
    DataSnoc(d.cur, v);
    ShortCellHasRoom(v);
    if d.cur == [] {
      assert d.cur + [v] == [v];
    }
  }

  lemma RowIsAdded(d: Draft, runs: seq<seq<Page>>, pages: seq<Page>, numRows: nat, data: Bytes, offsets: seq<nat>,
                   bitmap: seq<Byte>, bitmap': seq<Byte>, v: Cell)
    requires Drafted(d, runs, pages, numRows, data, offsets, bitmap) && Room(d.cur + [v])
    requires |bitmap'| == if |bitmap| < numRows / 8 + 1 then numRows / 8 + 1 else |bitmap|
    requires forall i :: 0 <= i / 8 < |bitmap| && 0 <= i && i != numRows ==> BitAt(bitmap', i) == BitAt(bitmap, i)
    requires BitAt(bitmap', numRows) == v.Some?
    ensures var data' := data + BytesOf(v);
            var offsets' := if v.Some? then offsets + [|data'|] else offsets;
            Drafted(d.(cur := d.cur + [v]), runs, pages, numRows + 1, data', offsets', bitmap')
  {
    hide Data, Present, BitOf, Concat, ShortHolds, Holds, OffsetsMatch;
    DataSnoc(d.cur, v);
    OffsetsGrow(offsets, d.cur, v);
  }

  // ---- the reader ----

  // from_columnar's loop over the rows of a page of short strings.
  method ReadShort(page: Page, firstRow: nat, results: seq<Cell>, ghost rows: seq<Cell>, ghost cells: seq<Cell>)
    returns (ok: bool, rowIdx: nat, after: seq<Cell>)
    requires ShortHolds(page, cells)
    requires firstRow + |cells| <= |rows| && forall i :: 0 <= i < |cells| ==> rows[firstRow + i] == cells[i]
    requires ReadUpTo(results, rows, firstRow) && forall r :: |results| <= r < firstRow ==> rows[r].None?
    ensures ok ==> rowIdx == firstRow + |cells| && |after| == |results| && ReadUpTo(after, rows, rowIdx)
    ensures ok ==> forall r :: |results| <= r < rowIdx ==> rows[r].None?
    ensures !ok ==> exists r :: |results| <= r < |rows| && rows[r].Some?
  {
    hide Data, Present, BitOf, ReadUpTo;
    var numRows := U16At(page, 0);
    var numNonNull := U16At(page, 2);
    var dataBegin := 4 + numNonNull * 2;
    var bitmap := page[PAGE_SIZE - BitmapBytes(numRows)..];
    var dataIdx := 0;
    var begin := 0;
    rowIdx, after := firstRow, results;
    DataUnfold(cells[..0]);
    for i := 0 to numRows
      invariant rowIdx == firstRow + i && |after| == |results|
      invariant dataIdx == Present(cells[..i]) && begin == |Data(cells[..i])|
      invariant ReadUpTo(after, rows, rowIdx)
      invariant forall r :: |results| <= r < rowIdx ==> rows[r].None?
    {
      StringOfRow(page, cells, i);
      RowIsRead(after, rows, rowIdx);
      if BitAt(bitmap, i) {
        var offset := U16At(page, 4 + 2 * dataIdx);
        dataIdx := dataIdx + 1;
        var value := page[dataBegin + begin..dataBegin + offset];
        begin := offset;
        if rowIdx >= |after| {
          return false, rowIdx, after;
        }
        after := after[rowIdx := Some(value)];
      }
      rowIdx := rowIdx + 1;
    }
    ok := true;
  }

  // Row i's string lies between the end offset before it and its own.
  lemma StringOfRow(page: Page, cells: seq<Cell>, i: nat)
    requires ShortHolds(page, cells) && i < |cells|
    ensures var from, to := |Data(cells[..i])|, |Data(cells[..i + 1])|;
            var base := 4 + 2 * Present(cells);
            && from <= to && base + to <= PAGE_SIZE
            && Present(cells[..i + 1]) == Present(cells[..i]) + (if cells[i].Some? then 1 else 0) <= Present(cells)
            && (cells[i].Some? ==>
                  page[base + from..base + to] == cells[i].value && U16At(page, 4 + 2 * Present(cells[..i])) == to)
            && (cells[i].None? ==> from == to)
  {
    hide Data, Present, BitAt, BitsMatch, U16At;
    DataAt(cells, i);
    assert cells[..i + 1] == cells[..i] + [cells[i]];
    DataSnoc(cells[..i], cells[i]);
    assert cells == cells[..i + 1] + cells[i + 1..];
    DataConcat(cells[..i + 1], cells[i + 1..]);
    if cells[i].Some? {
      assert EndOffset(page, cells, i);
      var base := 4 + 2 * Present(cells);
      var from, to := |Data(cells[..i])|, |Data(cells[..i + 1])|;
      SubSlice(page, base, base + |Data(cells)|, from, to);
    }
  }

  // Where the reader is: the pages of segments[s..] are to come, and before them the pages of
  // what is left (`text`) of the long string in row rowIdx - 1.
  ghost predicate Reading(rest: seq<Page>, tail: seq<Page>, runs: seq<seq<Page>>, segments: seq<Segment>, s: nat,
                          text: Bytes, rowIdx: nat) {
    && s <= |segments| == |runs| && rest == tail + Concat(runs[s..]) && LongHolds(tail, text, false)
    && rowIdx == |Concat(Map(segments[..s], RowsOf))|
  }

  // The results so far: rows before rowIdx, the last of them without its missing `text`.
  ghost predicate Partial(results: seq<Cell>, rows: seq<Cell>, rowIdx: nat, text: Bytes) {
    && rowIdx <= |rows|
    && (forall r :: 0 <= r < |results| && !(text != [] && r == rowIdx - 1) ==> results[r] == if r < rowIdx then rows[r] else None)
    && (forall r :: |results| <= r < rowIdx ==> rows[r].None?)
    && (text != [] ==>
          && 0 < rowIdx <= |results| && rows[rowIdx - 1].Some? && results[rowIdx - 1].Some?
          && results[rowIdx - 1].value + text == rows[rowIdx - 1].value)
  }

  lemma NothingRead(runs: seq<seq<Page>>, segments: seq<Segment>)
    requires Holds(runs, segments)
    ensures Reading(Concat(runs), [], runs, segments, 0, [], 0) && |runs| == |segments|
  {
    assert runs[0..] == runs;
  }

  // The next page while a long string is open.
  lemma NextPiece(rest: seq<Page>, tail: seq<Page>, runs: seq<seq<Page>>, segments: seq<Segment>, s: nat,
                  text: Bytes, rowIdx: nat)
    requires Reading(rest, tail, runs, segments, s, text, rowIdx) && text != []
    ensures tail != [] && rest != [] && PieceHolds(rest[0], NEXT_MARK, Piece(text)) && U16At(rest[0], 0) == NEXT_MARK
    ensures Reading(rest[1..], tail[1..], runs, segments, s, text[|Piece(text)|..], rowIdx)
  {
    hide Concat, Map;
    assert rest[1..] == tail[1..] + Concat(runs[s..]);
  }

  // The next page when none is: it begins a segment.
  lemma NextSegment(rest: seq<Page>, tail: seq<Page>, runs: seq<seq<Page>>, segments: seq<Segment>, s: nat, rowIdx: nat)
    requires Reading(rest, tail, runs, segments, s, [], rowIdx) && Holds(runs, segments) && rest != []
    ensures s < |segments| && runs[s] != []
    ensures |Concat(Map(segments[..s + 1], RowsOf))| == rowIdx + |RowsOf(segments[s])| <= |Concat(Map(segments, RowsOf))|
    ensures forall i :: 0 <= i < |RowsOf(segments[s])| ==>
              Concat(Map(segments, RowsOf))[rowIdx + i] == RowsOf(segments[s])[i]
    ensures segments[s].Short? ==>
              && ShortHolds(rest[0], segments[s].rows) && U16At(rest[0], 0) <= 65504
              && Reading(rest[1..], [], runs, segments, s + 1, [], rowIdx + |segments[s].rows|)
    ensures segments[s].Long? ==>
              && PieceHolds(rest[0], FIRST_MARK, Piece(segments[s].text)) && U16At(rest[0], 0) == FIRST_MARK
              && var left := segments[s].text[|Piece(segments[s].text)|..];
                 Reading(rest[1..], runs[s][1..], runs, segments, s + 1, left, rowIdx + 1)
  {
    hide Concat, Map, Data, Present, BitAt, BitsMatch, U16At;
    assert tail == [];
    ConcatUnfold(runs[s..]);
    assert runs[s..][1..] == runs[s + 1..];
    assert rest[1..] == runs[s][1..] + Concat(runs[s + 1..]);
    assert Map(segments, RowsOf)[..s] == Map(segments[..s], RowsOf);
    assert Map(segments, RowsOf)[..s + 1] == Map(segments[..s + 1], RowsOf);
    ConcatAt(Map(segments, RowsOf), s);
  }

  lemma AllRead(tail: seq<Page>, runs: seq<seq<Page>>, segments: seq<Segment>, s: nat, text: Bytes, rowIdx: nat)
    requires Reading([], tail, runs, segments, s, text, rowIdx) && Holds(runs, segments)
    ensures text == [] && s == |segments| && rowIdx == |Concat(Map(segments, RowsOf))|
  {
    hide Map;
    ConcatUnfold(runs[s..]);
    assert s < |segments| ==> SegmentHolds(runs[s], segments[s]);
    assert segments[..|segments|] == segments;
  }

  lemma ReadUpToIsPartial(results: seq<Cell>, rows: seq<Cell>, rowIdx: nat)
    ensures Partial(results, rows, rowIdx, []) <==>
            rowIdx <= |rows| && ReadUpTo(results, rows, rowIdx) && forall r :: |results| <= r < rowIdx ==> rows[r].None?
  {
  }

  method StorePiece(page: Page, results: seq<Cell>, rowIdx: nat, ghost rows: seq<Cell>, ghost whole: Bytes)
    returns (after: seq<Cell>)
    requires Partial(results, rows, rowIdx, []) && rowIdx < |rows| && rows[rowIdx] == Some(whole) && rowIdx < |results|
    requires PieceHolds(page, FIRST_MARK, Piece(whole))
    ensures |after| == |results| && Partial(after, rows, rowIdx + 1, whole[|Piece(whole)|..])
  {
    var numChars := U16At(page, 2);
    assert Piece(whole) + whole[|Piece(whole)|..] == whole;
    after := results[rowIdx := Some(page[4..4 + numChars])];
  }

  method AppendPiece(page: Page, results: seq<Cell>, rowIdx: nat, ghost rows: seq<Cell>, ghost text: Bytes)
    returns (after: seq<Cell>)
    requires Partial(results, rows, rowIdx, text) && text != [] && PieceHolds(page, NEXT_MARK, Piece(text))
    ensures |after| == |results| && Partial(after, rows, rowIdx, text[|Piece(text)|..])
  {
    var numChars := U16At(page, 2);
    var was := results[rowIdx - 1].value;
    assert was + Piece(text) + text[|Piece(text)|..] == was + text;
    after := results[rowIdx - 1 := Some(was + page[4..4 + numChars])];
  }

  // Table::from_columnar for a VARCHAR column. ok is false where it throws: a row beyond the
  // table, or a 0xFFFE page that follows no string.
  method FromColumnar(pages: seq<Page>, numRows: nat, ghost runs: seq<seq<Page>>, ghost segments: seq<Segment>)
    returns (ok: bool, results: seq<Cell>)
    requires Holds(runs, segments) && Concat(runs) == pages
    ensures var rows := Concat(Map(segments, RowsOf));
            && (ok <==> forall r :: numRows <= r < |rows| ==> rows[r].None?)
            && (ok ==> |results| == numRows && ReadUpTo(results, rows, |rows|))
  {
    hide Concat, Map, Data, Present, BitAt, SegmentHolds, ShortHolds, Reading, PieceHolds;
    results := seq(numRows, _ => None);
    var rowIdx: nat := 0;
    ghost var rows := Concat(Map(segments, RowsOf));
    ghost var s: nat := 0;
    ghost var text: Bytes := [];
    ghost var tail: seq<Page> := [];
    NothingRead(runs, segments);
    assert pages[0..] == pages;
    for p := 0 to |pages|
      invariant |results| == numRows
      invariant Reading(pages[p..], tail, runs, segments, s, text, rowIdx)
      invariant Partial(results, rows, rowIdx, text)
    {
      assert pages[p..][1..] == pages[p + 1..];
      var page := pages[p];
      if text != [] {
        NextPiece(pages[p..], tail, runs, segments, s, text, rowIdx);
      } else {
        NextSegment(pages[p..], tail, runs, segments, s, rowIdx);
      }
      var header := U16At(page, 0);
      if header == FIRST_MARK {
        ghost var whole := segments[s].text;
        if rowIdx >= |results| {
          assert rows[rowIdx] == RowsOf(segments[s])[0];
          return false, results;
        }
        assert rows[rowIdx] == RowsOf(segments[s])[0];
        results := StorePiece(page, results, rowIdx, rows, whole);
        rowIdx := rowIdx + 1;
        tail, text, s := runs[s][1..], whole[|Piece(whole)|..], s + 1;
      } else if header == NEXT_MARK {
        if results[rowIdx - 1].None? {
          return false, results;
        }
        results := AppendPiece(page, results, rowIdx, rows, text);
        tail, text := tail[1..], text[|Piece(text)|..];
      } else {
        ReadUpToIsPartial(results, rows, rowIdx);
        assert forall i :: 0 <= i < |segments[s].rows| ==> rows[rowIdx + i] == RowsOf(segments[s])[i];
        ok, rowIdx, results := ReadShort(page, rowIdx, results, rows, segments[s].rows);
        if !ok {
          return;
        }
        ReadUpToIsPartial(results, rows, rowIdx);
        tail, s := [], s + 1;
      }
    }
    AllRead(tail, runs, segments, s, text, rowIdx);
    ReadUpToIsPartial(results, rows, rowIdx);
    ok := true;
  }

  // Every VARCHAR column is read back as it was written: nulls, empty strings and strings of
  // any length, next to each other in any order.
  method RoundTrip(values: seq<Cell>) returns (pages: seq<Page>, results: seq<Cell>)
    ensures results == values
  {
    hide Concat, Map, Segments, Close, Holds;
    ghost var runs;
    pages, runs := ToColumnar(values);
    ClosedSegmentsKeepRows(values);
    var ok;
    ok, results := FromColumnar(pages, |values|, runs, Close(Segments(values)));
  }
}
