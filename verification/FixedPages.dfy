// Fixed-width columns of Table::to_columnar and Table::from_columnar (src/build_table.cpp).
// INT32 pages have width 4, INT64 and FP64 pages width 8, and values start at byte `width`;
// a value is its bytes, so an FP64 value is just its 8 bytes.
module FixedPages {
  import opened Arith
  import opened Options
  import opened Bags
  import opened PageFormat

  type Bytes = seq<Byte>

  type Cell = Option<Bytes> // None is a null

  predicate CellsOk(w: nat, cells: seq<Cell>) {
    (w == 4 || w == 8) && forall i :: 0 <= i < |cells| && cells[i].Some? ==> |cells[i].value| == w
  }

  function BytesOf(c: Cell): Bytes {
    if c.Some? then c.value else []
  }

  // The values of a page's rows, and how many they are.
  function Data(cells: seq<Cell>): Bytes {
    if cells == [] then [] else BytesOf(cells[0]) + Data(cells[1..])
  }

  function Present(cells: seq<Cell>): (n: nat)
    ensures n <= |cells|
  {
    if cells == [] then 0 else (if cells[0].Some? then 1 else 0) + Present(cells[1..])
  }

  // Header word, values and bitmap leave each other room.
  predicate Fits(w: nat, cells: seq<Cell>) {
    w + |Data(cells)| + BitmapBytes(|cells|) <= PAGE_SIZE
  }

  // The greedy layout: rows go to the current page until one no longer fits.
  datatype Layout = Layout(done: seq<seq<Cell>>, cur: seq<Cell>)

  function Feed(w: nat, l: Layout, c: Cell): Layout {
    if Fits(w, l.cur + [c]) then l.(cur := l.cur + [c]) else Layout(l.done + [l.cur], [c])
  }

  function Greedy(w: nat, cells: seq<Cell>): Layout {
    if cells == [] then Layout([], []) else Feed(w, Greedy(w, cells[..|cells| - 1]), cells[|cells| - 1])
  }

  function Closed(l: Layout): seq<seq<Cell>> {
    if l.cur == [] then l.done else l.done + [l.cur]
  }

  // What a page says about its rows. The bytes between values and bitmap and the last bits
  // of the bitmap say nothing.
  ghost predicate PageHolds(page: Page, w: nat, cells: seq<Cell>) {
    && Fits(w, cells) && 4 <= w
    && |cells| < 0x1_0000
    && U16At(page, 0) == |cells| && U16At(page, 2) == Present(cells)
    && page[w..w + |Data(cells)|] == Data(cells)
    && BitsMatch(page[PAGE_SIZE - BitmapBytes(|cells|)..], cells)
  }

  ghost predicate BitsMatch(bitmap: seq<Byte>, cells: seq<Cell>) {
    && |bitmap| >= BitmapBytes(|cells|)
    && forall i :: 0 <= i < |cells| ==> BitAt(bitmap, i) == cells[i].Some?
  }

  lemma DataUnfold(cells: seq<Cell>)
    ensures Data(cells) == if cells == [] then [] else BytesOf(cells[0]) + Data(cells[1..])
    ensures Present(cells) == if cells == [] then 0 else (if cells[0].Some? then 1 else 0) + Present(cells[1..])
  {
  }

  lemma {:induction false} DataConcat(a: seq<Cell>, b: seq<Cell>)
    ensures Data(a + b) == Data(a) + Data(b) && Present(a + b) == Present(a) + Present(b)
  {
    hide Data, Present;
    DataUnfold(a);
    if a == [] {
      assert a + b == b;
    } else {
      var rest := a[1..];
      assert (a + b)[1..] == rest + b && (a + b)[0] == a[0];
      DataUnfold(a + b);
      DataConcat(rest, b);
      assert BytesOf(a[0]) + Data(rest) + Data(b) == BytesOf(a[0]) + (Data(rest) + Data(b));
    }
  }

  lemma DataSnoc(cells: seq<Cell>, c: Cell)
    ensures Data(cells + [c]) == Data(cells) + BytesOf(c)
    ensures Present(cells + [c]) == Present(cells) + if c.Some? then 1 else 0
  {
    hide Data, Present;
    DataConcat(cells, [c]);
    DataUnfold([c]);
    DataUnfold([c][1..]);
  }

  // Where the bytes of row i are.
  lemma DataAt(cells: seq<Cell>, i: nat)
    requires i < |cells|
    ensures Data(cells[..i + 1]) == Data(cells[..i]) + BytesOf(cells[i])
    ensures |Data(cells[..i + 1])| <= |Data(cells)|
    ensures Data(cells)[|Data(cells[..i])|..|Data(cells[..i + 1])|] == BytesOf(cells[i])
  {
    hide Data;
    assert cells[..i + 1] == cells[..i] + [cells[i]];
    DataSnoc(cells[..i], cells[i]);
    assert cells == cells[..i + 1] + cells[i + 1..];
    DataConcat(cells[..i + 1], cells[i + 1..]);
  }

  lemma ValueAt(page: Page, w: nat, cells: seq<Cell>, i: nat)
    requires PageHolds(page, w, cells) && CellsOk(w, cells) && i < |cells|
    ensures cells[i].Some? ==>
              var at := w + |Data(cells[..i])|;
              at + w <= PAGE_SIZE && page[at..at + w] == cells[i].value
  {
    hide Data, Present, BitAt;
    DataAt(cells, i);
    if cells[i].Some? {
      var at := w + |Data(cells[..i])|;
      SubSlice(page, w, w + |Data(cells)|, at - w, at);
    }
  }

  // The 16-bit row count never truncates and never reaches the long-string marks 0xFFFE, 0xFFFF.
  lemma RowsBound(w: nat, cells: seq<Cell>)
    requires Fits(w, cells) && 4 <= w
    ensures |cells| <= 65504
  {
  }

  lemma OneCellFits(w: nat, c: Cell)
    requires CellsOk(w, [c])
    ensures Fits(w, [c])
  {
    assert c == [c][0];
    DataUnfold([c]);
    DataUnfold([c][1..]);
  }

  // The pages of a layout hold its rows in order, none is empty, and each fits.
  ghost predicate LayoutOk(w: nat, l: Layout, cells: seq<Cell>) {
    && Concat(l.done) + l.cur == cells
    && (forall i :: 0 <= i < |l.done| ==> l.done[i] != [] && Fits(w, l.done[i]))
    && Fits(w, l.cur) && (l.cur == [] ==> cells == [])
  }

  lemma GreedyUnfold(w: nat, cells: seq<Cell>)
    requires cells != []
    ensures Greedy(w, cells) == Feed(w, Greedy(w, cells[..|cells| - 1]), cells[|cells| - 1])
  {
  }

  lemma GreedyOfNothing(w: nat, cells: seq<Cell>)
    ensures Greedy(w, cells[..0]) == Layout([], []) && Data([]) == [] && Present([]) == 0
  {
  }

  lemma FeedKeepsLayout(w: nat, l: Layout, cells: seq<Cell>, c: Cell)
    requires CellsOk(w, [c]) && LayoutOk(w, l, cells)
    ensures LayoutOk(w, Feed(w, l, c), cells + [c])
  {
    hide Data, Present, Concat;
    OneCellFits(w, c);
    assert l.cur == [] ==> l.cur + [c] == [c];
    if Fits(w, l.cur + [c]) {
      assert Concat(l.done) + (l.cur + [c]) == Concat(l.done) + l.cur + [c];
    } else {
      ConcatSnoc(l.done, l.cur);
    }
  }

  lemma {:induction false} GreedyKeepsRows(w: nat, cells: seq<Cell>)
    requires CellsOk(w, cells)
    ensures LayoutOk(w, Greedy(w, cells), cells)
    decreases |cells|
  {
    if cells == [] {
      ConcatUnfold(Greedy(w, cells).done);
      DataUnfold([]);
    } else {
      hide Feed, LayoutOk, Greedy, Concat, Data, Present, Fits;
      var n := |cells| - 1;
      var front := cells[..n];
      assert front + [cells[n]] == cells;
      GreedyKeepsRows(w, front);
      GreedyUnfold(w, cells);
      FeedKeepsLayout(w, Greedy(w, front), front, cells[n]);
    }
  }

  lemma ClosedKeepsRows(w: nat, cells: seq<Cell>)
    requires CellsOk(w, cells)
    ensures Concat(Closed(Greedy(w, cells))) == cells
    ensures forall i :: 0 <= i < |Closed(Greedy(w, cells))| ==>
              Closed(Greedy(w, cells))[i] != [] && Fits(w, Closed(Greedy(w, cells))[i])
  {
    hide Concat, Greedy, Fits;
    var l := Greedy(w, cells);
    GreedyKeepsRows(w, cells);
    ConcatSnoc(l.done, l.cur);
    if l.cur == [] {
      assert Concat(l.done) == Concat(l.done) + l.cur;
    }
  }

  // How many rows a page without nulls takes: 1984 of width 4, 1007 of width 8.
  function FullRows(w: nat): nat { if w == 4 then 1984 else 1007 }

  predicate NoNulls(cells: seq<Cell>) {
    forall i :: 0 <= i < |cells| ==> cells[i].Some?
  }

  lemma {:induction false} DataOfNoNulls(w: nat, cells: seq<Cell>)
    requires CellsOk(w, cells) && NoNulls(cells)
    ensures |Data(cells)| == if w == 4 then 4 * |cells| else 8 * |cells|
    ensures Present(cells) == |cells|
  {
    if cells != [] {
      DataOfNoNulls(w, cells[1..]);
    }
  }

  ghost predicate AllFull(w: nat, l: Layout) {
    && (forall i :: 0 <= i < |l.done| ==> |l.done[i]| == FullRows(w))
    && |l.cur| <= FullRows(w) && NoNulls(l.cur)
  }

  lemma FeedKeepsFull(w: nat, l: Layout, c: Cell)
    requires CellsOk(w, l.cur + [c]) && AllFull(w, l) && c.Some?
    ensures AllFull(w, Feed(w, l, c))
  {
    hide Data, Present;
    DataOfNoNulls(w, l.cur + [c]);
  }

  // Without nulls every page but the last is full.
  lemma {:induction false} FullPages(w: nat, cells: seq<Cell>)
    requires CellsOk(w, cells) && NoNulls(cells)
    ensures AllFull(w, Greedy(w, cells))
    decreases |cells|
  {
    if cells != [] {
      hide Feed, AllFull, LayoutOk, Greedy, Concat;
      var n := |cells| - 1;
      FullPages(w, cells[..n]);
      GreedyUnfold(w, cells);
      CurIsSuffix(w, cells[..n]);
      FeedKeepsFull(w, Greedy(w, cells[..n]), cells[n]);
    }
  }

  lemma CurIsSuffix(w: nat, cells: seq<Cell>)
    requires CellsOk(w, cells)
    ensures CellsOk(w, Greedy(w, cells).cur)
  {
    hide Fits, Greedy;
    var l := Greedy(w, cells);
    GreedyKeepsRows(w, cells);
    forall i | 0 <= i < |l.cur| ensures l.cur[i] == cells[|Concat(l.done)| + i] {
    }
  }

  // Everything the pages of a column say.
  ghost predicate PagesHold(pages: seq<Page>, w: nat, chunks: seq<seq<Cell>>) {
    |pages| == |chunks| && forall i :: 0 <= i < |pages| ==> PageHolds(pages[i], w, chunks[i])
  }

  // column.new_page(): what the page holds before it is written is not said.
  method NewPage() returns (page: Page)
    ensures |page| == PAGE_SIZE
  {
    page := seq(PAGE_SIZE, _ => 0);
  }

  // set_bitmap and unset_bitmap of build_table.cpp, which grow the bitmap first.
  method PutBitmap(bitmap: seq<Byte>, idx: nat, v: bool) returns (bm: seq<Byte>)
    ensures |bm| == if |bitmap| < idx / 8 + 1 then idx / 8 + 1 else |bitmap|
    ensures forall i :: 0 <= i / 8 < |bitmap| && 0 <= i && i != idx ==> BitAt(bm, i) == BitAt(bitmap, i)
    ensures BitAt(bm, idx) == v
  {
    hide BitOf, PutBit;
    bm := bitmap;
    while |bm| < idx / 8 + 1
      invariant |bitmap| <= |bm| && (|bm| == |bitmap| || |bm| <= idx / 8 + 1)
      invariant bm[..|bitmap|] == bitmap
    {
      bm := bm + [0];
    }
    var was := bm[idx / 8];
    bm := bm[idx / 8 := ByteWithBit(was, idx % 8, v)];
    forall i | 0 <= i / 8 < |bitmap| && 0 <= i && i != idx ensures BitAt(bm, i) == BitAt(bitmap, i) {
      assert bitmap[i / 8] == (if i / 8 == idx / 8 then was else bm[i / 8]);
      BitsAfterUpdate(was, idx % 8, v, i % 8);
    }
    BitsAfterUpdate(was, idx % 8, v, idx % 8);
  }

  method SavePage(w: nat, numRows: nat, count: nat, data: Bytes, bitmap: seq<Byte>, ghost cells: seq<Cell>)
    returns (page: Page)
    requires (w == 4 || w == 8) && Fits(w, cells)
    requires numRows == |cells| && data == Data(cells) && count == Present(cells)
    requires |bitmap| == BitmapBytes(|cells|) && BitsMatch(bitmap, cells)
    ensures PageHolds(page, w, cells)
    ensures page[0] == numRows % 256 && page[1] == numRows / 256 && page[2] == count % 256 && page[3] == count / 256
  {
    hide Data, Present, BitAt, Splice, WithHeader, U16At;
    RowsBound(w, cells);
    var p0: seq<Byte> := NewPage();
    var p1 := WithHeader(p0, numRows, count);
    HeaderReads(p0, numRows, count);
    var p2 := Splice(p1, w, data);
    SpliceKeepsHeader(p1, w, data);
    SpliceIs(p1, w, data);
    var at := PAGE_SIZE - |bitmap|;
    var p3 := Splice(p2, at, bitmap);
    SpliceKeepsHeader(p2, at, bitmap);
    SpliceIs(p2, at, bitmap);
    assert p3[w..w + |data|] == p2[w..w + |data|];
    assert p3[at..] == p3[at..at + |bitmap|];
    page := p3;
    WordIsTwoBytes(page, 0, numRows);
    WordIsTwoBytes(page, 2, count);
  }

  // The state of the writer between rows.
  ghost predicate Filling(w: nat, l: Layout, pages: seq<Page>, numRows: nat, count: nat, data: Bytes,
                          bitmap: seq<Byte>) {
    && PagesHold(pages, w, l.done) && Fits(w, l.cur)
    && numRows == |l.cur| && data == Data(l.cur) && count == Present(l.cur)
    && |bitmap| == BitmapBytes(|l.cur|) && BitsMatch(bitmap, l.cur)
  }

  lemma StartsFilling(w: nat, pages: seq<Page>, done: seq<seq<Cell>>)
    requires PagesHold(pages, w, done) && w <= 8
    ensures Filling(w, Layout(done, []), pages, 0, 0, [], [])
  {
  }

  // The room check of the code is Fits for the page with the new row.
  lemma FitsCheck(w: nat, l: Layout, numRows: nat, size: nat, c: Cell)
    requires CellsOk(w, [c]) && numRows == |l.cur| && size == |Data(l.cur)|
    ensures w + size + |BytesOf(c)| + (numRows / 8 + 1) <= PAGE_SIZE <==> Fits(w, l.cur + [c])
    ensures Fits(w, [c]) && |BytesOf(c)| == (if c.Some? then w else 0)
    ensures !Fits(w, l.cur + [c]) ==> numRows > 0
  {
    hide Data, Present;
    DataSnoc(l.cur, c);
    OneCellFits(w, c);
    assert c == [c][0];
    if l.cur == [] {
      assert l.cur + [c] == [c];
    }
  }

  lemma CellIsAdded(w: nat, l: Layout, pages: seq<Page>, numRows: nat, count: nat, data: Bytes, bitmap: seq<Byte>,
                    bitmap': seq<Byte>, c: Cell)
    requires Filling(w, l, pages, numRows, count, data, bitmap) && Fits(w, l.cur + [c])
    requires |bitmap'| == if |bitmap| < numRows / 8 + 1 then numRows / 8 + 1 else |bitmap|
    requires forall i :: 0 <= i / 8 < |bitmap| && 0 <= i && i != numRows ==> BitAt(bitmap', i) == BitAt(bitmap, i)
    requires BitAt(bitmap', numRows) == c.Some?
    ensures Filling(w, l.(cur := l.cur + [c]), pages, numRows + 1, count + if c.Some? then 1 else 0, data + BytesOf(c), bitmap')
  {
    hide Data, Present, BitOf, PageHolds;
    DataSnoc(l.cur, c);
  }

  // Table::to_columnar for one fixed-width column.
  method ToColumnar(w: nat, values: seq<Cell>) returns (pages: seq<Page>)
    requires CellsOk(w, values)
    ensures PagesHold(pages, w, Closed(Greedy(w, values)))
  {
    hide Data, Present, BitAt, Greedy, PageHolds, Fits, BitsMatch;
    pages := [];
    var numRows, count := 0, 0;
    var data: Bytes, bitmap: seq<Byte> := [], [];
    GreedyOfNothing(w, values);
    StartsFilling(w, [], []);
    for i := 0 to |values|
      invariant Filling(w, Greedy(w, values[..i]), pages, numRows, count, data, bitmap)
    {
      ghost var l := Greedy(w, values[..i]);
      var v := values[i];
      assert values[..i + 1][..i] == values[..i] && values[..i + 1][i] == v;
      GreedyUnfold(w, values[..i + 1]);
      FitsCheck(w, l, numRows, |data|, v);
      var size := if v.Some? then w else 0;
      if w + |data| + size + (numRows / 8 + 1) > PAGE_SIZE {
        var page := SavePage(w, numRows, count, data, bitmap, l.cur);
        pages := pages + [page];
        l := Layout(l.done + [l.cur], []);
        StartsFilling(w, pages, l.done);
        numRows, count, data, bitmap := 0, 0, [], [];
        assert [] + [v] == [v];
      }
      var bitmap' := PutBitmap(bitmap, numRows, v.Some?);
      CellIsAdded(w, l, pages, numRows, count, data, bitmap, bitmap', v);
      bitmap := bitmap';
      data := data + BytesOf(v);
      count := count + if v.Some? then 1 else 0;
      numRows := numRows + 1;
    }
    assert values[..|values|] == values;
    if numRows != 0 {
      var page := SavePage(w, numRows, count, data, bitmap, Greedy(w, values).cur);
      pages := pages + [page];
    }
  }

  ghost predicate ChunksOk(w: nat, chunks: seq<seq<Cell>>) {
    forall i :: 0 <= i < |chunks| ==> CellsOk(w, chunks[i])
  }

  lemma {:induction false} ConcatAt<T>(ss: seq<seq<T>>, p: nat)
    requires p < |ss|
    ensures |Concat(ss[..p + 1])| == |Concat(ss[..p])| + |ss[p]| <= |Concat(ss)|
    ensures forall i :: 0 <= i < |ss[p]| ==> Concat(ss)[|Concat(ss[..p])| + i] == ss[p][i]
  {
    hide Concat;
    assert ss[..p + 1] == ss[..p] + [ss[p]];
    ConcatSnoc(ss[..p], ss[p]);
    assert ss == ss[..p + 1] + ss[p + 1..];
    ConcatAppend(ss[..p + 1], ss[p + 1..]);
  }

  // Row r of the table being read, once rows before `upTo` have been read.
  ghost predicate ReadUpTo(results: seq<Cell>, rows: seq<Cell>, upTo: nat) {
    forall r :: 0 <= r < |results| ==> results[r] == if r < upTo && r < |rows| then rows[r] else None
  }

  // Table::from_columnar for one fixed-width column; ok is false where it throws "row_idx".
  method FromColumnar(pages: seq<Page>, w: nat, numRows: nat, ghost chunks: seq<seq<Cell>>)
    returns (ok: bool, results: seq<Cell>)
    requires PagesHold(pages, w, chunks) && ChunksOk(w, chunks)
    ensures ok <==> forall r :: numRows <= r < |Concat(chunks)| ==> Concat(chunks)[r].None?
    ensures ok ==> |results| == numRows && ReadUpTo(results, Concat(chunks), |Concat(chunks)|)
  {
    hide Concat, Data, Present, BitAt, PageHolds;
    results := seq(numRows, _ => None);
    ghost var rows := Concat(chunks);
    var rowIdx := 0;
    assert chunks[..0] == [];
    ConcatUnfold(chunks[..0]);
    for p := 0 to |pages|
      invariant rowIdx == |Concat(chunks[..p])| <= |rows| && |results| == numRows
      invariant ReadUpTo(results, rows, rowIdx)
      invariant forall r :: numRows <= r < rowIdx ==> rows[r].None?
    {
      ConcatAt(chunks, p);
      ok, rowIdx, results := ReadPage(pages[p], w, rowIdx, results, rows, chunks[p]);
      if !ok {
        return;
      }
    }
    assert chunks[..|pages|] == chunks;
    ok := true;
  }

  method ReadPage(page: Page, w: nat, firstRow: nat, results: seq<Cell>, ghost rows: seq<Cell>, ghost chunk: seq<Cell>)
    returns (ok: bool, rowIdx: nat, after: seq<Cell>)
    requires PageHolds(page, w, chunk) && CellsOk(w, chunk)
    requires firstRow + |chunk| <= |rows| && forall i :: 0 <= i < |chunk| ==> rows[firstRow + i] == chunk[i]
    requires ReadUpTo(results, rows, firstRow) && forall r :: |results| <= r < firstRow ==> rows[r].None?
    ensures ok ==> rowIdx == firstRow + |chunk| && |after| == |results| && ReadUpTo(after, rows, rowIdx)
    ensures ok ==> forall r :: |results| <= r < rowIdx ==> rows[r].None?
    ensures !ok ==> exists r :: |results| <= r < |rows| && rows[r].Some?
  {
    hide Data, Present, BitAt, PageHolds, ReadUpTo, CellsOk, U16At;
    HeaderOfPage(page, w, chunk);
    var numRows := U16At(page, 0);
    var bitmap := page[PAGE_SIZE - BitmapBytes(numRows)..];
    var at := w;
    rowIdx, after := firstRow, results;
    DataUnfold(chunk[..0]);
    for i := 0 to numRows
      invariant rowIdx == firstRow + i && |after| == |results|
      invariant at == w + |Data(chunk[..i])|
      invariant ReadUpTo(after, rows, rowIdx)
      invariant forall r :: |results| <= r < rowIdx ==> rows[r].None?
    {
      NextCell(page, w, chunk, i);
      RowIsRead(after, rows, rowIdx);
      if BitAt(bitmap, i) {
        var value := page[at..at + w];
        at := at + w;
        if rowIdx >= |after| {
          return false, rowIdx, after;
        }
        after := after[rowIdx := Some(value)];
      }
      rowIdx := rowIdx + 1;
    }
    ok := true;
  }

  lemma NextCell(page: Page, w: nat, chunk: seq<Cell>, i: nat)
    requires PageHolds(page, w, chunk) && CellsOk(w, chunk) && i < |chunk|
    ensures var at, to := w + |Data(chunk[..i])|, w + |Data(chunk[..i + 1])|;
            if chunk[i].Some? then to == at + w <= PAGE_SIZE && Some(page[at..at + w]) == chunk[i] else to == at
  {
    hide Data, Present, PageHolds;
    DataAt(chunk, i);
    ValueAt(page, w, chunk, i);
  }

  lemma HeaderOfPage(page: Page, w: nat, chunk: seq<Cell>)
    requires PageHolds(page, w, chunk)
    ensures U16At(page, 0) == |chunk| && BitmapBytes(|chunk|) <= PAGE_SIZE
    ensures forall i :: 0 <= i < |chunk| ==> BitAt(page[PAGE_SIZE - BitmapBytes(|chunk|)..], i) == chunk[i].Some?
  {
    hide BitAt;
  }

  lemma RowIsRead(results: seq<Cell>, rows: seq<Cell>, r: nat)
    requires ReadUpTo(results, rows, r) && r < |rows|
    ensures if rows[r].Some? && r < |results| then ReadUpTo(results[r := rows[r]], rows, r + 1)
            else ReadUpTo(results, rows, r + 1)
  {
  }

  // Every well-typed column, nulls included, is read back as it was written.
  method RoundTrip(w: nat, values: seq<Cell>) returns (pages: seq<Page>, results: seq<Cell>)
    requires CellsOk(w, values)
    ensures PagesHold(pages, w, Closed(Greedy(w, values)))
    ensures results == values
  {
    hide Concat, Greedy, PagesHold, Fits;
    pages := ToColumnar(w, values);
    ghost var chunks := Closed(Greedy(w, values));
    ClosedKeepsRows(w, values);
    ClosedCellsOk(w, values);
    var ok;
    ok, results := FromColumnar(pages, w, |values|, chunks);
  }

  lemma ClosedCellsOk(w: nat, values: seq<Cell>)
    requires CellsOk(w, values)
    ensures ChunksOk(w, Closed(Greedy(w, values)))
  {
    hide Concat, Greedy, Fits;
    ClosedKeepsRows(w, values);
    var chunks := Closed(Greedy(w, values));
    forall p | 0 <= p < |chunks| ensures CellsOk(w, chunks[p]) {
      ConcatAt(chunks, p);
      forall i | 0 <= i < |chunks[p]| && chunks[p][i].Some? ensures |chunks[p][i].value| == w {
        assert chunks[p][i] == values[|Concat(chunks[..p])| + i];
      }
    }
  }

  // get_value of src/execute.cpp on a column without nulls: page and offset by division
  // through the first page's row count.
  function ValueByPosition(pages: seq<Page>, row: nat): Bytes
    requires pages != [] && U16At(pages[0], 0) > 0
  {
    var rowsInPage := U16At(pages[0], 0);
    ValueOnPage(pages, row / rowsInPage, row % rowsInPage)
  }

  function ValueOnPage(pages: seq<Page>, page: int, offset: int): Bytes {
    var at := 4 + 4 * offset;
    if 0 <= page < |pages| && 0 <= at <= PAGE_SIZE - 4 then pages[page][at..at + 4] else []
  }

  lemma {:induction false} EqualLengths<T>(ss: seq<seq<T>>, n: nat, row: nat)
    requires n > 0 && (forall i :: 0 <= i < |ss| - 1 ==> |ss[i]| == n)
    requires row < |Concat(ss)| && (|ss| > 0 ==> |ss[|ss| - 1]| <= n)
    ensures 0 <= row / n < |ss| && row % n < |ss[row / n]| && Concat(ss)[row] == ss[row / n][row % n]
  {
    hide Concat;
    ConcatUnfold(ss);
    DivStep(row, n);
    if row >= |ss[0]| {
      ConcatUnfold(ss[1..]);
      EqualLengths(ss[1..], n, row - n);
    }
  }

  // All pages but the last have as many rows as the first, and the last not more.
  ghost predicate EquallyFilled(chunks: seq<seq<Cell>>) {
    chunks != [] ==>
      && chunks[0] != [] && |chunks[|chunks| - 1]| <= |chunks[0]|
      && forall i :: 0 <= i < |chunks| - 1 ==> |chunks[i]| == |chunks[0]|
  }

  // On equally filled pages without nulls the positional read returns what reading the pages
  // in order returns.
  lemma PositionalRead(pages: seq<Page>, chunks: seq<seq<Cell>>, row: nat)
    requires PagesHold(pages, 4, chunks) && ChunksOk(4, chunks) && NoNulls(Concat(chunks)) && EquallyFilled(chunks)
    requires row < |Concat(chunks)|
    ensures pages != [] && U16At(pages[0], 0) > 0 && Some(ValueByPosition(pages, row)) == Concat(chunks)[row]
    ensures |ValueByPosition(pages, row)| == 4
  {
    hide Concat, Data, Present, Fits, U16At;
    ConcatUnfold(chunks);
    var n := |chunks[0]|;
    assert PageHolds(pages[0], 4, chunks[0]);
    EqualLengths(chunks, n, row);
    ReadOnPage(pages, chunks, Concat(chunks), row / n, row % n, row);
  }

  // The pages of a column without nulls are equally filled when a writer has filled them.
  lemma WrittenIsEquallyFilled(w: nat, values: seq<Cell>)
    requires CellsOk(w, values) && NoNulls(values)
    ensures EquallyFilled(Closed(Greedy(w, values)))
  {
    hide Concat, Greedy, Data, Present, Fits;
    ClosedKeepsRows(w, values);
    FullPages(w, values);
  }

  lemma ReadOnPage(pages: seq<Page>, chunks: seq<seq<Cell>>, values: seq<Cell>, p: nat, i: nat, row: nat)
    requires PagesHold(pages, 4, chunks) && ChunksOk(4, chunks) && Concat(chunks) == values && NoNulls(values)
    requires p < |chunks| && i < |chunks[p]| && row < |values| && values[row] == chunks[p][i]
    ensures Some(ValueOnPage(pages, p, i)) == values[row] && |ValueOnPage(pages, p, i)| == 4
  {
    hide Concat, PageHolds;
    NoNullsBefore(chunks, values, p);
    FullPageRead(pages[p], chunks[p], i);
  }

  lemma FullPageRead(page: Page, chunk: seq<Cell>, i: nat)
    requires PageHolds(page, 4, chunk) && CellsOk(4, chunk) && NoNulls(chunk) && i < |chunk|
    ensures 4 + 4 * i + 4 <= PAGE_SIZE && Some(page[4 + 4 * i..4 + 4 * i + 4]) == chunk[i]
  {
    hide Data, Present, Fits, PageHolds, U16At;
    ValueAt(page, 4, chunk, i);
    DataOfNoNulls(4, chunk[..i]);
  }

  lemma NoNullsBefore(chunks: seq<seq<Cell>>, values: seq<Cell>, p: nat)
    requires Concat(chunks) == values && NoNulls(values) && p < |chunks|
    ensures NoNulls(chunks[p])
  {
    hide Concat;
    ConcatAt(chunks, p);
    var before := |Concat(chunks[..p])|;
    forall i | 0 <= i < |chunks[p]| ensures chunks[p][i].Some? {
      assert chunks[p][i] == values[before + i];
    }
  }
}
