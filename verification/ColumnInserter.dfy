// ColumnInserter<int32_t> of include/plan.h, which writes values straight into the last page
// and keeps one 8192-byte bitmap that it never clears.
module ColumnInserter {
  import opened Options
  import opened PageFormat
  import opened FixedPages

  lemma {:induction false} DataIsWholeValues(cells: seq<Cell>)
    requires CellsOk(4, cells)
    ensures |Data(cells)| == 4 * Present(cells)
  {
    if cells != [] {
      DataIsWholeValues(cells[1..]);
    }
  }

  // The bits in use after bit `rows` is put.
  lemma RowBits(bitmap: seq<Byte>, bitmap': seq<Byte>, rows: nat, v: bool)
    requires |bitmap| == |bitmap'| && rows / 8 < |bitmap|
    requires BitAt(bitmap', rows) == v
    requires forall i :: 0 <= i / 8 < |bitmap| && 0 <= i && i != rows ==> BitAt(bitmap', i) == BitAt(bitmap, i)
    ensures BitAt(bitmap'[..BitmapBytes(rows + 1)], rows) == v
    ensures forall i :: 0 <= i / 8 < BitmapBytes(rows) && 0 <= i && i != rows ==>
              BitAt(bitmap'[..BitmapBytes(rows + 1)], i) == BitAt(bitmap[..BitmapBytes(rows)], i)
  {
    hide BitOf;
    forall i | 0 <= i / 8 < BitmapBytes(rows) && 0 <= i && i != rows
      ensures BitAt(bitmap'[..BitmapBytes(rows + 1)], i) == BitAt(bitmap[..BitmapBytes(rows)], i)
    {
      assert BitAt(bitmap', i) == BitAt(bitmap, i);
    }
  }

  class Inserter {
    var pages: seq<Page>
    var lastPageIdx: nat
    var numRows: nat
    var dataEnd: nat
    var bitmap: seq<Byte>
    ghost var values: seq<Cell> // what was inserted

    ghost predicate Holding(l: Layout)
      reads this
    {
      && CellsOk(4, l.cur) && lastPageIdx <= |pages| <= lastPageIdx + 1
      && |bitmap| == PAGE_SIZE && BitmapBytes(numRows) <= PAGE_SIZE && 4 <= dataEnd <= PAGE_SIZE
      && (dataEnd > 4 ==> lastPageIdx < |pages|)
      && Filling(4, l, pages[..lastPageIdx], numRows, Present(l.cur), Chars(), bitmap[..BitmapBytes(numRows)])
    }

    // The values on the page being filled.
    function Chars(): Bytes
      requires 4 <= dataEnd <= PAGE_SIZE
      reads this
    {
      if lastPageIdx < |pages| then pages[lastPageIdx][4..dataEnd] else []
    }

    ghost predicate Valid()
      reads this
    {
      CellsOk(4, values) && Holding(Greedy(4, values))
    }

    constructor ()
      ensures Valid() && values == []
    {
      pages, lastPageIdx, numRows, dataEnd := [], 0, 0, 4;
      bitmap := seq(PAGE_SIZE, _ => 0);
      values := [];
      new;
      GreedyOfNothing(4, []);
      StartsFilling(4, [], []);
    }

    // Makes sure pages[lastPageIdx] exists.
    method GetPage()
      requires lastPageIdx <= |pages|
      modifies this`pages
      ensures lastPageIdx < |pages| && old(pages) <= pages && pages[..lastPageIdx] == old(pages)[..lastPageIdx]
      ensures |pages| <= if old(|pages|) == lastPageIdx then lastPageIdx + 1 else old(|pages|)
    {
      if lastPageIdx == |pages| {
        var page := NewPage();
        pages := pages + [page];
      }
    }

    method SavePage(ghost l: Layout)
      requires Holding(l) && numRows > 0
      modifies this`pages, this`lastPageIdx, this`numRows, this`dataEnd
      ensures Holding(Layout(l.done + [l.cur], [])) && numRows == 0 && lastPageIdx == |pages| && dataEnd == 4
    {
      hide Data, Present, BitAt, Splice, PageHolds, BitsMatch;
      DataIsWholeValues(l.cur);
      ValuesEnd();
      var bitmapSize := BitmapBytes(numRows);
      GetPage();
      var page := SaveInto(pages[lastPageIdx], numRows, (dataEnd - 4) / 4, bitmap[..bitmapSize], dataEnd, l.cur);
      ghost var before := pages[..lastPageIdx];
      pages := pages[lastPageIdx := page];
      lastPageIdx := lastPageIdx + 1;
      assert pages[..lastPageIdx] == before + [page] == pages;
      numRows := 0;
      dataEnd := 4;
      StartsFilling(4, pages, l.done + [l.cur]);
      assert bitmap[..0] == [];
    }

    lemma ValuesEnd()
      requires 4 <= dataEnd <= PAGE_SIZE && (dataEnd > 4 ==> lastPageIdx < |pages|)
      ensures dataEnd == 4 + |Chars()|
    {
    }

    method SaveInto(p0: Page, rows: nat, count: nat, bits: seq<Byte>, end: nat, ghost cells: seq<Cell>)
      returns (page: Page)
      requires Fits(4, cells) && rows == |cells| && count == Present(cells) && end == 4 + |Data(cells)|
      requires |bits| == BitmapBytes(|cells|) && BitsMatch(bits, cells)
      requires end > 4 ==> p0[4..end] == Data(cells)
      ensures PageHolds(page, 4, cells)
    {
      hide Data, Present, BitAt, Splice, WithHeader, U16At;
      RowsBound(4, cells);
      var p1 := WithHeader(p0, rows, count);
      HeaderReads(p0, rows, count);
      assert p1[4..end] == p1[4..][..end - 4] == p0[4..][..end - 4] == p0[4..end];
      var at := PAGE_SIZE - |bits|;
      var p2 := Splice(p1, at, bits);
      SpliceKeepsHeader(p1, at, bits);
      SpliceIs(p1, at, bits);
      assert p2[4..end] == p1[4..end];
      assert p2[at..] == p2[at..at + |bits|];
      page := p2;
    }

    method Insert(value: Bytes)
      requires Valid() && |value| == 4
      modifies this
      ensures Valid() && values == old(values) + [Some(value)]
    {
      hide Data, Present, BitAt, Greedy, Filling, Fits;
      ghost var l := Greedy(4, values);
      ghost var c := Some(value);
      GreedySnoc(4, values, c);
      FillingSizes(l);
      FitsCheck(4, l, numRows, dataEnd - 4, c);
      if dataEnd + 4 + numRows / 8 + 1 > PAGE_SIZE {
        SavePage(l);
        l := Layout(l.done + [l.cur], []);
        assert [] + [c] == [c];
        FillingSizes(l);
        FitsCheck(4, l, numRows, dataEnd - 4, c);
      }
      PutValue(value, l);
      values := values + [c];
    }

    lemma FillingSizes(l: Layout)
      requires Holding(l)
      ensures numRows == |l.cur| && dataEnd - 4 == |Data(l.cur)| && (numRows == 0 <==> l.cur == [])
    {
      hide Data, Present, BitAt;
      ValuesEnd();
    }

    // The value and its bit go to the page being filled.
    method PutValue(value: Bytes, ghost l: Layout)
      requires Holding(l) && |value| == 4 && Fits(4, l.cur + [Some(value)])
               && dataEnd + 4 + numRows / 8 + 1 <= PAGE_SIZE
      modifies this`pages, this`dataEnd, this`bitmap, this`numRows
      ensures Holding(l.(cur := l.cur + [Some(value)]))
    {
      hide Data, Present, BitAt, Filling, Fits;
      ghost var bits, chars := bitmap[..BitmapBytes(numRows)], Chars();
      ValuesEnd();
      GetPage();
      assert Chars() == chars;
      StoreValue(value);
      var bitmap' := PutBitmap(bitmap, numRows, true);
      RowBits(bitmap, bitmap', numRows, true);
      CellIsAdded(4, l, pages[..lastPageIdx], numRows, Present(l.cur), chars, bits,
                  bitmap'[..BitmapBytes(numRows + 1)], Some(value));
      DataSnoc(l.cur, Some(value));
      bitmap := bitmap';
      numRows := numRows + 1;
    }

    // *reinterpret_cast<T*>(page + data_end) = value
    method StoreValue(value: Bytes)
      requires |value| == 4 && lastPageIdx < |pages| && 4 <= dataEnd && dataEnd + 4 <= PAGE_SIZE
      modifies this`pages, this`dataEnd
      ensures |pages| == old(|pages|) && dataEnd == old(dataEnd) + 4
      ensures pages[..lastPageIdx] == old(pages)[..lastPageIdx]
      ensures pages[lastPageIdx][4..dataEnd] == old(pages)[lastPageIdx][4..old(dataEnd)] + value
    {
      hide Splice;
      ghost var page := pages[lastPageIdx];
      SpliceIs(page, dataEnd, value);
      ghost var stored := Splice(page, dataEnd, value);
      assert stored[4..dataEnd + 4] == stored[4..dataEnd] + stored[dataEnd..dataEnd + 4];
      pages := pages[lastPageIdx := Splice(pages[lastPageIdx], dataEnd, value)];
      dataEnd := dataEnd + 4;
    }

    method InsertNull()
      requires Valid()
      modifies this
      ensures Valid() && values == old(values) + [None]
    {
      hide Data, Present, BitAt, Greedy, Filling, Fits;
      ghost var l := Greedy(4, values);
      ghost var c: Cell := None;
      GreedySnoc(4, values, c);
      FillingSizes(l);
      FitsCheck(4, l, numRows, dataEnd - 4, c);
      if dataEnd + numRows / 8 + 1 > PAGE_SIZE {
        SavePage(l);
        l := Layout(l.done + [l.cur], []);
        assert [] + [c] == [c];
        FillingSizes(l);
        FitsCheck(4, l, numRows, dataEnd - 4, c);
      }
      PutNull(l);
      values := values + [c];
    }

    method PutNull(ghost l: Layout)
      requires Holding(l) && Fits(4, l.cur + [None]) && dataEnd + numRows / 8 + 1 <= PAGE_SIZE
      modifies this`bitmap, this`numRows
      ensures Holding(l.(cur := l.cur + [None]))
    {
      hide Data, Present, BitAt, Filling, Fits;
      ghost var bits := bitmap[..BitmapBytes(numRows)];
      var bitmap' := PutBitmap(bitmap, numRows, false);
      RowBits(bitmap, bitmap', numRows, false);
      CellIsAdded(4, l, pages[..lastPageIdx], numRows, Present(l.cur), Chars(), bits,
                  bitmap'[..BitmapBytes(numRows + 1)], None);
      DataSnoc(l.cur, None);
      assert Chars() + [] == Chars();
      bitmap := bitmap';
      numRows := numRows + 1;
    }

    // The pages say the same as those of to_columnar for the same values.
    method Finalize()
      requires Valid()
      modifies this
      ensures lastPageIdx <= |pages| && PagesHold(pages[..lastPageIdx], 4, Closed(Greedy(4, old(values))))
              && values == old(values)
      ensures values != [] ==> lastPageIdx == |pages|
    {
      hide Data, Present, BitAt, Greedy, PageHolds;
      GreedyKeepsRows(4, values);
      if numRows != 0 {
        SavePage(Greedy(4, values));
      }
    }
  }

  lemma GreedySnoc(w: nat, values: seq<Cell>, c: Cell)
    ensures Greedy(w, values + [c]) == Feed(w, Greedy(w, values), c)
  {
    assert (values + [c])[..|values|] == values;
  }
}
