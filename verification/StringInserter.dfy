// ColumnInserter<std::string> of include/plan.h: end offsets go straight into the last page,
// characters into a buffer that is copied behind them when the page is saved.
module StringInserter {
  import opened Options
  import opened Bags
  import opened PageFormat
  import opened FixedPages
  import opened VarcharPages
  import opened ColumnInserter

  lemma {:induction false} U16sSnoc(ns: seq<nat>, n: nat)
    requires (forall i :: 0 <= i < |ns| ==> ns[i] < 0x1_0000) && n < 0x1_0000
    ensures U16s(ns + [n]) == U16s(ns) + U16(n) && |U16s(ns)| == 2 * |ns|
  {
    if ns == [] {
      assert ns + [n] == [n];
    } else {
      U16sSnoc(ns[1..], n);
      assert (ns + [n])[1..] == ns[1..] + [n];
    }
  }

  class Inserter {
    var pages: seq<Page>
    var lastPageIdx: nat
    var numRows: nat
    var dataSize: nat
    var offsetEnd: nat
    var data: Bytes
    var bitmap: seq<Byte>
    ghost var values: seq<Cell> // what was inserted
    ghost var runs: seq<seq<Page>> // the saved pages, segment by segment
    ghost var offsets: seq<nat> // the end offsets on the last page

    ghost predicate Holding(d: Draft)
      reads this
    {
      && lastPageIdx <= |pages| <= lastPageIdx + 1 && |data| == |bitmap| == PAGE_SIZE
      && (numRows == 0 ==> lastPageIdx == |pages|) && dataSize <= PAGE_SIZE && BitmapBytes(numRows) <= PAGE_SIZE
      && Drafted(d, runs, pages[..lastPageIdx], numRows, data[..dataSize], offsets, bitmap[..BitmapBytes(numRows)])
      && offsetEnd == 4 + 2 * |offsets| && (forall k :: 0 <= k < |offsets| ==> offsets[k] < 0x1_0000)
      && (offsets != [] ==> lastPageIdx < |pages| && offsetEnd <= PAGE_SIZE && pages[lastPageIdx][4..offsetEnd] == U16s(offsets))
    }

    ghost predicate Valid()
      reads this
    {
      Holding(Segments(values))
    }

    constructor ()
      ensures Valid() && values == []
    {
      pages, lastPageIdx, numRows, dataSize, offsetEnd := [], 0, 0, 0, 4;
      data, bitmap := seq(PAGE_SIZE, _ => 0), seq(PAGE_SIZE, _ => 0);
      values, runs, offsets := [], [], [];
      new;
      NothingDrafted();
      SegmentsOfNothing([]);
    }

    method GetPage()
      requires lastPageIdx <= |pages|
      modifies this`pages
      ensures lastPageIdx < |pages| && old(pages) <= pages && pages[..lastPageIdx] == old(pages)[..lastPageIdx]
      ensures |pages| <= if old(|pages|) == lastPageIdx then lastPageIdx + 1 else old(|pages|)
    {
      if lastPageIdx == |pages| {
        var page := NewPage();
        pages := pages + [page];
      }
    }

    method SavePage(ghost d: Draft)
      requires Holding(d) && numRows > 0
      modifies this`pages, this`lastPageIdx, this`numRows, this`dataSize, this`offsetEnd, this`runs, this`offsets
      ensures Holding(Draft(d.done + [Short(d.cur)], [])) && numRows == 0 && lastPageIdx == |pages|
      ensures Holds(runs, Close(d)) && Concat(runs) == pages
    {
      hide Data, Present, BitAt, BitsMatch, Splice, Concat, Holds, ShortHolds, U16s, U16At, Close;
      var bitmapSize := BitmapBytes(numRows);
      GetPage();
      var page := SaveInto(pages[lastPageIdx], numRows, offsetEnd, data[..dataSize], bitmap[..bitmapSize], offsets, d.cur);
      PageIsFlushed(d, runs, pages[..lastPageIdx], numRows, data[..dataSize], offsets, bitmap[..bitmapSize], page);
      ghost var before := pages[..lastPageIdx];
      pages := pages[lastPageIdx := page];
      lastPageIdx := lastPageIdx + 1;
      assert pages[..lastPageIdx] == before + [page] == pages;
      runs, offsets := runs + [[page]], [];
      numRows := 0;
      dataSize := 0;
      offsetEnd := 4;
      assert data[..0] == [] && bitmap[..0] == [];
    }

    method SaveInto(p0: Page, rows: nat, end: nat, chars: Bytes, bits: seq<Byte>, ghost ends: seq<nat>,
                    ghost cells: seq<Cell>) returns (page: Page)
      requires Room(cells) && cells != [] && rows == |cells| && end == 4 + 2 * |ends| && chars == Data(cells)
      requires OffsetsMatch(ends, cells) && (ends != [] ==> p0[4..end] == U16s(ends))
      requires |bits| == BitmapBytes(|cells|) && BitsMatch(bits, cells)
      ensures ShortHolds(page, cells)
    {
      hide Data, Present, BitAt, Splice, U16s, WithHeader, U16At;
      U16sAt(ends, 0);
      var p1 := WithHeader(p0, rows, (end - 4) / 2);
      HeaderReads(p0, rows, (end - 4) / 2);
      assert p1[4..end] == p1[4..][..end - 4] == p0[4..][..end - 4] == p0[4..end];
      var p2 := Splice(p1, end, chars);
      SpliceKeepsHeader(p1, end, chars);
      SpliceIs(p1, end, chars);
      var at := PAGE_SIZE - |bits|;
      var p3 := Splice(p2, at, bits);
      SpliceKeepsHeader(p2, at, bits);
      SpliceIs(p2, at, bits);
      assert p3[4..end] == p2[4..end] == p1[4..end];
      assert p3[end..end + |chars|] == p2[end..end + |chars|];
      assert p3[at..] == p3[at..at + |bits|];
      forall i | 0 <= i < |cells| && cells[i].Some? ensures EndOffset(p3, cells, i) {
        SomeEnds(ends, cells, i);
        StoredOffset(p3, ends, cells, i);
      }
      page := p3;
    }

    static lemma SomeEnds(ends: seq<nat>, cells: seq<Cell>, i: nat)
      requires OffsetsMatch(ends, cells) && i < |cells| && cells[i].Some?
      ensures ends != []
    {
      assert OffsetOfRow(ends, cells, i);
    }

    method SaveLongString(text: Bytes) returns (ghost more: seq<Page>)
      requires text != [] && lastPageIdx <= |pages|
      modifies this`pages, this`lastPageIdx
      ensures lastPageIdx <= |pages| && LongHolds(more, text, true)
      ensures pages[..lastPageIdx] == old(pages)[..old(lastPageIdx)] + more
      ensures old(lastPageIdx) == |old(pages)| ==> lastPageIdx == |pages|
    {
      hide PieceHolds, Written, LongHolds;
      var offset := 0;
      var firstPage := true;
      more := [];
      WritingStarts(text);
      while offset < |text|
        invariant 0 <= offset <= |text| && firstPage == (offset == 0) && lastPageIdx <= |pages|
        invariant Written(more, text, offset)
        invariant pages[..lastPageIdx] == old(pages)[..old(lastPageIdx)] + more
        invariant old(lastPageIdx) == |old(pages)| ==> lastPageIdx == |pages|
      {
        GetPage();
        var pageDataLen := if |text| - offset < PIECE then |text| - offset else PIECE;
        var mark := if firstPage then FIRST_MARK else NEXT_MARK;
        var page := SavePiece(pages[lastPageIdx], mark, text[offset..offset + pageDataLen]);
        PieceIsWritten(more, page, text, offset, pageDataLen);
        ghost var before := pages[..lastPageIdx];
        pages := pages[lastPageIdx := page];
        more := more + [page];
        firstPage := false;
        offset := offset + pageDataLen;
        lastPageIdx := lastPageIdx + 1;
        assert pages[..lastPageIdx] == before + [page];
      }
      WritingEnds(more, text);
    }

    method Insert(value: Bytes)
      requires Valid()
      modifies this
      ensures Valid() && values == old(values) + [Some(value)]
    {
      hide Data, Present, BitAt, Segments, Concat, Holds, OffsetsMatch, Drafted, LongHolds;
      ghost var d := Segments(values);
      ghost var c := Some(value);
      SegmentsUnfold(values, c);
      if |value| > LONGEST {
        InsertLong(value, d);
      } else {
        InsertShort(value, d);
      }
      values := values + [c];
    }

    method InsertLong(value: Bytes, ghost d: Draft)
      requires Holding(d) && |value| > LONGEST
      modifies this`pages, this`lastPageIdx, this`numRows, this`dataSize, this`offsetEnd, this`runs, this`offsets
      ensures Holding(Add(d, Some(value)))
    {
      hide Data, Present, BitAt, Segments, Concat, Holds, OffsetsMatch, Drafted, LongHolds;
      ghost var e := d;
      if numRows > 0 {
        SavePage(d);
        e := Draft(d.done + [Short(d.cur)], []);
      } else {
        NothingToFlush(d, runs, pages[..lastPageIdx], numRows, data[..dataSize], offsets,
                       bitmap[..BitmapBytes(numRows)]);
      }
      EmptyDraft(e, runs, pages[..lastPageIdx], data[..dataSize], offsets, bitmap[..BitmapBytes(numRows)]);
      assert pages[..lastPageIdx] == pages;
      ghost var saved := pages;
      ghost var more := SaveLongString(value);
      LongIsAppended(d, runs, saved, 0, [], [], [], more, value);
      runs := runs + [more];
      assert data[..0] == [] && bitmap[..0] == [];
    }

    static lemma EmptyDraft(d: Draft, runs: seq<seq<Page>>, pages: seq<Page>, chars: Bytes, ends: seq<nat>,
                            bits: seq<Byte>)
      requires Drafted(d, runs, pages, 0, chars, ends, bits)
      ensures chars == [] && ends == [] && bits == [] && d.cur == []
    {
    }

    method InsertShort(value: Bytes, ghost d: Draft)
      requires Holding(d) && |value| <= LONGEST
      modifies this`pages, this`lastPageIdx, this`numRows, this`dataSize, this`offsetEnd, this`runs, this`offsets
      modifies this`data, this`bitmap
      ensures Holding(Add(d, Some(value)))
    {
      hide Data, Present, BitAt, Segments, Concat, Holds, OffsetsMatch, Drafted, Splice;
      ghost var c := Some(value);
      ghost var e := d;
      RoomCheck(d, runs, pages[..lastPageIdx], numRows, data[..dataSize], offsets, bitmap[..BitmapBytes(numRows)], c);
      if offsetEnd + 2 + dataSize + |value| + numRows / 8 + 1 > PAGE_SIZE {
        SavePage(d);
        e := Draft(d.done + [Short(d.cur)], []);
        ShortCellHasRoom(c);
        assert [] + [c] == [c];
        RoomCheck(e, runs, pages[..lastPageIdx], numRows, data[..dataSize], offsets, bitmap[..BitmapBytes(numRows)], c);
      }
      PutString(value, e);
    }

    // The string, its end offset and its bit go to the page being filled.
    method PutString(value: Bytes, ghost d: Draft)
      requires Holding(d) && Room(d.cur + [Some(value)])
      requires offsetEnd + 2 + dataSize + |value| + numRows / 8 + 1 <= PAGE_SIZE
      modifies this`pages, this`numRows, this`dataSize, this`offsetEnd, this`offsets, this`data, this`bitmap
      ensures Holding(d.(cur := d.cur + [Some(value)]))
    {
      hide Data, Present, BitAt, Segments, Concat, Holds, OffsetsMatch, Drafted, Splice, U16s;
      ghost var chars, bits := data[..dataSize], bitmap[..BitmapBytes(numRows)];
      PutChars(value);
      GetPage();
      PutOffset();
      var bitmap' := PutBitmap(bitmap, numRows, true);
      RowBits(bitmap, bitmap', numRows, true);
      RowIsAdded(d, runs, pages[..lastPageIdx], numRows, chars, offsets, bits, bitmap'[..BitmapBytes(numRows + 1)],
                 Some(value));
      offsets := offsets + [dataSize];
      bitmap := bitmap';
      numRows := numRows + 1;
    }

    // memcpy into the character buffer
    method PutChars(value: Bytes)
      requires dataSize + |value| <= |data|
      modifies this`data, this`dataSize
      ensures |data| == old(|data|) && dataSize == old(dataSize) + |value|
              && data[..dataSize] == old(data[..dataSize]) + value
    {
      hide Splice;
      SpliceIs(data, dataSize, value);
      ghost var chars := Splice(data, dataSize, value);
      assert chars[0..dataSize] == data[0..dataSize];
      assert chars[..dataSize + |value|] == chars[0..dataSize] + chars[dataSize..dataSize + |value|];
      data := Splice(data, dataSize, value);
      dataSize := dataSize + |value|;
    }

    // The new end offset, behind those already on the page.
    method PutOffset()
      requires lastPageIdx < |pages| && offsetEnd == 4 + 2 * |offsets| && offsetEnd + 2 <= PAGE_SIZE
               && dataSize < 0x1_0000
      requires forall k :: 0 <= k < |offsets| ==> offsets[k] < 0x1_0000
      requires offsets != [] ==> pages[lastPageIdx][4..offsetEnd] == U16s(offsets)
      modifies this`pages, this`offsetEnd
      ensures |pages| == old(|pages|) && pages[..lastPageIdx] == old(pages)[..lastPageIdx]
      ensures offsetEnd == old(offsetEnd) + 2 && pages[lastPageIdx][4..offsetEnd] == U16s(offsets + [dataSize])
    {
      hide Splice;
      ghost var page := pages[lastPageIdx];
      ghost var stored := Splice(page, offsetEnd, U16(dataSize));
      SpliceIs(page, offsetEnd, U16(dataSize));
      U16sSnoc(offsets, dataSize);
      assert offsets == [] ==> page[4..offsetEnd] == U16s(offsets);
      assert stored[4..offsetEnd + 2] == stored[4..offsetEnd] + stored[offsetEnd..offsetEnd + 2];
      pages := pages[lastPageIdx := Splice(pages[lastPageIdx], offsetEnd, U16(dataSize))];
      offsetEnd := offsetEnd + 2;
    }

    method InsertNull()
      requires Valid()
      modifies this
      ensures Valid() && values == old(values) + [None]
    {
      hide Data, Present, BitAt, Segments, Concat, Holds, OffsetsMatch, Drafted;
      ghost var d := Segments(values);
      ghost var c: Cell := None;
      SegmentsUnfold(values, c);
      RoomCheck(d, runs, pages[..lastPageIdx], numRows, data[..dataSize], offsets, bitmap[..BitmapBytes(numRows)], c);
      if offsetEnd + dataSize + numRows / 8 + 1 > PAGE_SIZE {
        SavePage(d);
        d := Draft(d.done + [Short(d.cur)], []);
        ShortCellHasRoom(c);
        assert [] + [c] == [c];
        RoomCheck(d, runs, pages[..lastPageIdx], numRows, data[..dataSize], offsets, bitmap[..BitmapBytes(numRows)], c);
      }
      PutNull(d);
      values := values + [c];
    }

    method PutNull(ghost d: Draft)
      requires Holding(d) && Room(d.cur + [None]) && offsetEnd + dataSize + numRows / 8 + 1 <= PAGE_SIZE
      modifies this`bitmap, this`numRows
      ensures Holding(d.(cur := d.cur + [None]))
    {
      hide Data, Present, BitAt, Concat, Holds, OffsetsMatch, Drafted;
      ghost var bits := bitmap[..BitmapBytes(numRows)];
      var bitmap' := PutBitmap(bitmap, numRows, false);
      RowBits(bitmap, bitmap', numRows, false);
      RowIsAdded(d, runs, pages[..lastPageIdx], numRows, data[..dataSize], offsets, bits,
                 bitmap'[..BitmapBytes(numRows + 1)], None);
      assert data[..dataSize] + [] == data[..dataSize];
      bitmap := bitmap';
      numRows := numRows + 1;
    }

    // The pages say the same as those of to_columnar for the same values.
    method Finalize()
      requires Valid()
      modifies this
      ensures values == old(values) && lastPageIdx == |pages|
      ensures Holds(runs, Close(Segments(values))) && Concat(runs) == pages
    {
      hide Data, Present, BitAt, Segments, Concat, Holds, OffsetsMatch, Drafted;
      if numRows != 0 {
        SavePage(Segments(values));
      } else {
        NothingToFlush(Segments(values), runs, pages[..lastPageIdx], numRows, data[..dataSize], offsets,
                       bitmap[..BitmapBytes(numRows)]);
        assert pages[..lastPageIdx] == pages;
      }
    }
  }
}
