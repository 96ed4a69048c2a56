// The pages of src/build_table.cpp byte by byte, in numbers: which bytes the writers leave on a
// page and the readers find there, and when a row begins a new page.
module PageBytes {
  import opened Options
  import opened Bags
  import opened PageFormat
  import opened FixedPages
  import opened VarcharPages

  // The rows before i that are not null.
  ghost function Somes(cells: seq<Cell>, i: nat): set<int>
    requires i <= |cells|
  {
    set k | 0 <= k < i && cells[k].Some?
  }

  lemma OneMore(cells: seq<Cell>, i: nat)
    requires i < |cells|
    ensures |Somes(cells, i + 1)| == |Somes(cells, i)| + if cells[i].Some? then 1 else 0
    ensures |Somes(cells, 0)| == 0
  {
    assert Somes(cells, 0) == {};
    assert Somes(cells, i + 1) == Somes(cells, i) + if cells[i].Some? then {i} else {};
  }

  lemma {:induction false} PresentIsSomes(cells: seq<Cell>, i: nat)
    requires i <= |cells|
    ensures Present(cells[..i]) == |Somes(cells, i)|
  {
    hide Present, Data;
    DataUnfold(cells[..0]);
    if i == 0 {
      assert Somes(cells, i) == {};
    } else {
      hide Somes;
      PresentIsSomes(cells, i - 1);
      assert cells[..i] == cells[..i - 1] + [cells[i - 1]];
      DataSnoc(cells[..i - 1], cells[i - 1]);
      OneMore(cells, i - 1);
    }
  }

  lemma CountOfPresent(cells: seq<Cell>, i: nat)
    requires i <= |cells|
    ensures Present(cells[..i]) == |set k | 0 <= k < i && cells[k].Some?|
  {
    hide Present;
    PresentIsSomes(cells, i);
  }

  lemma {:induction false} DataIsPresent(w: nat, cells: seq<Cell>)
    requires CellsOk(w, cells)
    ensures |Data(cells)| == w * Present(cells)
  {
    if cells != [] {
      DataIsPresent(w, cells[1..]);
    }
  }

  // ---- fixed-width pages ----

  // The number of rows and of values, in two bytes each, the lower first.
  lemma FixedHeader(page: Page, w: nat, cells: seq<Cell>)
    requires PageHolds(page, w, cells)
    ensures page[0] == |cells| % 256 && page[1] == |cells| / 256
    ensures var n := |set k | 0 <= k < |cells| && cells[k].Some?|; page[2] == n % 256 && page[3] == n / 256
  {
    hide U16At, Data, Present, BitsMatch;
    CountOfPresent(cells, |cells|);
    assert cells[..|cells|] == cells;
    WordIsTwoBytes(page, 0, |cells|);
    WordIsTwoBytes(page, 2, Present(cells));
  }

  // At the end of a page there is one bit for each row, the lowest of a byte first.
  lemma BitOfRow(page: Page, cells: seq<Cell>, i: nat)
    requires BitmapBytes(|cells|) <= PAGE_SIZE && BitsMatch(page[PAGE_SIZE - BitmapBytes(|cells|)..], cells) && i < |cells|
    ensures var at := 8192 - (|cells| + 7) / 8 + i / 8;
            0 <= at < 8192 && (page[at] / [1, 2, 4, 8, 16, 32, 64, 128][i % 8] % 2 == 1 <==> cells[i].Some?)
  {
    hide BitOf;
    var bitmap := page[PAGE_SIZE - BitmapBytes(|cells|)..];
    BitsOfByte(bitmap[i / 8], i % 8);
    assert BitAt(bitmap, i) == cells[i].Some?;
  }

  // The bits, and from byte w on the values of the rows that are not null.
  lemma FixedRow(page: Page, w: nat, cells: seq<Cell>, i: nat)
    requires PageHolds(page, w, cells) && CellsOk(w, cells) && i < |cells|
    ensures var at := 8192 - (|cells| + 7) / 8 + i / 8;
            0 <= at < 8192 && (page[at] / [1, 2, 4, 8, 16, 32, 64, 128][i % 8] % 2 == 1 <==> cells[i].Some?)
    ensures cells[i].Some? ==>
              var at := w + w * |set k | 0 <= k < i && cells[k].Some?|; at + w <= 8192 && page[at..at + w] == cells[i].value
  {
    hide Data, Present, BitsMatch, U16At;
    BitOfRow(page, cells, i);
    if cells[i].Some? {
      ValueOfRow(page, w, cells, i);
    }
  }

  lemma ValueOfRow(page: Page, w: nat, cells: seq<Cell>, i: nat)
    requires PageHolds(page, w, cells) && CellsOk(w, cells) && i < |cells| && cells[i].Some?
    ensures var at := w + w * |set k | 0 <= k < i && cells[k].Some?|; at + w <= 8192 && page[at..at + w] == cells[i].value
  {
    hide PageHolds, Data, Present;
    ValueAt(page, w, cells, i);
    CountOfPresent(cells, i);
    DataIsPresent(w, cells[..i]);
  }

  // What fits a page, in bytes.
  lemma FitsInBytes(w: nat, cells: seq<Cell>)
    requires CellsOk(w, cells)
    ensures Fits(w, cells) <==> w + w * |set k | 0 <= k < |cells| && cells[k].Some?| + (|cells| + 7) / 8 <= 8192
  {
    hide Data, Present;
    DataIsPresent(w, cells);
    CountOfPresent(cells, |cells|);
    assert cells[..|cells|] == cells;
  }

  // A new page begins only with a row, a null or not, that the page before has no room for.
  ghost predicate BeginsLate(w: nat, before: seq<Cell>, chunk: seq<Cell>) {
    chunk != [] && !Fits(w, before + [chunk[0]])
  }

  ghost predicate Greedily(w: nat, chunks: seq<seq<Cell>>) {
    forall j :: 0 < j < |chunks| ==> BeginsLate(w, chunks[j - 1], chunks[j])
  }

  lemma LastChunk(w: nat, done: seq<seq<Cell>>, cur: seq<Cell>)
    ensures Greedily(w, done + [cur]) <==> Greedily(w, done) && (done != [] ==> BeginsLate(w, done[|done| - 1], cur))
  {
    hide BeginsLate;
    var all := done + [cur];
    if Greedily(w, all) {
      forall j | 0 < j < |done| ensures BeginsLate(w, done[j - 1], done[j]) {
        assert BeginsLate(w, all[j - 1], all[j]);
      }
      assert done != [] ==> BeginsLate(w, all[|done| - 1], all[|done|]);
    }
  }

  lemma FeedIsGreedy(w: nat, l: Layout, c: Cell)
    requires CellsOk(w, [c]) && Greedily(w, l.done + [l.cur]) && (l.cur == [] ==> l.done == [])
    ensures Greedily(w, Feed(w, l, c).done + [Feed(w, l, c).cur]) && Feed(w, l, c).cur != []
  {
    hide Greedily;
    OneCellFits(w, c);
    hide Data, Present, Fits;
    LastChunk(w, l.done, l.cur);
    assert l.cur == [] ==> l.cur + [c] == [c];
    if Fits(w, l.cur + [c]) {
      LastChunk(w, l.done, l.cur + [c]);
    } else {
      LastChunk(w, l.done + [l.cur], [c]);
    }
  }

  lemma {:induction false} GreedyIsGreedy(w: nat, cells: seq<Cell>)
    requires CellsOk(w, cells)
    ensures var l := Greedy(w, cells); Greedily(w, l.done + [l.cur]) && (l.cur == [] ==> l.done == [])
    decreases |cells|
  {
    hide Greedily, Feed, Fits;
    if cells == [] {
      NothingIsGreedy(w);
    } else {
      GreedyIsGreedy(w, cells[..|cells| - 1]);
      FeedIsGreedy(w, Greedy(w, cells[..|cells| - 1]), cells[|cells| - 1]);
    }
  }

  lemma NothingIsGreedy(w: nat)
    ensures Greedily(w, [] + [[]])
  {
  }

  // The chunks of a written column, which its pages hold one by one: all its rows in order,
  // each page filled until the next row, null or not, has no room on it.
  lemma ChunksAreGreedy(w: nat, values: seq<Cell>)
    requires CellsOk(w, values)
    ensures var chunks := Closed(Greedy(w, values));
            && Concat(chunks) == values
            && (forall i :: 0 <= i < |chunks| ==> chunks[i] != [] && CellsOk(w, chunks[i]) && Fits(w, chunks[i]))
            && (forall j :: 0 < j < |chunks| ==> chunks[j] != [] && !Fits(w, chunks[j - 1] + [chunks[j][0]]))
  {
    hide Greedy, Fits, Concat;
    ClosedKeepsRows(w, values);
    ClosedCellsOk(w, values);
    GreedyIsGreedy(w, values);
    var chunks := Closed(Greedy(w, values));
    forall j | 0 < j < |chunks| ensures chunks[j] != [] && !Fits(w, chunks[j - 1] + [chunks[j][0]]) {
      assert BeginsLate(w, chunks[j - 1], chunks[j]);
    }
  }

  // ---- pages of short strings ----

  // The number of rows and of strings, in two bytes each, the lower first.
  lemma ShortHeader(page: Page, cells: seq<Cell>)
    requires ShortHolds(page, cells)
    ensures page[0] == |cells| % 256 && page[1] == |cells| / 256
    ensures var n := |set k | 0 <= k < |cells| && cells[k].Some?|; page[2] == n % 256 && page[3] == n / 256
  {
    hide U16At, Data, Present, BitsMatch;
    CountOfPresent(cells, |cells|);
    assert cells[..|cells|] == cells;
    WordIsTwoBytes(page, 0, |cells|);
    WordIsTwoBytes(page, 2, Present(cells));
  }

  // The end of the strings before row i is the end offset stored last before it.
  lemma {:induction false} LastOffset(page: Page, cells: seq<Cell>, i: nat)
    requires ShortHolds(page, cells) && i <= |cells|
    ensures var k := Present(cells[..i]);
            if k == 0 then |Data(cells[..i])| == 0
            else 4 + 2 * k <= PAGE_SIZE && U16At(page, 4 + 2 * (k - 1)) == |Data(cells[..i])|
  {
    hide U16At, Data, Present, BitsMatch, Room;
    DataUnfold(cells[..0]);
    if i > 0 {
      LastOffset(page, cells, i - 1);
      assert cells[..i] == cells[..i - 1] + [cells[i - 1]];
      DataSnoc(cells[..i - 1], cells[i - 1]);
      assert cells[i - 1].Some? ==> EndOffset(page, cells, i - 1);
    }
  }

  lemma RowsBits(page: Page, cells: seq<Cell>, i: nat)
    requires ShortHolds(page, cells) && i < |cells|
    ensures var at := 8192 - (|cells| + 7) / 8 + i / 8;
            0 <= at < 8192 && (page[at] / [1, 2, 4, 8, 16, 32, 64, 128][i % 8] % 2 == 1 <==> cells[i].Some?)
  {
    hide ShortHolds;
    RoomForBits(page, cells);
    BitOfRow(page, cells, i);
  }

  // The k-th of a page's n strings ends where the k-th offset behind the header says, and
  // begins where the one before it ends, counted from behind the offsets.
  ghost predicate LiesAt(page: Page, k: nat, n: nat, text: Bytes) {
    && 4 + 2 * (k + 1) <= 8192
    && var from, to := if k == 0 then 0 else page[2 + 2 * k] as int + 256 * (page[3 + 2 * k] as int),
                       page[4 + 2 * k] as int + 256 * (page[5 + 2 * k] as int);
       from <= to && 4 + 2 * n + to <= 8192 && page[4 + 2 * n + from..4 + 2 * n + to] == text
  }

  lemma StringByCounts(page: Page, cells: seq<Cell>, i: nat, k: nat, n: nat)
    requires ShortHolds(page, cells) && i < |cells| && cells[i].Some?
    requires k == Present(cells[..i]) && n == Present(cells)
    ensures LiesAt(page, k, n, cells[i].value)
  {
    hide Data, Present, BitsMatch, Room;
    assert EndOffset(page, cells, i);
    StringOfRow(page, cells, i);
    LastOffset(page, cells, i);
  }

  lemma StringOfShortRow(page: Page, cells: seq<Cell>, i: nat)
    requires ShortHolds(page, cells) && i < |cells| && cells[i].Some?
    ensures LiesAt(page, |set k | 0 <= k < i && cells[k].Some?|, |set k | 0 <= k < |cells| && cells[k].Some?|, cells[i].value)
  {
    hide Data, Present, ShortHolds, LiesAt;
    CountOfPresent(cells, i);
    CountOfPresent(cells, |cells|);
    assert cells[..|cells|] == cells;
    StringByCounts(page, cells, i, Present(cells[..i]), Present(cells));
  }

  lemma RoomForBits(page: Page, cells: seq<Cell>)
    requires ShortHolds(page, cells)
    ensures BitmapBytes(|cells|) <= PAGE_SIZE && BitsMatch(page[PAGE_SIZE - BitmapBytes(|cells|)..], cells)
  {
  }

  // ---- pages of long strings ----

  // Page p of a long string: 255, 255 on the first and 254, 255 on the others, the number of
  // characters in two bytes, and the characters from 8188 * p on, as many as fit.
  ghost predicate IsLongPage(page: Page, text: Bytes, first: bool, p: nat) {
    var from := 8188 * p;
    var to := if |text| < from + 8188 then |text| else from + 8188;
    && from < to && page[0] == (if first then 255 else 254) && page[1] == 255
    && page[2] as int + 256 * (page[3] as int) == to - from && page[4..4 + (to - from)] == text[from..to]
  }

  lemma FirstOfLong(pages: seq<Page>, text: Bytes, first: bool)
    requires text != [] && LongHolds(pages, text, first)
    ensures pages != [] && IsLongPage(pages[0], text, first, 0)
    ensures LongHolds(pages[1..], if |text| < 8188 then [] else text[8188..], false)
  {
    assert text[0..|Piece(text)|] == Piece(text);
    assert |text| < 8188 ==> text[|Piece(text)|..] == [];
  }

  lemma NextOfLong(page: Page, text: Bytes, first: bool, p: nat)
    requires |text| >= 8188 && IsLongPage(page, text[8188..], first, p)
    ensures IsLongPage(page, text, first, p + 1)
  {
    var rest := text[8188..];
    var from := 8188 * p;
    var to := if |rest| < from + 8188 then |rest| else from + 8188;
    assert rest == text[8188..|text|];
    SubSlice(text, 8188, |text|, from, to);
  }

  lemma OnePageLess(length: nat)
    ensures (0 + 8187) / 8188 == 0
    ensures length > 0 ==> (length + 8187) / 8188 == (if length < 8188 then 0 else length - 8188 + 8187) / 8188 + 1
  {
  }

  lemma {:induction false} LongPage(pages: seq<Page>, text: Bytes, first: bool, p: nat)
    requires LongHolds(pages, text, first)
    ensures |pages| == (|text| + 8187) / 8188
    ensures p < |pages| ==> IsLongPage(pages[p], text, first && p == 0, p)
    decreases |text|
  {
    OnePageLess(|text|);
    if text != [] {
      FirstOfLong(pages, text, first);
      hide IsLongPage, LongHolds;
      var rest := if |text| < 8188 then [] else text[8188..];
      LongPage(pages[1..], rest, false, if p > 0 then p - 1 else 0);
      if 0 < p < |pages| {
        RestHasPages(|text|, |pages|);
        NextOfLong(pages[p], text, false, p - 1);
      }
    }
  }

  lemma RestHasPages(length: nat, pages: nat)
    requires pages == (length + 8187) / 8188 && pages > 1
    ensures length >= 8188
  {
  }

  // ---- when a page of strings ends ----

  lemma RoomInBytes(cells: seq<Cell>)
    ensures Room(cells) <==>
            4 + 2 * |set k | 0 <= k < |cells| && cells[k].Some?| + |Data(cells)| + (|cells| + 7) / 8 <= 8192
  {
    hide Data, Present;
    CountOfPresent(cells, |cells|);
    assert cells[..|cells|] == cells;
  }

  lemma DataLength(cells: seq<Cell>, c: Cell)
    ensures |Data([])| == 0 && |Data(cells + [c])| == |Data(cells)| + if c.Some? then |c.value| else 0
  {
    hide Data;
    DataSnoc(cells, c);
    DataUnfold([]);
  }

  // Rows share a page unless they are longer than 8185 bytes, and a page ends only before a
  // long string or a row that it has no room for.
  ghost predicate Grouped(segments: seq<Segment>) {
    && (forall i :: 0 <= i < |segments| ==>
          match segments[i]
          case Long(text) => |text| > 8185
          case Short(rows) =>
            rows != [] && Room(rows) && forall k :: 0 <= k < |rows| && rows[k].Some? ==> |rows[k].value| <= 8185)
    && (forall i, j :: 0 <= i && i + 1 == j < |segments| && segments[i].Short? && segments[j].Short? ==>
          segments[j].rows != [] && !Room(segments[i].rows + [segments[j].rows[0]]))
  }

  ghost predicate DraftGrouped(d: Draft) {
    && Grouped(d.done) && Grouped(Close(d)) && Room(d.cur) && (forall k :: 0 <= k < |d.cur| ==> !IsLong(d.cur[k]))
    && (d.done != [] && d.cur == [] ==> d.done[|d.done| - 1].Long?)
  }

  lemma GroupedMore(segments: seq<Segment>, s: Segment)
    requires Grouped(segments)
    requires match s
             case Long(text) => |text| > 8185
             case Short(rows) =>
               && rows != [] && Room(rows) && (forall k :: 0 <= k < |rows| ==> !IsLong(rows[k]))
               && (segments != [] && segments[|segments| - 1].Short? ==>
                     !Room(segments[|segments| - 1].rows + [rows[0]]))
    ensures Grouped(segments + [s])
  {
    hide Room;
    var more := segments + [s];
    forall i, j | 0 <= i && i + 1 == j < |more| && more[i].Short? && more[j].Short?
      ensures more[j].rows != [] && !Room(more[i].rows + [more[j].rows[0]])
    {
      assert more[i] == segments[i] && (j < |segments| ==> more[j] == segments[j]);
    }
  }

  lemma AddIsGrouped(d: Draft, c: Cell)
    requires DraftGrouped(d)
    ensures DraftGrouped(Add(d, c))
  {
    hide Room;
    var last := if d.cur == [] then None else Some(Short(d.cur));
    if IsLong(c) {
      ShortCellHasRoom(None);
      GroupedMore(Close(d), Long(c.value));
    } else {
      ShortCellHasRoom(c);
      if Room(d.cur + [c]) {
        assert d.cur == [] ==> d.cur + [c] == [c];
        if d.cur != [] {
          assert Close(d)[|d.done|] == Short(d.cur);
          if d.done != [] && d.done[|d.done| - 1].Short? {
            assert Close(d)[|d.done| - 1] == d.done[|d.done| - 1];
            assert (d.cur + [c])[0] == d.cur[0];
          }
        }
        GroupedMore(d.done, Short(d.cur + [c]));
      } else {
        assert d.cur == [] ==> d.cur + [c] == [c];
        assert Close(d)[|d.done|] == Short(d.cur);
        assert [c][0] == c;
        GroupedMore(Close(d), Short([c]));
      }
    }
  }

  lemma {:induction false} SegmentsAreGrouped(cells: seq<Cell>)
    ensures DraftGrouped(Segments(cells))
    decreases |cells|
  {
    hide DraftGrouped, Add;
    if cells == [] {
      NothingIsGrouped();
    } else {
      SegmentsAreGrouped(cells[..|cells| - 1]);
      AddIsGrouped(Segments(cells[..|cells| - 1]), cells[|cells| - 1]);
    }
  }

  lemma NothingIsGrouped()
    ensures DraftGrouped(Draft([], []))
  {
    DataUnfold([]);
  }

  // The segments of a written column, which its pages hold one by one.
  lemma SegmentsAreGreedy(values: seq<Cell>)
    ensures var segments := Close(Segments(values));
            && Concat(Map(segments, RowsOf)) == values
            && (forall i :: 0 <= i < |segments| ==>
                  match segments[i]
                  case Long(text) => |text| > 8185
                  case Short(rows) =>
                    rows != [] && Room(rows) && forall k :: 0 <= k < |rows| && rows[k].Some? ==> |rows[k].value| <= 8185)
            && (forall i, j :: 0 <= i && i + 1 == j < |segments| && segments[i].Short? && segments[j].Short? ==>
                  segments[j].rows != [] && !Room(segments[i].rows + [segments[j].rows[0]]))
  {
    hide Segments, Close, Room, Concat, Map;
    ClosedSegmentsKeepRows(values);
    SegmentsAreGrouped(values);
  }
}
