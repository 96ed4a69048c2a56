// string_from_rep of include/columnar_utils.hpp: a late-materialised string read back from
// the page and offset kept for it.
module StringRefs {
  import opened Options
  import opened Bags
  import opened PageFormat
  import opened FixedPages
  import opened VarcharPages
  import opened Values

  // The reference my_copy makes for row i of segment s.
  ghost predicate RefersTo(rep: StrRep, runs: seq<seq<Page>>, segments: seq<Segment>, s: nat, i: nat) {
    && s < |segments| == |runs| && i < |RowsOf(segments[s])|
    && rep.page == |Concat(runs[..s])|
    && rep.offset == match segments[s] case Short(rows) => |Data(rows[..i])| case Long(_) => 0
  }

  // When the string comes back: no long string follows a long one, and an empty string is
  // followed by no characters, down to the bitmap.
  ghost predicate Recoverable(segments: seq<Segment>, s: nat, i: nat)
    requires s < |segments| && i < |RowsOf(segments[s])| && RowsOf(segments[s])[i].Some?
  {
    match segments[s]
    case Long(_) => s + 1 == |segments| || segments[s + 1].Short?
    case Short(rows) => rows[i].value != [] || (Data(rows[i..]) == [] && Full(rows))
  }

  predicate Full(rows: seq<Cell>) {
    4 + 2 * Present(rows) + |Data(rows)| + BitmapBytes(|rows|) == PAGE_SIZE
  }

  // All the long strings from segment s on, up to a short one.
  function LongRun(segments: seq<Segment>, s: nat): Bytes
    decreases |segments| - s
  {
    if s < |segments| && segments[s].Long? then segments[s].text + LongRun(segments, s + 1) else []
  }

  // ---- string_from_rep as a function ----

  // The pieces from page cur on, up to a page that is not marked as one of a long string.
  function LongText(pages: seq<Page>, cur: nat): Bytes
    decreases |pages| - cur
  {
    if cur >= |pages| then []
    else
      var ch, chunkLen := U16At(pages[cur], 0), U16At(pages[cur], 2);
      if (ch != FIRST_MARK && ch != NEXT_MARK) || chunkLen > PAGE_SIZE - 4 then []
      else pages[cur][4..4 + chunkLen] + LongText(pages, cur + 1)
  }

  // What lies behind the page is not said.
  function OffsetAt(p: Page, k: nat): nat {
    if 4 + 2 * k + 2 <= PAGE_SIZE then U16At(p, 4 + 2 * k) else 0
  }

  function Slice(p: Page, a: int, b: int): Bytes {
    if 0 <= a <= b <= PAGE_SIZE then p[a..b] else []
  }

  // The first end offset past the start.
  function FirstPast(p: Page, n: nat, start: nat, k: nat): nat
    decreases n - k
  {
    if k < n && OffsetAt(p, k) <= start then FirstPast(p, n, start, k + 1) else k
  }

  function ShortText(p: Page, start: nat): Bytes {
    var n := U16At(p, 2);
    if n == 0 then []
    else
      var base, k := 4 + 2 * n, FirstPast(p, n, start, 0);
      var endOff := if k >= n then PAGE_SIZE - BitmapBytes(U16At(p, 0)) - base else OffsetAt(p, k);
      Slice(p, base + start, base + endOff)
  }

  // The page a reference names, if there is one.
  predicate InRange(inputs: seq<seq<seq<Page>>>, rep: StrRep) {
    rep.table < |inputs| && rep.column < |inputs[rep.table]| && rep.page < |inputs[rep.table][rep.column]|
  }

  function RepText(inputs: seq<seq<seq<Page>>>, rep: StrRep): Bytes {
    if !InRange(inputs, rep) then []
    else
      var pages := inputs[rep.table][rep.column];
      if U16At(pages[rep.page], 0) == FIRST_MARK then LongText(pages, rep.page) else ShortText(pages[rep.page], rep.offset)
  }

  // ---- a long string ----

  lemma AtSegment(pages: seq<Page>, runs: seq<seq<Page>>, segments: seq<Segment>, s: nat)
    requires Holds(runs, segments) && Concat(runs) == pages && s < |segments|
    ensures var page := |Concat(runs[..s])|;
            && page < |pages|
            && Reading(pages[page..], [], runs, segments, s, [], |Concat(Map(segments[..s], RowsOf))|)
            && (segments[s].Short? ==> ShortHolds(pages[page], segments[s].rows) && U16At(pages[page], 0) <= 65504)
            && (segments[s].Long? ==> U16At(pages[page], 0) == FIRST_MARK)
  {
    hide Concat, Map, ShortHolds, PieceHolds;
    assert runs == runs[..s] + runs[s..];
    ConcatAppend(runs[..s], runs[s..]);
    ConcatUnfold(runs[s..]);
    var page := |Concat(runs[..s])|;
    assert pages[page..] == Concat(runs[s..]) == [] + Concat(runs[s..]);
    assert SegmentHolds(runs[s], segments[s]);
    NextSegment(pages[page..], [], runs, segments, s, |Concat(Map(segments[..s], RowsOf))|);
  }

  // The next page of a run of long strings, if the run goes on.
  lemma NextOfRun(rest: seq<Page>, tail: seq<Page>, runs: seq<seq<Page>>, segments: seq<Segment>, s: nat,
                  text: Bytes, row: nat)
    returns (piece: Bytes, tail': seq<Page>, s': nat, text': Bytes, row': nat)
    requires Reading(rest, tail, runs, segments, s, text, row) && Holds(runs, segments) && rest != []
    ensures var ch := U16At(rest[0], 0);
            if ch != FIRST_MARK && ch != NEXT_MARK then text + LongRun(segments, s) == []
            else
              && U16At(rest[0], 2) == |piece| <= PIECE && rest[0][4..4 + |piece|] == piece
              && Reading(rest[1..], tail', runs, segments, s', text', row')
              && piece + (text' + LongRun(segments, s')) == text + LongRun(segments, s)
  {
    hide Concat, Map, Reading, ShortHolds, LongHolds, U16At;
    piece, tail', s', text', row' := [], tail, s, text, row;
    if text != [] {
      NextPiece(rest, tail, runs, segments, s, text, row);
      piece, tail', s', text', row' := Piece(text), tail[1..], s, text[|Piece(text)|..], row;
      PieceMoves(text, LongRun(segments, s));
    } else {
      NextSegment(rest, tail, runs, segments, s, row);
      if segments[s].Long? {
        var whole := segments[s].text;
        piece, tail', s', text', row' := Piece(whole), runs[s][1..], s + 1, whole[|Piece(whole)|..], row + 1;
        PieceMoves(whole, LongRun(segments, s + 1));
      }
    }
  }

  lemma {:induction false} ReadOnIsRun(pages: seq<Page>, cur: nat, tail: seq<Page>, runs: seq<seq<Page>>,
                                       segments: seq<Segment>, s: nat, text: Bytes, row: nat)
    requires Holds(runs, segments) && cur <= |pages| && Reading(pages[cur..], tail, runs, segments, s, text, row)
    ensures LongText(pages, cur) == text + LongRun(segments, s)
    decreases |pages| - cur
  {
    hide Concat, Map, Reading, Holds, LongRun;
    if cur == |pages| {
      assert pages[cur..] == [];
      AllRead(tail, runs, segments, s, text, row);
      NoRunAtEnd(segments);
    } else {
      assert pages[cur..][1..] == pages[cur + 1..];
      var piece, tail', s', text', row' := NextOfRun(pages[cur..], tail, runs, segments, s, text, row);
      var ch := U16At(pages[cur], 0);
      if ch == FIRST_MARK || ch == NEXT_MARK {
        ReadOnIsRun(pages, cur + 1, tail', runs, segments, s', text', row');
      }
    }
  }

  // A long string is read together with all long strings that follow it directly.
  lemma LongTextIsRun(pages: seq<Page>, runs: seq<seq<Page>>, segments: seq<Segment>, s: nat)
    requires Holds(runs, segments) && Concat(runs) == pages && s < |segments| && segments[s].Long?
    ensures LongText(pages, |Concat(runs[..s])|) == LongRun(segments, s)
  {
    hide Concat, Map, Reading, LongRun;
    AtSegment(pages, runs, segments, s);
    ReadOnIsRun(pages, |Concat(runs[..s])|, [], runs, segments, s, [], |Concat(Map(segments[..s], RowsOf))|);
  }

  method LongString(pages: seq<Page>, pageId: nat) returns (out: Bytes)
    requires pageId <= |pages|
    ensures out == LongText(pages, pageId)
  {
    hide LongText, U16At;
    out := [];
    var cur := pageId;
    LongTextUnfold(pages, cur);
    while cur < |pages|
      invariant cur <= |pages| && out + LongText(pages, cur) == LongText(pages, pageId)
    {
      LongTextUnfold(pages, cur);
      var ch := U16At(pages[cur], 0);
      if ch != FIRST_MARK && ch != NEXT_MARK {
        break;
      }
      var chunkLen := U16At(pages[cur], 2);
      if chunkLen > PAGE_SIZE - 4 {
        break;
      }
      var more := pages[cur][4..4 + chunkLen];
      Appended(out, more, LongText(pages, cur + 1));
      out := out + more;
      cur := cur + 1;
    }
    LongTextUnfold(pages, cur);
    assert out + [] == out;
  }

  lemma Appended(out: Bytes, more: Bytes, rest: Bytes)
    ensures out + (more + rest) == out + more + rest
  {
  }

  lemma LongTextUnfold(pages: seq<Page>, cur: nat)
    ensures LongText(pages, cur) ==
            if cur >= |pages| then []
            else
              var ch, chunkLen := U16At(pages[cur], 0), U16At(pages[cur], 2);
              if (ch != FIRST_MARK && ch != NEXT_MARK) || chunkLen > PAGE_SIZE - 4 then []
              else pages[cur][4..4 + chunkLen] + LongText(pages, cur + 1)
  {
  }

  lemma NoRunAtEnd(segments: seq<Segment>)
    ensures LongRun(segments, |segments|) == []
  {
  }

  lemma PieceMoves(text: Bytes, more: Bytes)
    ensures Piece(text) + (text[|Piece(text)|..] + more) == text + more
  {
    assert Piece(text) + text[|Piece(text)|..] == text;
  }

  lemma LongRunIsOne(segments: seq<Segment>, runs: seq<seq<Page>>, s: nat)
    requires Holds(runs, segments) && s < |segments| && segments[s].Long?
    ensures LongRun(segments, s) == segments[s].text <==> s + 1 == |segments| || segments[s + 1].Short?
  {
    hide LongHolds, ShortHolds;
    if s + 1 < |segments| && segments[s + 1].Long? {
      assert SegmentHolds(runs[s + 1], segments[s + 1]);
      assert LongRun(segments, s + 1) == segments[s + 1].text + LongRun(segments, s + 2);
    } else {
      assert segments[s].text + [] == segments[s].text;
    }
  }

  // ---- a short string ----

  // The row whose end offset is the k-th.
  lemma {:induction false} RowOfOffset(rows: seq<Cell>, k: nat) returns (j: nat)
    requires k < Present(rows)
    ensures j < |rows| && rows[j].Some? && Present(rows[..j]) == k
    decreases |rows|
  {
    hide Present, Data;
    DataUnfold(rows);
    var n := |rows| - 1;
    assert rows == rows[..n] + [rows[n]];
    DataSnoc(rows[..n], rows[n]);
    if k < Present(rows[..n]) {
      j := RowOfOffset(rows[..n], k);
      assert rows[..n][..j] == rows[..j];
    } else {
      j := n;
    }
  }

  lemma PrefixesGrow(rows: seq<Cell>, i: nat, j: nat)
    requires i <= j <= |rows|
    ensures |Data(rows[..i])| <= |Data(rows[..j])| <= |Data(rows)|
            && Present(rows[..i]) <= Present(rows[..j]) <= Present(rows)
    ensures Data(rows[i..]) == [] ==> |Data(rows[..j])| == |Data(rows[..i])|
  {
    hide Data, Present;
    assert rows[..j] == rows[..i] + rows[i..j] && rows == rows[..j] + rows[j..] && rows[i..] == rows[i..j] + rows[j..];
    DataConcat(rows[..i], rows[i..j]);
    DataConcat(rows[..j], rows[j..]);
    DataConcat(rows[i..j], rows[j..]);
  }

  // The k-th end offset against the start of row i's string.
  lemma OffsetVersusStart(page: Page, rows: seq<Cell>, i: nat, k: nat)
    requires ShortHolds(page, rows) && i < |rows| && rows[i].Some? && k < Present(rows)
    ensures 4 + 2 * k + 2 <= PAGE_SIZE
    ensures var start, own := |Data(rows[..i])|, Present(rows[..i]);
            && (k < own ==> U16At(page, 4 + 2 * k) <= start)
            && (k == own ==> U16At(page, 4 + 2 * k) == start + |rows[i].value|)
            && (Data(rows[i..]) == [] ==> U16At(page, 4 + 2 * k) <= start)
            && U16At(page, 4 + 2 * k) <= |Data(rows)|
  {
    hide Data, Present, BitsMatch, U16At;
    var j := RowOfOffset(rows, k);
    assert EndOffset(page, rows, j);
    DataAt(rows, j);
    assert rows[..i + 1] == rows[..i] + [rows[i]];
    DataSnoc(rows[..i], rows[i]);
    if j < i {
      PrefixesGrow(rows, j + 1, i);
    } else {
      PrefixesGrow(rows, i, j + 1);
      if j > i {
        PrefixesGrow(rows, i + 1, j);
      }
    }
    if k < Present(rows[..i]) && i <= j {
      PrefixesGrow(rows, i, j);
    }
  }

  // Some end offset lies past the start when characters follow.
  lemma {:induction false} SomeOffsetPastStart(page: Page, rows: seq<Cell>, i: nat, from: nat)
    requires ShortHolds(page, rows) && i <= from <= |rows| && Data(rows[from..]) != []
             && |Data(rows[..from])| == |Data(rows[..i])|
    ensures exists k ::
              0 <= k < Present(rows) && 4 + 2 * k + 2 <= PAGE_SIZE && U16At(page, 4 + 2 * k) > |Data(rows[..i])|
    decreases |rows| - from
  {
    hide Data, Present, BitsMatch;
    DataUnfold(rows[from..]);
    assert rows[from..][1..] == rows[from + 1..];
    DataAt(rows, from);
    if BytesOf(rows[from]) == [] {
      SomeOffsetPastStart(page, rows, i, from + 1);
    } else {
      assert EndOffset(page, rows, from);
      var k := Present(rows[..from]);
      PrefixesGrow(rows, from, from + 1);
      assert rows[..from + 1] == rows[..from] + [rows[from]];
      DataSnoc(rows[..from], rows[from]);
      PrefixesGrow(rows, from + 1, |rows|);
      assert 4 + 2 * k + 2 <= PAGE_SIZE && U16At(page, 4 + 2 * k) > |Data(rows[..i])|;
    }
  }

  lemma {:induction false} FirstPastIs(p: Page, n: nat, start: nat, k: nat)
    requires k <= n
    ensures var f := FirstPast(p, n, start, k);
            && k <= f <= n && (f < n ==> OffsetAt(p, f) > start)
            && forall m :: k <= m < f ==> OffsetAt(p, m) <= start
    decreases n - k
  {
    if k < n && OffsetAt(p, k) <= start {
      FirstPastIs(p, n, start, k + 1);
    }
  }

  // The first end offset past the start gives the row's string if and only if the string is
  // not empty, or nothing but the bitmap follows it.
  lemma ShortTextExact(p: Page, rows: seq<Cell>, i: nat)
    requires ShortHolds(p, rows) && i < |rows| && rows[i].Some?
    ensures ShortText(p, |Data(rows[..i])|) == rows[i].value <==> rows[i].value != [] || (Data(rows[i..]) == [] && Full(rows))
  {
    hide Data, Present, BitsMatch, U16At;
    var n, start, own := U16At(p, 2), |Data(rows[..i])|, Present(rows[..i]);
    SomeRow(p, rows, i);
    FirstPastIs(p, n, start, 0);
    var k := FirstPast(p, n, start, 0);
    StringOfRow(p, rows, i);
    OffsetVersusStart(p, rows, i, own);
    PrefixesGrow(rows, i, i + 1);
    PrefixesGrow(rows, i, |rows|);
    assert rows[..|rows|] == rows;
    if rows[i].value != [] {
      assert OffsetAt(p, own) == start + |rows[i].value|;
      if k < own {
        OffsetVersusStart(p, rows, i, k);
      }
    } else if Data(rows[i..]) != [] {
      SomeOffsetPastStart(p, rows, i, i);
      var m :| 0 <= m < Present(rows) && 4 + 2 * m + 2 <= PAGE_SIZE && U16At(p, 4 + 2 * m) > start;
      assert OffsetAt(p, m) > start;
      OffsetVersusStart(p, rows, i, k);
    } else if k < n {
      OffsetVersusStart(p, rows, i, k);
    }
  }

  method ShortString(p: Page, start: nat) returns (text: Bytes)
    ensures text == ShortText(p, start)
  {
    hide U16At;
    var offsetCount := U16At(p, 2);
    if offsetCount == 0 {
      return [];
    }
    var base := 4 + 2 * offsetCount;
    var k: nat := 0;
    while k < offsetCount && OffsetAt(p, k) <= start
      invariant k <= offsetCount && FirstPast(p, offsetCount, start, k) == FirstPast(p, offsetCount, start, 0)
    {
      k := k + 1;
    }
    if k >= offsetCount {
      var bitmapStart := PAGE_SIZE - BitmapBytes(U16At(p, 0));
      var endOff := bitmapStart - base;
      if endOff <= start {
        return [];
      }
      return Slice(p, base + start, base + endOff);
    }
    var endOff := OffsetAt(p, k);
    if endOff <= start {
      return [];
    }
    text := Slice(p, base + start, base + endOff);
  }

  // A reference to row i of segment s gives the row's string if and only if it is Recoverable.
  lemma RepTextExact(inputs: seq<seq<seq<Page>>>, rep: StrRep, runs: seq<seq<Page>>, segments: seq<Segment>, s: nat, i: nat)
    requires InRange(inputs, rep) && Holds(runs, segments) && Concat(runs) == inputs[rep.table][rep.column]
    requires RefersTo(rep, runs, segments, s, i) && RowsOf(segments[s])[i].Some?
    ensures RepText(inputs, rep) == RowsOf(segments[s])[i].value <==> Recoverable(segments, s, i)
  {
    hide Concat, Map, Data, Present, Reading, ShortHolds, Holds, LongText, ShortText, LongRun, U16At;
    var pages := inputs[rep.table][rep.column];
    AtSegment(pages, runs, segments, s);
    if segments[s].Long? {
      LongTextIsRun(pages, runs, segments, s);
      LongRunIsOne(segments, runs, s);
    } else {
      ShortTextExact(pages[rep.page], segments[s].rows, i);
    }
  }

  method StringFromRep(inputs: seq<seq<seq<Page>>>, rep: StrRep) returns (text: Bytes)
    ensures text == RepText(inputs, rep)
  {
    hide LongText, ShortText;
    if rep.table >= |inputs| || rep.column >= |inputs[rep.table]| || rep.page >= |inputs[rep.table][rep.column]| {
      return [];
    }
    var pages := inputs[rep.table][rep.column];
    if U16At(pages[rep.page], 0) == FIRST_MARK {
      text := LongString(pages, rep.page);
    } else {
      text := ShortString(pages[rep.page], rep.offset);
    }
  }

  lemma SomeRow(page: Page, rows: seq<Cell>, i: nat)
    requires ShortHolds(page, rows) && i < |rows| && rows[i].Some?
    ensures U16At(page, 2) > 0
  {
    hide Data, Present, BitsMatch;
    assert rows[..i + 1] == rows[..i] + [rows[i]];
    DataSnoc(rows[..i], rows[i]);
    PrefixesGrow(rows, i + 1, i + 1);
  }

  // ---- rows ----

  lemma {:induction false} RowAt(segments: seq<Segment>, r: nat) returns (s: nat, i: nat)
    requires r < |Concat(Map(segments, RowsOf))|
    ensures s < |segments| && i < |RowsOf(segments[s])| && r == |Concat(Map(segments[..s], RowsOf))| + i
    ensures Concat(Map(segments, RowsOf))[r] == RowsOf(segments[s])[i]
    decreases |segments|
  {
    hide Concat, Map;
    var n := |segments| - 1;
    ConcatUnfold(Map(segments, RowsOf));
    assert segments == segments[..n] + [segments[n]];
    MapSnoc(segments[..n], segments[n], RowsOf);
    ConcatSnoc(Map(segments[..n], RowsOf), RowsOf(segments[n]));
    if r < |Concat(Map(segments[..n], RowsOf))| {
      s, i := RowAt(segments[..n], r);
      assert segments[..n][..s] == segments[..s];
    } else {
      s, i := n, r - |Concat(Map(segments[..n], RowsOf))|;
    }
  }

  // A short row is not a long string.
  lemma ShortRowsAreShort(rows: seq<Cell>, i: nat)
    requires Room(rows) && i < |rows|
    ensures !IsLong(rows[i])
  {
    hide Data, Present;
    DataAt(rows, i);
    if rows[i].Some? {
      assert rows[..i + 1] == rows[..i] + [rows[i]];
      DataSnoc(rows[..i], rows[i]);
      PrefixesGrow(rows, i + 1, i + 1);
    }
  }

  // Recoverable in terms of the rows alone: a long string unless the next row is long too, and
  // every short string that is not empty.
  lemma RecoverableRows(runs: seq<seq<Page>>, segments: seq<Segment>, s: nat, i: nat, r: nat)
    requires Holds(runs, segments) && s < |segments| && i < |RowsOf(segments[s])| && RowsOf(segments[s])[i].Some?
    requires r == |Concat(Map(segments[..s], RowsOf))| + i
    ensures var rows := Concat(Map(segments, RowsOf));
            && r < |rows| && rows[r] == RowsOf(segments[s])[i]
            && (IsLong(rows[r]) ==> (Recoverable(segments, s, i) <==> r + 1 == |rows| || !IsLong(rows[r + 1])))
            && (!IsLong(rows[r]) && rows[r].value != [] ==> Recoverable(segments, s, i))
  {
    hide Concat, Map, Data, Present, LongHolds, ShortHolds;
    RowIn(segments, s, i);
    if segments[s].Short? {
      SegmentIsShort(runs, segments, s, i);
    } else {
      SegmentIsLong(runs, segments, s);
      if s + 1 < |segments| {
        RowIn(segments, s + 1, 0);
        NextRowIn(segments, s);
        if segments[s + 1].Short? {
          SegmentIsShort(runs, segments, s + 1, 0);
        } else {
          SegmentIsLong(runs, segments, s + 1);
        }
      } else {
        NextRowIn(segments, s);
      }
    }
  }

  lemma RowIn(segments: seq<Segment>, s: nat, i: nat)
    requires s < |segments| && i < |RowsOf(segments[s])|
    ensures var rows := Concat(Map(segments, RowsOf));
            var r := |Concat(Map(segments[..s], RowsOf))| + i;
            r < |rows| && rows[r] == RowsOf(segments[s])[i]
  {
    hide Concat, Map, RowsOf;
    MapPrefix(segments, s);
    ConcatAt(Map(segments, RowsOf), s);
  }

  lemma NextRowIn(segments: seq<Segment>, s: nat)
    requires s < |segments|
    ensures |Concat(Map(segments[..s + 1], RowsOf))| == |Concat(Map(segments[..s], RowsOf))| + |RowsOf(segments[s])|
    ensures s + 1 == |segments| ==> |Concat(Map(segments, RowsOf))| == |Concat(Map(segments[..s + 1], RowsOf))|
  {
    hide Concat, Map, RowsOf;
    MapPrefix(segments, s);
    MapPrefix(segments, s + 1);
    ConcatAt(Map(segments, RowsOf), s);
    assert segments[..|segments|] == segments;
  }

  lemma SegmentIsShort(runs: seq<seq<Page>>, segments: seq<Segment>, s: nat, i: nat)
    requires Holds(runs, segments) && s < |segments| && segments[s].Short? && i < |segments[s].rows|
    ensures !IsLong(segments[s].rows[i])
  {
    hide Data, Present;
    assert SegmentHolds(runs[s], segments[s]);
    ShortRowsAreShort(segments[s].rows, i);
  }

  lemma SegmentIsLong(runs: seq<seq<Page>>, segments: seq<Segment>, s: nat)
    requires Holds(runs, segments) && s < |segments|
    ensures segments[s].Long? ==> IsLong(Some(segments[s].text))
    ensures RowsOf(segments[s]) != []
  {
    hide LongHolds, ShortHolds;
    assert SegmentHolds(runs[s], segments[s]);
  }

  lemma MapPrefix(segments: seq<Segment>, s: nat)
    requires s <= |segments|
    ensures Map(segments, RowsOf)[..s] == Map(segments[..s], RowsOf)
  {
    hide Map;
  }
}
