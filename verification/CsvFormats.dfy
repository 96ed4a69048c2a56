// What src/csv_parser.cpp reads from any text that prints a table: fields bare, quoted, or in
// bare and quoted pieces, and records ended by a newline, a carriage return or both.
module CsvFormats {
  import opened CsvSpec
  import opened CsvRoundTrip

  datatype Piece = Bare(text: string) | Quoted(text: string)

  datatype Ending = LF | CRLF | CR

  datatype Line = Line(fields: seq<seq<Piece>>, ending: Ending)

  // Bare text has none of the characters that end or quote a field.
  predicate BareOk(cfg: Config, text: string) {
    text != "" && forall i :: 0 <= i < |text| ==>
      text[i] != cfg.comma && text[i] != '"' && text[i] != '\n' && text[i] != '\r'
  }

  // With the quote as escape two quoted pieces would join in a doubled quote.
  ghost predicate PiecesOk(cfg: Config, pieces: seq<Piece>) {
    && (forall i :: 0 <= i < |pieces| ==> pieces[i].Bare? ==> BareOk(cfg, pieces[i].text))
    && (cfg.escape == '"' ==> forall i, j :: 0 <= i && i + 1 == j < |pieces| ==> pieces[i].Bare? || pieces[j].Bare?)
  }

  function PrintPieces(cfg: Config, pieces: seq<Piece>): string {
    if pieces == [] then "" else PrintPiece(cfg, pieces[0]) + PrintPieces(cfg, pieces[1..])
  }

  function PrintPiece(cfg: Config, piece: Piece): string {
    match piece case Bare(text) => text case Quoted(text) => "\"" + Escaped(cfg, text) + "\""
  }

  // What the field is.
  function TextOf(pieces: seq<Piece>): string {
    if pieces == [] then "" else pieces[0].text + TextOf(pieces[1..])
  }

  function PrintBody(cfg: Config, fields: seq<seq<Piece>>): string {
    if fields == [] then ""
    else if |fields| == 1 then PrintPieces(cfg, fields[0])
    else PrintPieces(cfg, fields[0]) + [cfg.comma] + PrintBody(cfg, fields[1..])
  }

  function PrintFields(cfg: Config, fields: seq<seq<Piece>>): string {
    PrintBody(cfg, fields) + if cfg.trailing then [cfg.comma] else ""
  }

  function PrintEnding(e: Ending): string {
    match e case LF => "\n" case CRLF => "\r\n" case CR => "\r"
  }

  function PrintLines(cfg: Config, lines: seq<Line>): string {
    if lines == [] then ""
    else PrintFields(cfg, lines[0].fields) + PrintEnding(lines[0].ending) + PrintLines(cfg, lines[1..])
  }

  function Texts(fields: seq<seq<Piece>>): Record {
    seq(|fields|, i requires 0 <= i < |fields| => TextOf(fields[i]))
  }

  function Table(lines: seq<Line>): seq<Record> {
    seq(|lines|, i requires 0 <= i < |lines| => Texts(lines[i].fields))
  }

  ghost predicate FieldsOk(cfg: Config, fields: seq<seq<Piece>>) {
    fields != [] && forall i :: 0 <= i < |fields| ==> PiecesOk(cfg, fields[i])
  }

  // A newline after a carriage return belongs to it.
  predicate Apart(e: Ending, rest: string) {
    e == CR && rest != "" ==> rest[0] != '\n'
  }

  ghost predicate LinesOk(cfg: Config, lines: seq<Line>, rest: string) {
    && (forall i :: 0 <= i < |lines| ==> FieldsOk(cfg, lines[i].fields))
    && (forall i :: 0 <= i < |lines| ==> Apart(lines[i].ending, PrintLines(cfg, lines[i + 1..]) + rest))
  }

  // ---- fields ----

  // Within a field, where nothing is pending.
  predicate Inside(s: State) { !s.quoted && !s.escaping && !s.newlining }

  // The field so far.
  function Said(s: State, pieces: seq<Piece>): State {
    if pieces == [] then s
    else s.(field := s.field + TextOf(pieces), afterFieldSep := false, afterRecordSep := false)
  }

  lemma {:induction false} RunBare(cfg: Config, s: State, text: string)
    requires Sane(cfg) && Inside(s) && BareOk(cfg, text)
    ensures Run(cfg, s, text) == Running(s.(field := s.field + text, afterFieldSep := false, afterRecordSep := false))
    decreases |text|
  {
    hide Run;
    var c := text[0];
    var next := s.(field := s.field + [c], afterFieldSep := false, afterRecordSep := false);
    assert [c] + text[1..] == text;
    RunSplit(cfg, s, [c], text[1..]);
    RunOne(cfg, s, c);
    if text[1..] == "" {
      RunNothing(cfg, next, text[1..]);
      assert [c] == text;
    } else {
      RunBare(cfg, next, text[1..]);
      assert next.field + text[1..] == s.field + text;
    }
  }

  // After a closing quote, which with the quote as escape is not yet known to be closing.
  function AfterQuote(cfg: Config, s: State): State {
    s.(quoted := cfg.escape == '"', escaping := cfg.escape == '"')
  }

  lemma RunQuoted(cfg: Config, s: State, text: string)
    requires Sane(cfg) && Inside(s)
    ensures Run(cfg, s, "\"" + Escaped(cfg, text) + "\"") == Running(AfterQuote(cfg, Said(s, [Quoted(text)])))
  {
    hide Run, Escaped;
    var open := s.(quoted := true, afterFieldSep := false, afterRecordSep := false);
    assert TextOf([Quoted(text)]) == text;
    RunOne(cfg, s, '"');
    RunSplit(cfg, s, "\"", Escaped(cfg, text));
    RunEscaped(cfg, open, text);
    RunSplit(cfg, s, "\"" + Escaped(cfg, text), "\"");
    RunOne(cfg, open.(field := s.field + text), '"');
  }

  // Any other character shows that the quote was closing.
  lemma QuoteIsClosing(cfg: Config, s: State, rest: string)
    requires Sane(cfg) && Inside(s) && rest != "" && rest[0] != '"'
    ensures Run(cfg, AfterQuote(cfg, s), rest) == Run(cfg, s, rest)
  {
  }

  lemma FirstOfPieces(cfg: Config, pieces: seq<Piece>, sep: char)
    requires PiecesOk(cfg, pieces) && sep != '"'
    ensures var rest := PrintPieces(cfg, pieces) + [sep];
            rest != "" && (pieces == [] || pieces[0].Bare? ==> rest[0] != '"')
  {
  }

  lemma SaidInParts(s: State, pieces: seq<Piece>)
    requires Inside(s) && pieces != []
    ensures Inside(Said(s, [pieces[0]])) && Said(Said(s, [pieces[0]]), pieces[1..]) == Said(s, pieces)
  {
    assert TextOf([pieces[0]]) == pieces[0].text;
    assert s.field + pieces[0].text + TextOf(pieces[1..]) == s.field + TextOf(pieces);
  }

  lemma RestOfPieces(cfg: Config, pieces: seq<Piece>)
    requires pieces != [] && PiecesOk(cfg, pieces)
    ensures PiecesOk(cfg, pieces[1..])
    ensures |pieces| == 1 || pieces[1].Bare? <==> pieces[1..] == [] || pieces[1..][0].Bare?
  {
  }

  // The pieces of a field and the character after them.
  lemma {:induction false} RunPieces(cfg: Config, s: State, pieces: seq<Piece>, sep: char)
    requires Sane(cfg) && Inside(s) && PiecesOk(cfg, pieces) && sep != '"'
    ensures Run(cfg, s, PrintPieces(cfg, pieces) + [sep]) == Step(cfg, Said(s, pieces), sep)
    decreases |pieces|
  {
    hide Run, Step, Sane, PiecesOk, PrintPiece, Inside;
    if pieces == [] {
      assert PrintPieces(cfg, pieces) + [sep] == [sep];
      RunOne(cfg, s, sep);
    } else {
      hide Said;
      var rest := pieces[1..];
      var after := PrintPieces(cfg, rest) + [sep];
      RestOfPieces(cfg, pieces);
      SaidInParts(s, pieces);
      FirstOfPieces(cfg, rest, sep);
      RunFirstPiece(cfg, s, pieces, after);
      RunPieces(cfg, Said(s, [pieces[0]]), rest, sep);
      assert PrintPieces(cfg, pieces) + [sep] == PrintPiece(cfg, pieces[0]) + after;
    }
  }

  lemma RunFirstPiece(cfg: Config, s: State, pieces: seq<Piece>, after: string)
    requires Sane(cfg) && Inside(s) && pieces != [] && PiecesOk(cfg, pieces) && after != ""
    requires |pieces| == 1 || pieces[1].Bare? ==> after[0] != '"'
    ensures Run(cfg, s, PrintPiece(cfg, pieces[0]) + after) == Run(cfg, Said(s, [pieces[0]]), after)
  {
    hide Run, Escaped, BareOk, Sane;
    var t := Said(s, [pieces[0]]);
    assert TextOf([pieces[0]]) == pieces[0].text;
    RunSplit(cfg, s, PrintPiece(cfg, pieces[0]), after);
    match pieces[0]
    case Bare(text) =>
      RunBare(cfg, s, text);
      assert Run(cfg, s, text) == Running(t);
    case Quoted(text) =>
      RunQuoted(cfg, s, text);
      if cfg.escape == '"' {
        assert |pieces| > 1 ==> pieces[0].Bare? || pieces[1].Bare?;
        QuoteIsClosing(cfg, t, after);
      }
  }

  // ---- records ----

  // At the start of a record or behind a comma.
  predicate Ready(s: State) { Inside(s) && s.field == "" }

  // Behind the last field of a record.
  function BodySaid(s: State, fields: seq<seq<Piece>>): State
    requires fields != []
    decreases |fields|
  {
    if |fields| == 1 then Said(s, fields[0]) else BodySaid(EndField(Said(s, fields[0])), fields[1..])
  }

  lemma AfterComma(cfg: Config, s: State, pieces: seq<Piece>)
    requires Sane(cfg) && Ready(s) && PiecesOk(cfg, pieces)
    ensures Run(cfg, s, PrintPieces(cfg, pieces) + [cfg.comma]) == Running(EndField(Said(s, pieces)))
    ensures Ready(EndField(Said(s, pieces)))
  {
    hide Run, PiecesOk;
    RunPieces(cfg, s, pieces, cfg.comma);
  }

  lemma SaidIsInside(s: State, pieces: seq<Piece>)
    requires Inside(s)
    ensures Inside(Said(s, pieces))
  {
  }

  // The fields of a record and the character after them.
  lemma {:induction false} RunBody(cfg: Config, s: State, fields: seq<seq<Piece>>, sep: char)
    requires Sane(cfg) && Ready(s) && FieldsOk(cfg, fields) && sep != '"'
    ensures Run(cfg, s, PrintBody(cfg, fields) + [sep]) == Step(cfg, BodySaid(s, fields), sep)
    ensures Inside(BodySaid(s, fields))
    decreases |fields|
  {
    hide Run, PiecesOk, PrintPieces, Step, EndField, Said;
    var text := PrintPieces(cfg, fields[0]);
    if |fields| == 1 {
      RunPieces(cfg, s, fields[0], sep);
      SaidIsInside(s, fields[0]);
    } else {
      var rest := PrintBody(cfg, fields[1..]) + [sep];
      assert PrintBody(cfg, fields) + [sep] == (text + [cfg.comma]) + rest;
      RunSplit(cfg, s, text + [cfg.comma], rest);
      AfterComma(cfg, s, fields[0]);
      RunBody(cfg, EndField(Said(s, fields[0])), fields[1..], sep);
    }
  }

  lemma FirstFieldSaid(s: State, fields: seq<seq<Piece>>)
    requires Ready(s) && |fields| > 1
    ensures var t, n := EndField(Said(s, fields[0])), |fields| - 1;
            && Ready(t) && t.row == s.row && t.numCols == s.numCols && t.afterFirstRow == s.afterFirstRow
            && t.col == s.col + 1 && t.afterFieldSep && !t.afterRecordSep
            && t.out + RecordFields(Texts(fields[1..])[..n - 1], s.col + 1, s.row) ==
               s.out + RecordFields(Texts(fields)[..n], s.col, s.row)
  {
    var n := |fields| - 1;
    var t := EndField(Said(s, fields[0]));
    var first := Field(s.col, s.row, TextOf(fields[0]));
    assert "" + TextOf(fields[0]) == TextOf(fields[0]);
    assert t.out == s.out + [first];
    var rest := RecordFields(Texts(fields[1..])[..n - 1], s.col + 1, s.row);
    assert Texts(fields)[..n][1..] == Texts(fields[1..])[..n - 1];
    assert RecordFields(Texts(fields)[..n], s.col, s.row) == [first] + rest;
    assert s.out + [first] + rest == s.out + ([first] + rest);
  }

  // What the fields of a record add, before its end.
  lemma {:induction false} BodySaidIs(s: State, fields: seq<seq<Piece>>)
    requires Ready(s) && fields != []
    ensures var t, n := BodySaid(s, fields), |fields| - 1;
            && t.row == s.row && t.numCols == s.numCols && t.afterFirstRow == s.afterFirstRow && Inside(t)
            && t.col == s.col + n && t.field == TextOf(fields[n])
            && t.afterFieldSep == (fields[n] == [] && (n > 0 || s.afterFieldSep))
            && t.afterRecordSep == (fields[n] == [] && n == 0 && s.afterRecordSep)
            && t.out == s.out + RecordFields(Texts(fields)[..n], s.col, s.row)
    decreases |fields|
  {
    if |fields| == 1 {
      assert "" + TextOf(fields[0]) == TextOf(fields[0]);
      assert Texts(fields)[..0] == [];
      assert s.out + [] == s.out;
    } else {
      FirstFieldSaid(s, fields);
      hide RecordFields, Said, EndField;
      BodySaidIs(EndField(Said(s, fields[0])), fields[1..]);
    }
  }

  // Where the record ends: with trailing commas behind one.
  function LastSaid(cfg: Config, s: State, fields: seq<seq<Piece>>): State
    requires fields != []
  {
    if cfg.trailing then EndField(BodySaid(s, fields)) else BodySaid(s, fields)
  }

  lemma RunFields(cfg: Config, s: State, fields: seq<seq<Piece>>, sep: char)
    requires Sane(cfg) && Ready(s) && FieldsOk(cfg, fields) && sep != '"'
    ensures Run(cfg, s, PrintFields(cfg, fields) + [sep]) == Step(cfg, LastSaid(cfg, s, fields), sep)
    ensures Inside(LastSaid(cfg, s, fields))
  {
    hide Run, PrintBody, BodySaid, PiecesOk;
    if cfg.trailing {
      assert PrintFields(cfg, fields) + [sep] == (PrintBody(cfg, fields) + [cfg.comma]) + [sep];
      RunSplit(cfg, s, PrintBody(cfg, fields) + [cfg.comma], [sep]);
      RunBody(cfg, s, fields, cfg.comma);
      RunOne(cfg, EndField(BodySaid(s, fields)), sep);
    } else {
      assert PrintFields(cfg, fields) == PrintBody(cfg, fields);
      RunBody(cfg, s, fields, sep);
    }
  }

  // A record of the wanted width ends.
  lemma RecordEnds(cfg: Config, s: State, fields: seq<seq<Piece>>)
    requires Ready(s) && fields != [] && s.col == 0 && (s.afterFirstRow ==> |fields| == s.numCols)
    ensures EndRecord(cfg, LastSaid(cfg, s, fields)) == Running(AfterRecord(s, Texts(fields)))
  {
    hide BodySaid, RecordFields;
    BodySaidIs(s, fields);
    RecordFieldsSplit(Texts(fields), s.col, s.row);
    var n := |fields| - 1;
    var before, last := RecordFields(Texts(fields)[..n], 0, s.row), [Field(n, s.row, TextOf(fields[n]))];
    assert s.out + before + last == s.out + (before + last);
  }

  // A record of another width than the first does not.
  lemma RaggedEnds(cfg: Config, s: State, fields: seq<seq<Piece>>)
    requires Ready(s) && fields != [] && s.col == 0 && s.afterFirstRow && |fields| != s.numCols
    ensures EndRecord(cfg, LastSaid(cfg, s, fields)) ==
            Failed(s.out + RecordFields(if cfg.trailing then Texts(fields) else Texts(fields)[..|fields| - 1], 0, s.row),
                   RaggedRecord)
  {
    hide BodySaid, RecordFields;
    BodySaidIs(s, fields);
    RecordFieldsSplit(Texts(fields), s.col, s.row);
    var n := |fields| - 1;
    var before, last := RecordFields(Texts(fields)[..n], 0, s.row), [Field(n, s.row, TextOf(fields[n]))];
    assert s.out + before + last == s.out + (before + last);
  }

  // ---- lines ----

  // The end of a line and what follows it.
  lemma RunEnding(cfg: Config, s: State, t: State, text: string, e: Ending, rest: string)
    requires Sane(cfg) && Inside(t) && Apart(e, rest)
    requires Run(cfg, s, text + "\n") == Step(cfg, t, '\n') && Run(cfg, s, text + "\r") == Step(cfg, t, '\r')
    ensures End(cfg, Run(cfg, s, text + PrintEnding(e) + rest)) == End(cfg, Then(cfg, EndRecord(cfg, t), rest))
  {
    hide Run;
    var open := t.(newlining := true);
    match e
    case LF =>
      RunSplit(cfg, s, text + "\n", rest);
    case CRLF =>
      assert text + "\r\n" + rest == (text + "\r") + ("\n" + rest);
      RunSplit(cfg, s, text + "\r", "\n" + rest);
      RunFrom(cfg, open, "\n" + rest, 0);
      assert ("\n" + rest)[0..] == "\n" + rest && ("\n" + rest)[1..] == rest;
    case CR =>
      RunSplit(cfg, s, text + "\r", rest);
      RunNothing(cfg, open, rest);
      match EndRecord(cfg, t)
      case Failed(_, _) =>
        if rest != "" {
          RunFrom(cfg, open, rest, 0);
          assert rest[0..] == rest;
        }
      case Running(u) =>
        RunNothing(cfg, u, rest);
        if rest != "" {
          RunFrom(cfg, open, rest, 0);
          RunFrom(cfg, u, rest, 0);
          assert rest[0..] == rest;
        }
  }

  lemma RunLine(cfg: Config, s: State, fields: seq<seq<Piece>>, e: Ending, rest: string)
    requires Sane(cfg) && Ready(s) && FieldsOk(cfg, fields) && Apart(e, rest)
    ensures End(cfg, Run(cfg, s, PrintFields(cfg, fields) + PrintEnding(e) + rest)) ==
            End(cfg, Then(cfg, EndRecord(cfg, LastSaid(cfg, s, fields)), rest))
  {
    hide Run, PrintFields, LastSaid, Step, EndRecord, PiecesOk;
    RunFields(cfg, s, fields, '\n');
    RunFields(cfg, s, fields, '\r');
    RunEnding(cfg, s, LastSaid(cfg, s, fields), PrintFields(cfg, fields), e, rest);
  }

  lemma TableUnfold(lines: seq<Line>)
    requires lines != []
    ensures Table(lines) == [Texts(lines[0].fields)] + Table(lines[1..])
  {
  }

  lemma RestIsOk(cfg: Config, lines: seq<Line>, rest: string)
    requires lines != [] && LinesOk(cfg, lines, rest)
    ensures FieldsOk(cfg, lines[0].fields) && Apart(lines[0].ending, PrintLines(cfg, lines[1..]) + rest)
    ensures LinesOk(cfg, lines[1..], rest)
  {
    hide FieldsOk, PrintLines, Apart;
    forall i | 0 <= i < |lines| - 1 ensures Apart(lines[1..][i].ending, PrintLines(cfg, lines[1..][i + 1..]) + rest) {
      assert lines[1..][i + 1..] == lines[i + 2..];
    }
  }

  // Lines of one width, and what follows them.
  lemma {:induction false} RunLines(cfg: Config, s: State, lines: seq<Line>, rest: string, n: nat)
    requires Sane(cfg) && Clean(s) && s.col == 0 && LinesOk(cfg, lines, rest)
    requires (forall i :: 0 <= i < |lines| ==> |lines[i].fields| == n) && (s.afterFirstRow ==> s.numCols == n)
    ensures End(cfg, Run(cfg, s, PrintLines(cfg, lines) + rest)) == End(cfg, Run(cfg, AfterTable(s, Table(lines)), rest))
    decreases |lines|
  {
    hide Run, End, LinesOk, PrintFields, AfterRecord, EndRecord, FieldsOk;
    if lines == [] {
      assert PrintLines(cfg, lines) + rest == rest;
    } else {
      var after := PrintLines(cfg, lines[1..]) + rest;
      RestIsOk(cfg, lines, rest);
      TableUnfold(lines);
      assert PrintLines(cfg, lines) + rest == PrintFields(cfg, lines[0].fields) + PrintEnding(lines[0].ending) + after;
      FieldsAreSome(cfg, lines[0].fields);
      RunLine(cfg, s, lines[0].fields, lines[0].ending, after);
      RecordEnds(cfg, s, lines[0].fields);
      AfterRecordFacts(s, Texts(lines[0].fields));
      RunLines(cfg, AfterRecord(s, Texts(lines[0].fields)), lines[1..], rest, n);
    }
  }

  lemma FieldsAreSome(cfg: Config, fields: seq<seq<Piece>>)
    requires FieldsOk(cfg, fields)
    ensures fields != []
  {
  }

  // ---- whole texts ----

  // However its fields are quoted and its lines end, a non-empty rectangular table is read back
  // cell by cell.
  lemma FormattedTableIsReadBack(cfg: Config, lines: seq<Line>)
    requires Sane(cfg) && lines != [] && LinesOk(cfg, lines, "")
    requires forall i :: 0 <= i < |lines| ==> |lines[i].fields| == |lines[0].fields|
    ensures Parse(cfg, PrintLines(cfg, lines)) == (Accepted, TableFields(Table(lines), 0))
  {
    hide Run, PrintLines, AfterTable, LinesOk;
    var n := |lines[0].fields|;
    assert PrintLines(cfg, lines) + "" == PrintLines(cfg, lines);
    RunLines(cfg, START, lines, "", n);
    AfterTableFacts(START, Table(lines), n);
    RunNothing(cfg, AfterTable(START, Table(lines)), "");
    assert [] + TableFields(Table(lines), 0) == TableFields(Table(lines), 0);
  }

  // The first record of another width stops the parser there.
  lemma RaggedIsFound(cfg: Config, lines: seq<Line>, bad: Line, rest: string)
    requires Sane(cfg) && lines != [] && LinesOk(cfg, lines, PrintFields(cfg, bad.fields) + PrintEnding(bad.ending) + rest)
    requires FieldsOk(cfg, bad.fields) && Apart(bad.ending, rest)
    requires (forall i :: 0 <= i < |lines| ==> |lines[i].fields| == |lines[0].fields|) && |bad.fields| != |lines[0].fields|
    ensures var before := if cfg.trailing then Texts(bad.fields) else Texts(bad.fields)[..|bad.fields| - 1];
            Parse(cfg, PrintLines(cfg, lines) + (PrintFields(cfg, bad.fields) + PrintEnding(bad.ending) + rest)) ==
            (Ragged, TableFields(Table(lines), 0) + RecordFields(before, 0, |lines|))
  {
    hide Run, PrintLines, PrintFields, LinesOk, EndRecord, LastSaid, RecordFields, TableFields;
    var n := |lines[0].fields|;
    var after := PrintFields(cfg, bad.fields) + PrintEnding(bad.ending) + rest;
    RunLines(cfg, START, lines, after, n);
    AfterTableFacts(START, Table(lines), n);
    TableUnfold(lines);
    AfterFirst(START, Table(lines));
    hide AfterTable;
    var t := AfterTable(START, Table(lines));
    RunLine(cfg, t, bad.fields, bad.ending, rest);
    RaggedEnds(cfg, t, bad.fields);
    assert [] + TableFields(Table(lines), 0) == TableFields(Table(lines), 0);
  }

  lemma {:induction false} AfterFirst(s: State, table: seq<Record>)
    ensures table != [] || s.afterFirstRow ==> AfterTable(s, table).afterFirstRow
    ensures (table != [] || !s.afterFieldSep) ==> !AfterTable(s, table).afterFieldSep
    decreases |table|
  {
    if table != [] {
      AfterFirst(AfterRecord(s, table[0]), table[1..]);
    }
  }

  // With trailing commas so does a record that does not end with one.
  lemma MissingCommaIsFound(cfg: Config, lines: seq<Line>, bad: Line, rest: string)
    requires Sane(cfg) && cfg.trailing
    requires LinesOk(cfg, lines, PrintBody(cfg, bad.fields) + PrintEnding(bad.ending) + rest)
    requires FieldsOk(cfg, bad.fields) && Apart(bad.ending, rest)
    requires |bad.fields| > 1 ==> bad.fields[|bad.fields| - 1] != []
    requires forall i :: 0 <= i < |lines| ==> |lines[i].fields| == |lines[0].fields|
    ensures Parse(cfg, PrintLines(cfg, lines) + (PrintBody(cfg, bad.fields) + PrintEnding(bad.ending) + rest)) ==
            (NoComma, TableFields(Table(lines), 0) + RecordFields(Texts(bad.fields)[..|bad.fields| - 1], 0, |lines|))
  {
    hide Run, PrintLines, PrintBody, LinesOk, BodySaid, RecordFields, TableFields;
    var n := if lines == [] then 0 else |lines[0].fields|;
    var after := PrintBody(cfg, bad.fields) + PrintEnding(bad.ending) + rest;
    RunLines(cfg, START, lines, after, n);
    AfterTableFacts(START, Table(lines), n);
    AfterFirst(START, Table(lines));
    hide AfterTable;
    var t := AfterTable(START, Table(lines));
    RunBody(cfg, t, bad.fields, '\n');
    RunBody(cfg, t, bad.fields, '\r');
    RunEnding(cfg, t, BodySaid(t, bad.fields), PrintBody(cfg, bad.fields), bad.ending, rest);
    BodySaidIs(t, bad.fields);
    assert [] + TableFields(Table(lines), 0) == TableFields(Table(lines), 0);
  }

  // ---- a last line without its end ----

  predicate EndsQuoted(cfg: Config, pieces: seq<Piece>) {
    cfg.escape == '"' && pieces != [] && pieces[|pieces| - 1].Quoted?
  }

  lemma RunOnePiece(cfg: Config, s: State, piece: Piece)
    requires Sane(cfg) && Inside(s) && PiecesOk(cfg, [piece])
    ensures Run(cfg, s, PrintPieces(cfg, [piece])) ==
            Running(if EndsQuoted(cfg, [piece]) then AfterQuote(cfg, Said(s, [piece])) else Said(s, [piece]))
  {
    hide Run, Escaped, BareOk, Sane;
    assert TextOf([piece]) == piece.text;
    assert PrintPieces(cfg, [piece]) == PrintPiece(cfg, piece);
    assert piece == [piece][0];
    match piece
    case Bare(text) => RunBare(cfg, s, text);
    case Quoted(text) => RunQuoted(cfg, s, text);
  }

  lemma {:induction false} RunPiecesOnly(cfg: Config, s: State, pieces: seq<Piece>)
    requires Sane(cfg) && Inside(s) && PiecesOk(cfg, pieces)
    ensures Run(cfg, s, PrintPieces(cfg, pieces)) ==
            Running(if EndsQuoted(cfg, pieces) then AfterQuote(cfg, Said(s, pieces)) else Said(s, pieces))
    decreases |pieces|
  {
    hide Run, Sane, PiecesOk, PrintPiece, Inside;
    if pieces == [] {
      RunNothing(cfg, s, "");
    } else if |pieces| == 1 {
      assert pieces == [pieces[0]];
      RunOnePiece(cfg, s, pieces[0]);
    } else {
      hide Said, AfterQuote;
      RestOfPieces(cfg, pieces);
      SaidInParts(s, pieces);
      FirstPieceShows(cfg, pieces);
      RunFirstPiece(cfg, s, pieces, PrintPieces(cfg, pieces[1..]));
      RunPiecesOnly(cfg, Said(s, [pieces[0]]), pieces[1..]);
    }
  }

  lemma FirstPieceShows(cfg: Config, pieces: seq<Piece>)
    requires |pieces| > 1 && PiecesOk(cfg, pieces)
    ensures var after := PrintPieces(cfg, pieces[1..]); after != "" && (pieces[1].Bare? ==> after[0] != '"')
  {
  }

  lemma {:induction false} RunBodyOnly(cfg: Config, s: State, fields: seq<seq<Piece>>)
    requires Sane(cfg) && Ready(s) && FieldsOk(cfg, fields)
    ensures var t := BodySaid(s, fields);
            Run(cfg, s, PrintBody(cfg, fields)) ==
            Running(if EndsQuoted(cfg, fields[|fields| - 1]) then AfterQuote(cfg, t) else t)
    decreases |fields|
  {
    hide Run, PiecesOk, PrintPieces, Step, EndField, Said, EndsQuoted;
    if |fields| == 1 {
      RunPiecesOnly(cfg, s, fields[0]);
    } else {
      var text, rest := PrintPieces(cfg, fields[0]), PrintBody(cfg, fields[1..]);
      assert PrintBody(cfg, fields) == (text + [cfg.comma]) + rest;
      RunSplit(cfg, s, text + [cfg.comma], rest);
      AfterComma(cfg, s, fields[0]);
      RunBodyOnly(cfg, EndField(Said(s, fields[0])), fields[1..]);
    }
  }

  // The last line may lack its end, unless it ends with a quoted piece and the quote is the
  // escape character; a lone empty field behind a line is no line.
  lemma LastLineMayBeOpen(cfg: Config, lines: seq<Line>, last: seq<seq<Piece>>)
    requires Sane(cfg) && !cfg.trailing && LinesOk(cfg, lines, PrintBody(cfg, last)) && FieldsOk(cfg, last)
    requires forall i :: 0 <= i < |lines| ==> |lines[i].fields| == |last|
    ensures var n := |last| - 1;
            Parse(cfg, PrintLines(cfg, lines) + PrintBody(cfg, last)) ==
            if EndsQuoted(cfg, last[n]) then
              (Unclosed, TableFields(Table(lines), 0) + RecordFields(Texts(last)[..n], 0, |lines|))
            else if last == [[]] && lines != [] then (Accepted, TableFields(Table(lines), 0))
            else (Accepted, TableFields(Table(lines), 0) + RecordFields(Texts(last), 0, |lines|))
  {
    hide Run, PrintLines, PrintBody, LinesOk, BodySaid, RecordFields, TableFields, EndRecord;
    RunLines(cfg, START, lines, PrintBody(cfg, last), |last|);
    AfterTableFacts(START, Table(lines), |last|);
    AfterSep(START, Table(lines));
    hide AfterTable;
    var t := AfterTable(START, Table(lines));
    RunBodyOnly(cfg, t, last);
    BodySaidIs(t, last);
    RecordEnds(cfg, t, last);
    AfterRecordFacts(t, Texts(last));
    var u := BodySaid(t, last);
    assert [] + TableFields(Table(lines), 0) == TableFields(Table(lines), 0);
    if !EndsQuoted(cfg, last[|last| - 1]) {
      if u.afterRecordSep {
        assert last == [[]] && Texts(last)[..0] == [];
        FieldsOfRecord([], 0, |lines|, 0);
        assert u.out == t.out;
      } else {
        assert Step(cfg, u, '\n') == EndRecord(cfg, u);
      }
    }
  }

  lemma {:induction false} AfterSep(s: State, table: seq<Record>)
    ensures AfterTable(s, table).afterRecordSep == (table != [] || s.afterRecordSep)
    decreases |table|
  {
    if table != [] {
      AfterSep(AfterRecord(s, table[0]), table[1..]);
    }
  }

  // ---- single characters ----

  // Quoted text is printed character by character, quotes and escapes behind an escape.
  lemma {:induction false} EscapedIs(cfg: Config, c: char, a: string, b: string)
    ensures Escaped(cfg, "") == "" && Escaped(cfg, [c]) == if c == '"' || c == cfg.escape then [cfg.escape, c] else [c]
    ensures Escaped(cfg, a + b) == Escaped(cfg, a) + Escaped(cfg, b)
    decreases |a|
  {
    assert [c][1..] == "";
    if a == "" {
      assert a + b == b;
    } else {
      EscapedIs(cfg, c, a[1..], b);
      assert (a + b)[1..] == a[1..] + b;
    }
  }

  // In quotes an escape before any other character than itself or a quote is text.
  lemma LoneEscapeIsText(cfg: Config, c: char)
    requires Sane(cfg) && cfg.escape != '"' && c != '"' && c != cfg.escape && !cfg.trailing
    ensures Parse(cfg, ['"', cfg.escape, c, '"', '\n']) == (Accepted, [Field(0, 0, [cfg.escape, c])])
  {
    hide Run;
    var text := ['"', cfg.escape, c, '"', '\n'];
    assert text[0..] == text;
    var s1 := START.(quoted := true);
    var s2 := s1.(escaping := true);
    var s3 := s1.(field := [cfg.escape, c]);
    var s4 := s3.(quoted := false);
    assert "" + [cfg.escape] + [c] == [cfg.escape, c];
    RunFrom(cfg, START, text, 0);
    RunFrom(cfg, s1, text, 1);
    RunFrom(cfg, s2, text, 2);
    RunFrom(cfg, s3, text, 3);
    RunFrom(cfg, s4, text, 4);
    assert Step(cfg, s4, '\n') == EndRecord(cfg, s4);
    RunNothing(cfg, EndRecord(cfg, s4).state, text[5..]);
    assert [] + [Field(0, 0, [cfg.escape, c])] == [Field(0, 0, [cfg.escape, c])];
  }

  // The fields of a table of n columns, one after the other.
  lemma {:induction false} FieldsOfTable(table: seq<Record>, row: nat, n: nat, r: nat, c: nat)
    requires (forall i :: 0 <= i < |table| ==> |table[i]| == n) && r < |table| && c < n
    ensures 0 <= r * n + c < |TableFields(table, row)| == |table| * n
    ensures TableFields(table, row)[r * n + c] == Field(c, row + r, table[r][c])
    decreases |table|
  {
    FieldsOfRecord(table[0], 0, row, c);
    LengthOfTable(table[1..], row + 1, n);
    if r > 0 {
      FieldsOfTable(table[1..], row + 1, n, r - 1, c);
      assert r * n + c == n + ((r - 1) * n + c);
    }
    assert |table| * n == n + (|table| - 1) * n;
  }

  lemma {:induction false} LengthOfTable(table: seq<Record>, row: nat, n: nat)
    requires forall i :: 0 <= i < |table| ==> |table[i]| == n
    ensures |TableFields(table, row)| == |table| * n
  {
    if table != [] {
      FieldsOfRecord(table[0], 0, row, 0);
      LengthOfTable(table[1..], row + 1, n);
      assert |table| * n == n + (|table| - 1) * n;
    }
  }

  lemma {:induction false} FieldsOfRecord(rec: Record, col: nat, row: nat, c: nat)
    ensures |RecordFields(rec, col, row)| == |rec|
    ensures c < |rec| ==> RecordFields(rec, col, row)[c] == Field(col + c, row, rec[c])
    decreases |rec|
  {
    if rec != [] {
      FieldsOfRecord(rec[1..], col + 1, row, if c > 0 then c - 1 else 0);
    }
  }
}
