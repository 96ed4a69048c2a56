// Printing a table with quoted fields and reading it back (src/csv_parser.cpp). One escape
// character serves both dialects: a backslash, or the quote itself, which doubles quotes as
// section 2 of RFC 4180 asks.
module CsvRoundTrip {
  import opened CsvSpec

  predicate Sane(cfg: Config) {
    && cfg.comma != '"' && cfg.comma != '\n' && cfg.comma != '\r' && cfg.comma != cfg.escape
    && cfg.escape != '\n' && cfg.escape != '\r'
  }

  type Record = seq<string>

  function Escaped(cfg: Config, text: string): string {
    if text == "" then ""
    else (if text[0] == '"' || text[0] == cfg.escape then [cfg.escape, text[0]] else [text[0]]) + Escaped(cfg, text[1..])
  }

  function PrintField(cfg: Config, text: string): string {
    "\"" + Escaped(cfg, text) + "\""
  }

  // The end of a record after its last field.
  function LineEnd(cfg: Config): string {
    if cfg.trailing then [cfg.comma, '\n'] else "\n"
  }

  function PrintRecord(cfg: Config, rec: Record): string
    requires rec != []
  {
    if |rec| == 1 then PrintField(cfg, rec[0]) + LineEnd(cfg)
    else PrintField(cfg, rec[0]) + [cfg.comma] + PrintRecord(cfg, rec[1..])
  }

  function PrintTable(cfg: Config, table: seq<Record>): string
    requires forall r :: 0 <= r < |table| ==> table[r] != []
  {
    if table == [] then "" else PrintRecord(cfg, table[0]) + PrintTable(cfg, table[1..])
  }

  function RecordFields(rec: Record, col: nat, row: nat): seq<Field> {
    if rec == [] then [] else [Field(col, row, rec[0])] + RecordFields(rec[1..], col + 1, row)
  }

  function TableFields(table: seq<Record>, row: nat): seq<Field> {
    if table == [] then [] else RecordFields(table[0], 0, row) + TableFields(table[1..], row + 1)
  }

  predicate Clean(s: State) {
    !s.quoted && !s.escaping && !s.newlining && s.field == ""
  }

  // After the closing quote: with the quote as escape it is not yet known to be closing.
  function Closed(cfg: Config, s: State, text: string): State {
    s.(field := text, quoted := cfg.escape == '"', escaping := cfg.escape == '"', afterFieldSep := false,
       afterRecordSep := false)
  }

  lemma {:induction false} RunEscaped(cfg: Config, s: State, text: string)
    requires Sane(cfg) && s.quoted && !s.escaping && !s.newlining && !s.afterRecordSep && !s.afterFieldSep
    ensures Run(cfg, s, Escaped(cfg, text)) == Running(s.(field := s.field + text))
    decreases |text|
  {
    if text == "" {
      assert s.field + "" == s.field;
    } else {
      hide Run;
      var c := text[0];
      var head := if c == '"' || c == cfg.escape then [cfg.escape, c] else [c];
      var next := s.(field := s.field + [c]);
      RunEscapedChar(cfg, s, c);
      RunSplit(cfg, s, head, Escaped(cfg, text[1..]));
      RunEscaped(cfg, next, text[1..]);
      assert next.field + text[1..] == s.field + text;
    }
  }

  lemma RunEscapedChar(cfg: Config, s: State, c: char)
    requires Sane(cfg) && s.quoted && !s.escaping && !s.newlining && !s.afterRecordSep && !s.afterFieldSep
    ensures Run(cfg, s, if c == '"' || c == cfg.escape then [cfg.escape, c] else [c]) == Running(s.(field := s.field + [c]))
  {
    hide Run;
    if c == '"' || c == cfg.escape {
      RunOne(cfg, s, cfg.escape);
      assert [cfg.escape] + [c] == [cfg.escape, c];
      RunSplit(cfg, s, [cfg.escape], [c]);
      RunOne(cfg, s.(escaping := true), c);
    } else {
      RunOne(cfg, s, c);
    }
  }

  lemma RunField(cfg: Config, s: State, text: string)
    requires Sane(cfg) && Clean(s)
    ensures Run(cfg, s, PrintField(cfg, text)) == Running(Closed(cfg, s, text))
  {
    hide Run, Escaped;
    var open := s.(quoted := true, afterFieldSep := false, afterRecordSep := false);
    RunOne(cfg, s, '"');
    RunSplit(cfg, s, "\"", Escaped(cfg, text));
    RunEscaped(cfg, open, text);
    assert "" + text == text;
    RunSplit(cfg, s, "\"" + Escaped(cfg, text), "\"");
    RunOne(cfg, open.(field := text), '"');
  }

  lemma RunOne(cfg: Config, s: State, c: char)
    ensures Run(cfg, s, [c]) == Step(cfg, s, c)
  {
    assert [c][1..] == "";
  }

  // A printed field and the separator or newline after it.
  lemma RunFieldAnd(cfg: Config, s: State, text: string, sep: char)
    requires Sane(cfg) && Clean(s) && (sep == cfg.comma || sep == '\n')
    ensures Run(cfg, s, PrintField(cfg, text) + [sep]) ==
            if sep == cfg.comma then Running(EndField(s.(field := text)))
            else EndRecord(cfg, s.(field := text, afterFieldSep := false))
  {
    hide Run, Escaped;
    RunField(cfg, s, text);
    RunSplit(cfg, s, PrintField(cfg, text), [sep]);
    RunOne(cfg, Closed(cfg, s, text), sep);
  }

  function AfterRecord(s: State, rec: Record): State {
    s.(out := s.out + RecordFields(rec, s.col, s.row), col := 0, row := s.row + 1,
       numCols := s.col + |rec|, afterFirstRow := true, afterFieldSep := false, afterRecordSep := true)
  }

  // The last field of a record and the end of the record.
  lemma RunLastField(cfg: Config, s: State, text: string)
    requires Sane(cfg) && Clean(s) && (s.afterFirstRow ==> s.col + 1 == s.numCols)
    ensures Run(cfg, s, PrintField(cfg, text) + LineEnd(cfg)) == Running(AfterRecord(s, [text]))
  {
    hide Run, Escaped, PrintField;
    assert RecordFields([text], s.col, s.row) == [Field(s.col, s.row, text)];
    if cfg.trailing {
      var f := PrintField(cfg, text);
      assert f + LineEnd(cfg) == (f + [cfg.comma]) + "\n";
      RunSplit(cfg, s, f + [cfg.comma], "\n");
      RunFieldAnd(cfg, s, text, cfg.comma);
      RunOne(cfg, EndField(s.(field := text)), '\n');
    } else {
      RunFieldAnd(cfg, s, text, '\n');
    }
  }

  lemma AfterFirstField(s: State, rec: Record)
    requires Clean(s) && |rec| > 1 && (s.afterFirstRow ==> s.col + |rec| == s.numCols)
    ensures var t := EndField(s.(field := rec[0]));
            && Clean(t) && (t.afterFirstRow ==> t.col + |rec[1..]| == t.numCols)
            && AfterRecord(t, rec[1..]) == AfterRecord(s, rec)
  {
    var t := EndField(s.(field := rec[0]));
    assert t.out + RecordFields(rec[1..], t.col, t.row) == s.out + RecordFields(rec, s.col, s.row);
  }

  lemma {:induction false} RunRecord(cfg: Config, s: State, rec: Record)
    requires Sane(cfg) && Clean(s) && rec != []
    requires s.afterFirstRow ==> s.col + |rec| == s.numCols
    ensures Run(cfg, s, PrintRecord(cfg, rec)) == Running(AfterRecord(s, rec))
    decreases |rec|
  {
    hide Run, PrintField, AfterRecord, EndField, Clean, LineEnd;
    if |rec| == 1 {
      RunLastField(cfg, s, rec[0]);
      assert rec == [rec[0]];
    } else {
      var f := PrintField(cfg, rec[0]);
      RunFieldAnd(cfg, s, rec[0], cfg.comma);
      RunSplit(cfg, s, f + [cfg.comma], PrintRecord(cfg, rec[1..]));
      AfterFirstField(s, rec);
      RunRecord(cfg, EndField(s.(field := rec[0])), rec[1..]);
    }
  }

  lemma AfterRecordFacts(s: State, rec: Record)
    requires Clean(s)
    ensures var t := AfterRecord(s, rec);
            && Clean(t) && t.col == 0 && t.row == s.row + 1 && t.numCols == s.col + |rec| && t.afterFirstRow && t.afterRecordSep
            && t.out == s.out + RecordFields(rec, s.col, s.row)
  {
  }

  function AfterTable(s: State, table: seq<Record>): State
    decreases |table|
  {
    if table == [] then s else AfterTable(AfterRecord(s, table[0]), table[1..])
  }

  lemma {:induction false} AfterTableFacts(s: State, table: seq<Record>, n: nat)
    requires Clean(s) && s.col == 0 && forall r :: 0 <= r < |table| ==> |table[r]| == n
    requires s.afterFirstRow ==> s.numCols == n
    ensures var t := AfterTable(s, table);
            && Clean(t) && t.col == 0 && t.row == s.row + |table| && t.out == s.out + TableFields(table, s.row)
            && (t.afterFirstRow ==> t.numCols == n) && (table != [] ==> t.afterRecordSep)
    decreases |table|
  {
    if table == [] {
      assert s.out + [] == s.out;
    } else {
      hide Clean, AfterRecord, RecordFields;
      AfterRecordFacts(s, table[0]);
      var t, fields := AfterRecord(s, table[0]), RecordFields(table[0], 0, s.row);
      AfterTableFacts(t, table[1..], n);
      assert s.out + fields + TableFields(table[1..], t.row) == s.out + (fields + TableFields(table[1..], t.row));
    }
  }

  lemma {:induction false} RunTable(cfg: Config, s: State, table: seq<Record>, n: nat)
    requires Sane(cfg) && Clean(s) && s.col == 0 && 0 < n
    requires forall r :: 0 <= r < |table| ==> |table[r]| == n
    requires s.afterFirstRow ==> s.numCols == n
    ensures Run(cfg, s, PrintTable(cfg, table)) == Running(AfterTable(s, table))
    decreases |table|
  {
    hide Run, PrintRecord, Clean, AfterRecord;
    if table == [] {
      RunNothing(cfg, s, PrintTable(cfg, table));
    } else {
      AfterRecordFacts(s, table[0]);
      RunRecord(cfg, s, table[0]);
      RunSplit(cfg, s, PrintRecord(cfg, table[0]), PrintTable(cfg, table[1..]));
      RunTable(cfg, AfterRecord(s, table[0]), table[1..], n);
    }
  }

  // Every non-empty rectangular table, with any field contents, is read back cell by cell.
  lemma PrintedTableIsReadBack(cfg: Config, table: seq<Record>)
    requires Sane(cfg) && table != [] && table[0] != []
    requires forall r :: 0 <= r < |table| ==> |table[r]| == |table[0]|
    ensures Parse(cfg, PrintTable(cfg, table)) == (Accepted, TableFields(table, 0))
  {
    hide Run, PrintTable, AfterTable;
    RunTable(cfg, START, table, |table[0]|);
    AfterTableFacts(START, table, |table[0]|);
    assert [] + TableFields(table, 0) == TableFields(table, 0);
  }

  // Printing no records at all is not read back: the empty text is one empty field, or with
  // trailing commas an error.
  lemma EmptyTextIsOneField(cfg: Config)
    requires Sane(cfg)
    ensures Parse(cfg, PrintTable(cfg, [])) == if cfg.trailing then (NoComma, []) else (Accepted, [Field(0, 0, "")])
  {
    assert PrintTable(cfg, []) == "";
    RunNothing(cfg, START, "");
    assert [] + [Field(0, 0, "")] == [Field(0, 0, "")];
  }

  lemma EndOfClosed(cfg: Config, s: State, text: string)
    requires Sane(cfg) && !cfg.trailing && Clean(s) && (s.afterFirstRow ==> s.col + 1 == s.numCols)
    ensures End(cfg, Running(Closed(cfg, s, text))) ==
            if cfg.escape == '"' then (Unclosed, s.out) else (Accepted, s.out + [Field(s.col, s.row, text)])
  {
  }

  // A record without its newline.
  function PrintOpenRecord(cfg: Config, rec: Record): string
    requires rec != []
  {
    if |rec| == 1 then PrintField(cfg, rec[0])
    else PrintField(cfg, rec[0]) + [cfg.comma] + PrintOpenRecord(cfg, rec[1..])
  }

  lemma {:induction false} RunOpenRecord(cfg: Config, s: State, rec: Record)
    requires Sane(cfg) && Clean(s) && rec != []
    ensures var n := |rec| - 1;
            Run(cfg, s, PrintOpenRecord(cfg, rec)) ==
            Running(Closed(cfg, s.(out := s.out + RecordFields(rec[..n], s.col, s.row), col := s.col + n), rec[n]))
    decreases |rec|
  {
    hide Run, Escaped, PrintField;
    if |rec| == 1 {
      RunField(cfg, s, rec[0]);
      assert s.out + RecordFields(rec[..0], s.col, s.row) == s.out;
    } else {
      RunFieldAnd(cfg, s, rec[0], cfg.comma);
      RunSplit(cfg, s, PrintField(cfg, rec[0]) + [cfg.comma], PrintOpenRecord(cfg, rec[1..]));
      var t := EndField(s.(field := rec[0]));
      RunOpenRecord(cfg, t, rec[1..]);
      var n := |rec| - 1;
      assert rec[1..][..n - 1] == rec[..n][1..];
      assert t.out + RecordFields(rec[..n][1..], t.col, t.row) == s.out + RecordFields(rec[..n], s.col, s.row);
      assert !Closed(cfg, t, rec[n]).afterRecordSep && !Closed(cfg, t, rec[n]).afterFieldSep;
    }
  }

  lemma {:induction false} RecordFieldsSplit(rec: Record, col: nat, row: nat)
    requires rec != []
    ensures var n := |rec| - 1;
            RecordFields(rec, col, row) == RecordFields(rec[..n], col, row) + [Field(col + n, row, rec[n])]
    decreases |rec|
  {
    if |rec| > 1 {
      RecordFieldsSplit(rec[1..], col + 1, row);
      assert rec[1..][..|rec| - 2] == rec[..|rec| - 1][1..];
    }
  }

  // The last record needs its newline exactly when the quote is the escape character: its
  // closing quote then waits for a next character, and the end of the text reports it open.
  lemma LastNewlineIsNeeded(cfg: Config, table: seq<Record>, last: Record)
    requires Sane(cfg) && !cfg.trailing && last != []
    requires forall r :: 0 <= r < |table| ==> |table[r]| == |last|
    ensures var (v, fields) := Parse(cfg, PrintTable(cfg, table) + PrintOpenRecord(cfg, last));
            && (v == Accepted <==> cfg.escape != '"')
            && (v == Accepted ==> fields == TableFields(table, 0) + RecordFields(last, 0, |table|))
            && (v != Accepted ==> v == Unclosed)
  {
    hide Run, PrintField, PrintTable, PrintOpenRecord, RecordFields, TableFields, AfterTable, Step, End;
    RunTable(cfg, START, table, |last|);
    AfterTableFacts(START, table, |last|);
    var s := AfterTable(START, table);
    RunSplit(cfg, START, PrintTable(cfg, table), PrintOpenRecord(cfg, last));
    RunOpenRecord(cfg, s, last);
    var n := |last| - 1;
    EndOfClosed(cfg, s.(out := s.out + RecordFields(last[..n], 0, |table|), col := n), last[n]);
    RecordFieldsSplit(last, 0, |table|);
    assert TableFields(table, 0) + RecordFields(last, 0, |table|) ==
           [] + TableFields(table, 0) + RecordFields(last[..n], 0, |table|) + [Field(n, |table|, last[n])];
  }
}
