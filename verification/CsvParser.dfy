// src/csv_parser.cpp and include/csv_parser.h. on_field is the log `fields`.
module CsvParser {
  import opened CsvSpec
  import opened CsvChunks

  datatype Error = Ok | QuoteNotClosed | InconsistentColumns | NoTrailingComma

  function ErrorOf(fault: Fault): Error {
    if fault == RaggedRecord then InconsistentColumns else NoTrailingComma
  }

  function Answer(e: Error): Verdict {
    match e
    case Ok => Accepted
    case QuoteNotClosed => Unclosed
    case InconsistentColumns => Ragged
    case NoTrailingComma => NoComma
  }

  function Rest(buffer: string, i: nat): string {
    if i <= |buffer| then buffer[i..] else ""
  }

  // Where reading character i of the buffer with a look at the next one leads, and how far it reads.
  function Peek(cfg: Config, s: State, buffer: string, i: nat): (Outcome, nat)
    requires i < |buffer|
  {
    var c := buffer[i];
    var d := if i + 1 < |buffer| then buffer[i + 1] else ' ';
    if c != cfg.comma && c == '\r' && !s.quoted && i + 1 < |buffer| then
      (EndRecord(cfg, s), if d == '\n' then i + 2 else i + 1)
    else if c != cfg.comma && c == '"' && cfg.escape == '"' && s.quoted && i + 1 < |buffer| then
      if d == '"' then (Running(s.(field := s.field + [c])), i + 2) else (Running(s.(quoted := false)), i + 1)
    else if c != cfg.comma && c != '\n' && c != '\r' && c != '"' && c == cfg.escape && s.quoted && i + 1 < |buffer| then
      if d == '"' || d == cfg.escape then (Running(s.(field := s.field + [d])), i + 2)
      else (Running(s.(field := s.field + [c])), i + 1)
    else (Plain(cfg, s, c), i + 1)
  }

  // Reading with lookahead is the automaton without it.
  lemma PeekIsRun(cfg: Config, s: State, buffer: string, i: nat)
    requires i < |buffer| && !s.escaping && !s.newlining
    ensures Peek(cfg, s, buffer, i).1 <= |buffer|
    ensures Run(cfg, s, buffer[i..]) == Then(cfg, Peek(cfg, s, buffer, i).0, buffer[Peek(cfg, s, buffer, i).1..])
  {
    hide Run;
    RunFrom(cfg, s, buffer, i);
    if i + 1 < |buffer| {
      RunFrom(cfg, s.(newlining := true), buffer, i + 1);
      RunFrom(cfg, s.(escaping := true), buffer, i + 1);
      match Peek(cfg, s, buffer, i).0
      case Failed(_, _) =>
      case Running(t) => RunFrom(cfg, t, buffer, i + 1);
    }
  }

  class CSVParser {
    const escape: char
    const comma: char
    const hasTrailingComma: bool
    var currentField: string
    var colIdx: nat
    var rowIdx: nat
    var numCols: nat
    var afterFirstRow: bool
    var quoted: bool
    var afterFieldSep: bool
    var afterRecordSep: bool
    var escaping: bool
    var newlining: bool
    var fields: seq<Field>

    constructor (escape: char, comma: char, hasTrailingComma: bool)
      ensures this.escape == escape && this.comma == comma && this.hasTrailingComma == hasTrailingComma
      ensures Valid() && Current() == START
    {
      this.escape, this.comma, this.hasTrailingComma := escape, comma, hasTrailingComma;
      currentField, colIdx, rowIdx, numCols, fields := "", 0, 0, 0, [];
      afterFirstRow, quoted, afterFieldSep, afterRecordSep, escaping, newlining := false, false, false, false, false, false;
    }

    function Cfg(): Config { Config(escape, comma, hasTrailingComma) }

    // The automaton state these fields stand for.
    function Current(): State
      reads this
    {
      State(currentField, colIdx, rowIdx, numCols, afterFirstRow, quoted, afterFieldSep, afterRecordSep, escaping, newlining,
            fields)
    }

    ghost predicate Valid()
      reads this
    {
      && (escaping ==> quoted)
      && (newlining ==> !quoted)
      && (quoted ==> !afterFieldSep && !afterRecordSep)
    }

    method OnField()
      modifies this`fields, this`currentField
      ensures fields == old(fields) + [Field(colIdx, rowIdx, old(currentField))] && currentField == ""
    {
      fields := fields + [Field(colIdx, rowIdx, currentField)];
      currentField := "";
    }

    // The end of a record, which the source writes out twice: after a deferred '\r' and in
    // the loop. It sets after_record_sep_ at once where the loop does so after the branch.
    method FinishRecord() returns (e: Error)
      requires Valid() && !quoted
      modifies this
      ensures match Deferred(Cfg(), old(Current()))
              case Running(t) => e == Ok && Current() == t
              case Failed(out, fault) => e == ErrorOf(fault) && fields == out
    {
      if hasTrailingComma {
        if !afterFieldSep {
          return NoTrailingComma;
        }
        if !afterFirstRow {
          afterFirstRow := true;
          numCols := colIdx;
        } else if colIdx != numCols {
          return InconsistentColumns;
        }
      } else {
        if !afterFirstRow {
          afterFirstRow := true;
          numCols := colIdx + 1;
        } else if colIdx + 1 != numCols {
          return InconsistentColumns;
        }
        OnField();
      }
      colIdx := 0;
      rowIdx := rowIdx + 1;
      afterRecordSep := true;
      newlining := false;
      return Ok;
    }

    // One iteration of the loop in execute, with its one character of lookahead. `stop` is a
    // return from inside the loop.
    method OneCharacter(buffer: string, i: nat) returns (next: nat, e: Error, stop: bool)
      requires Valid() && !escaping && !newlining && i < |buffer|
      modifies this
      ensures e == Ok ==> Valid() && i < next <= |buffer|
      ensures !stop ==> e == Ok && !escaping && !newlining
      ensures stop && e == Ok ==> next == |buffer|
      ensures match Peek(Cfg(), old(Current()), buffer, i).0
              case Running(t) => e == Ok && Current() == t && next == Peek(Cfg(), old(Current()), buffer, i).1
              case Failed(out, fault) => e == ErrorOf(fault) && fields == out
    {
      next, e, stop := i, Ok, false;
      var setAfterRecordSep, setAfterFieldSep := false, false;
      var c := buffer[i];
      if c != comma && c != '\n' && c != '\r' && c != '"' && c != escape {
        currentField := currentField + [c];
      } else if c == comma {
        if !quoted {
          OnField();
          colIdx := colIdx + 1;
          setAfterFieldSep := true;
        } else {
          currentField := currentField + [c];
        }
      } else if c == '\n' || c == '\r' {
        if !quoted {
          if c == '\r' {
            if i + 1 == |buffer| {
              newlining := true;
              return i + 1, Ok, true;
            }
            if buffer[i + 1] == '\n' {
              next := next + 1;
            }
          }
          e := FinishRecord();
          if e != Ok {
            return next, e, true;
          }
          setAfterRecordSep := true;
        } else {
          currentField := currentField + [c];
        }
      } else if c == '"' {
        if escape == '"' {
          if !quoted {
            quoted := true;
          } else {
            if i + 1 == |buffer| {
              escaping := true;
              return i + 1, Ok, true;
            }
            if buffer[i + 1] == '"' {
              next := next + 1;
              currentField := currentField + [c];
            } else {
              quoted := false;
            }
          }
        } else {
          quoted := !quoted;
        }
      } else {
        if quoted {
          if i + 1 == |buffer| {
            escaping := true;
            return i + 1, Ok, true;
          }
          var d := buffer[i + 1];
          if d == '"' || d == escape {
            currentField := currentField + [d];
            next := next + 1;
          } else {
            currentField := currentField + [escape];
          }
        } else {
          currentField := currentField + [c];
        }
      }
      next := next + 1;
      afterFieldSep := setAfterFieldSep;
      afterRecordSep := setAfterRecordSep;
    }

    // `behind` is what buffer[0] reads when the buffer is empty.
    method Execute(buffer: string, behind: char) returns (e: Error)
      requires Valid()
      modifies this
      ensures e == Ok ==> Valid()
      ensures match Executed(Cfg(), old(Current()), buffer, behind)
              case Running(t) => e == Ok && Current() == t
              case Failed(out, fault) => e == ErrorOf(fault) && fields == out
    {
      hide Run;
      ghost var expected := Executed(Cfg(), Current(), buffer, behind);
      var i: nat := 0;
      if buffer != "" {
        RunFrom(Cfg(), Current(), buffer, 0);
        assert buffer[0..] == buffer;
      }
      if escaping {
        var used := EndEscape(if buffer == "" then behind else buffer[0]);
        if used {
          i := i + 1;
        }
      }
      if newlining {
        if |buffer| > 0 && buffer[0] == '\n' {
          i := i + 1;
        }
        e := FinishRecord();
        if e != Ok {
          return;
        }
      }
      if i < |buffer| {
        RunFrom(Cfg(), Current(), buffer, i);
      }
      RunNothing(Cfg(), Current(), Rest(buffer, i));
      while i < |buffer|
        invariant i <= |buffer| || buffer == ""
        invariant Valid() && !escaping && !newlining
        invariant Run(Cfg(), Current(), Rest(buffer, i)) == expected
      {
        PeekIsRun(Cfg(), Current(), buffer, i);
        var stop;
        i, e, stop := OneCharacter(buffer, i);
        if stop {
          if e == Ok {
            RunNothing(Cfg(), Current(), Rest(buffer, i));
          }
          return;
        }
      }
      RunNothing(Cfg(), Current(), Rest(buffer, i));
      return Ok;
    }

    // The escape that the buffer before left pending; used is whether c belongs to it.
    method EndEscape(c: char) returns (used: bool)
      requires Valid() && escaping
      modifies this`escaping, this`quoted, this`currentField
      ensures Valid() && Current() == Unescaped(Cfg(), old(Current()), c)
      ensures used <==> c == '"' || (escape != '"' && c == escape)
    {
      used := false;
      if escape == '"' {
        if c == '"' {
          used := true;
          currentField := currentField + ['"'];
        } else {
          quoted := false;
        }
      } else if c == '"' || c == escape {
        currentField := currentField + [c];
        used := true;
      } else {
        currentField := currentField + [escape];
      }
      escaping := false;
    }

    method Finish() returns (e: Error)
      requires Valid()
      modifies this
      ensures (Answer(e), fields) == End(Cfg(), Running(old(Current())))
    {
      if quoted {
        return QuoteNotClosed;
      } else if newlining {
        e := Execute("", '\0');
      } else if !afterRecordSep {
        assert "\n"[1..] == "";
        e := Execute("\n", '\0');
      } else {
        return Ok;
      }
    }
  }

  // The parser fed a text in non-empty chunks, stopping at the first error, reports the fields
  // of the whole text and accepts when the automaton does on the whole text. The error is the
  // same too, but with trailing commas a record without fields may be reported as too short
  // where its comma is missing.
  method ParseChunks(cfg: Config, chunks: seq<string>) returns (e: Error, fields: seq<Field>)
    requires forall k :: 0 <= k < |chunks| ==> chunks[k] != ""
    ensures Alike(cfg, (Answer(e), fields), Parse(cfg, Join(chunks)))
  {
    hide Run, Executed, Near, Settled, Step;
    var p := new CSVParser(cfg.escape, cfg.comma, cfg.trailing);
    ChunksDoNotMatter(cfg, START, chunks);
    ghost var whole := RunChunks(cfg, START, chunks);
    var k := 0;
    ghost var t := START;
    NearAtStart(cfg);
    assert chunks[0..] == chunks;
    while k < |chunks|
      invariant 0 <= k <= |chunks| && p.Valid() && p.Cfg() == cfg && fresh(p)
      invariant Near(cfg, p.Current(), t) && Settled(cfg, t) && RunChunks(cfg, t, chunks[k..]) == whole
    {
      assert chunks[k..][0] == chunks[k] && chunks[k..][1..] == chunks[k + 1..];
      ExecutedIsNear(cfg, p.Current(), t, chunks[k], '\0');
      SettledRun(cfg, t, chunks[k]);
      e := p.Execute(chunks[k], '\0');
      if e != Ok {
        return e, p.fields;
      }
      t := Run(cfg, t, chunks[k]).state;
      k := k + 1;
    }
    NearEnd(cfg, p.Current(), t);
    e := p.Finish();
    fields := p.fields;
  }

  // The input: "a," and an empty record without a comma, cut after the first carriage return.
  method CutChangesError(escape: char) returns (whole: Error, cut: Error)
    requires escape != ',' && escape != '\r' && escape != 'a'
    ensures whole == NoTrailingComma && cut == InconsistentColumns
  {
    hide Executed, Step;
    var cfg := Config(escape, ',', true);
    AfterFirstRecord(cfg);
    var one := new CSVParser(escape, ',', true);
    whole := one.Execute("a,\r\rb", '\0');
    var two := new CSVParser(escape, ',', true);
    cut := two.Execute("a,\r", '\0');
    cut := two.Execute("\rb", '\0');
  }

  // The input: a doubled quote cut in two, with an empty buffer between the halves.
  method EmptyChunkEndsQuote() returns (whole: string, cut: string)
    ensures whole == "a\"b" && cut == "ab"
  {
    hide Executed, Step;
    var cfg := Config('"', ',', false);
    DoubledQuote(cfg);
    var one := new CSVParser('"', ',', false);
    var e := one.Execute("\"a\"\"b\"\n", '\0');
    whole := one.fields[0].text;
    var two := new CSVParser('"', ',', false);
    e := two.Execute("\"a\"", '\0');
    e := two.Execute("", '\0');
    e := two.Execute("\"b\"\n", '\0');
    cut := two.fields[0].text;
  }
}
