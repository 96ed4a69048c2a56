// What a cut between two buffers changes in src/csv_parser.cpp. A carriage return at the end
// of a buffer is dealt with at the start of the next one, and there after_field_sep_ is not
// reset. The difference shows with trailing commas only, as another error.
module CsvChunks {
  import opened CsvSpec

  // The end of a record that a '\r' left open, which keeps after_field_sep_.
  function Deferred(cfg: Config, s: State): Outcome {
    match EndRecord(cfg, s)
    case Failed(out, fault) => Failed(out, fault)
    case Running(t) => Running(t.(afterFieldSep := s.afterFieldSep))
  }

  function WithoutNewline(text: string): string {
    if text != "" && text[0] == '\n' then text[1..] else text
  }

  // The character after a quote or an escape at the end of a buffer.
  function Unescaped(cfg: Config, s: State, c: char): State {
    var t := s.(escaping := false);
    if cfg.escape == '"' then if c == '"' then t.(field := t.field + [c]) else t.(quoted := false)
    else t.(field := t.field + [if c == '"' || c == cfg.escape then c else cfg.escape])
  }

  // What execute makes of a buffer. Even an empty one ends a record that a '\r' left open; and
  // with an escape pending buffer[0] is read without a test of len, so that `behind`, whatever
  // lies behind an empty buffer, counts.
  function Executed(cfg: Config, s: State, buffer: string, behind: char): Outcome {
    if s.escaping && buffer == "" then Running(Unescaped(cfg, s, behind))
    else if !s.newlining then Run(cfg, s, buffer)
    else Then(cfg, Deferred(cfg, s), WithoutNewline(buffer))
  }

  // An empty buffer changes nothing if and only if neither a carriage return nor a quote or an
  // escape is pending.
  lemma EmptyChunk(cfg: Config, s: State, behind: char)
    ensures Executed(cfg, s, "", behind) == Running(s) <==> !s.newlining && !s.escaping
  {
    RunNothing(cfg, s, "");
  }

  // What every reachable state of the automaton keeps.
  predicate Settled(cfg: Config, s: State) {
    && (s.escaping ==> s.quoted)
    && (s.newlining ==> !s.quoted)
    && (s.quoted ==> !s.afterFieldSep && !s.afterRecordSep)
    && (s.afterFieldSep ==> s.col > 0)
    && (cfg.trailing && s.afterFirstRow ==> s.numCols > 0)
  }

  // s is t, but for an after_field_sep_ that was kept after the end of a record.
  predicate Near(cfg: Config, s: State, t: State) {
    && s.(afterFieldSep := t.afterFieldSep) == t
    && (cfg.trailing && s.afterFieldSep != t.afterFieldSep ==>
          s.afterFieldSep && s.col == 0 && s.afterRecordSep && s.afterFirstRow && !s.quoted)
  }

  // The same error, or a record that is too short where the comma before its end is missing.
  predicate SameFault(cfg: Config, f: Fault, g: Fault) {
    f == g || (cfg.trailing && f == RaggedRecord && g == MissingComma)
  }

  predicate NearOutcomes(cfg: Config, o: Outcome, p: Outcome) {
    if o.Running? then p.Running? && Near(cfg, o.state, p.state)
    else p.Failed? && o.out == p.out && SameFault(cfg, o.fault, p.fault)
  }

  // The same answer, but for those two errors.
  predicate Alike(cfg: Config, a: (Verdict, seq<Field>), b: (Verdict, seq<Field>)) {
    a.1 == b.1 && (a.0 == b.0 || (cfg.trailing && a.0 == Ragged && b.0 == NoComma))
  }

  lemma SettledStep(cfg: Config, s: State, c: char)
    requires Settled(cfg, s)
    ensures Step(cfg, s, c).Running? ==> Settled(cfg, Step(cfg, s, c).state)
  {
  }

  lemma {:induction false} SettledRun(cfg: Config, s: State, text: string)
    requires Settled(cfg, s)
    ensures Run(cfg, s, text).Running? ==> Settled(cfg, Run(cfg, s, text).state)
    decreases |text|
  {
    hide Settled, Step;
    if text != "" {
      SettledStep(cfg, s, text[0]);
      if Step(cfg, s, text[0]).Running? {
        SettledRun(cfg, Step(cfg, s, text[0]).state, text[1..]);
      }
    }
  }

  lemma NearEndRecord(cfg: Config, s: State, t: State)
    requires Near(cfg, s, t) && Settled(cfg, t) && !t.quoted
    ensures NearOutcomes(cfg, EndRecord(cfg, s), EndRecord(cfg, t))
    ensures EndRecord(cfg, t).Running? ==> EndRecord(cfg, s) == EndRecord(cfg, t) || !cfg.trailing
    ensures EndRecord(cfg, t).Running? ==> !EndRecord(cfg, t).state.newlining && Settled(cfg, EndRecord(cfg, t).state)
  {
  }

  lemma NearPlain(cfg: Config, s: State, t: State, c: char)
    requires Near(cfg, s, t) && Settled(cfg, t)
    ensures NearOutcomes(cfg, Plain(cfg, s, c), Plain(cfg, t, c))
  {
    hide EndRecord;
    if !t.quoted {
      NearEndRecord(cfg, s, t);
    }
  }

  lemma NearStep(cfg: Config, s: State, t: State, c: char)
    requires Near(cfg, s, t) && Settled(cfg, t)
    ensures NearOutcomes(cfg, Step(cfg, s, c), Step(cfg, t, c))
  {
    hide Plain, EndRecord;
    if s.escaping {
      var s', t' := s.(escaping := false), t.(escaping := false);
      NearPlain(cfg, s'.(quoted := false), t'.(quoted := false), c);
      NearPlain(cfg, s'.(field := s.field + [cfg.escape]), t'.(field := t.field + [cfg.escape]), c);
    } else if s.newlining {
      NearEndRecord(cfg, s, t);
      var o, p := EndRecord(cfg, s), EndRecord(cfg, t);
      if o.Running? {
        NearPlain(cfg, o.state, p.state, c);
      }
    } else {
      NearPlain(cfg, s, t, c);
    }
  }

  lemma {:induction false} NearRun(cfg: Config, s: State, t: State, text: string)
    requires Near(cfg, s, t) && Settled(cfg, t)
    ensures NearOutcomes(cfg, Run(cfg, s, text), Run(cfg, t, text))
    decreases |text|
  {
    hide Near, Settled, Step;
    if text != "" {
      NearStep(cfg, s, t, text[0]);
      SettledStep(cfg, t, text[0]);
      var o, p := Step(cfg, s, text[0]), Step(cfg, t, text[0]);
      if o.Running? {
        NearRun(cfg, o.state, p.state, text[1..]);
      }
    }
  }

  // Ending the record first and then reading on is reading the next character.
  lemma DeferredRun(cfg: Config, t: State, text: string)
    requires t.newlining && !t.escaping && text != ""
    ensures Run(cfg, t, text) == Then(cfg, EndRecord(cfg, t), WithoutNewline(text))
  {
    var o := EndRecord(cfg, t);
    assert o.Running? && text[0] != '\n' ==> Step(cfg, t, text[0]) == Step(cfg, o.state, text[0]);
  }

  lemma ExecutedIsNear(cfg: Config, s: State, t: State, buffer: string, behind: char)
    requires Near(cfg, s, t) && Settled(cfg, t) && buffer != ""
    ensures NearOutcomes(cfg, Executed(cfg, s, buffer, behind), Run(cfg, t, buffer))
  {
    hide Run, Step;
    if s.newlining {
      DeferredRun(cfg, t, buffer);
      var o, p := Deferred(cfg, s), EndRecord(cfg, t);
      if o.Running? {
        NearRun(cfg, o.state, p.state, WithoutNewline(buffer));
      }
    } else {
      NearRun(cfg, s, t, buffer);
    }
  }

  lemma NearEnd(cfg: Config, s: State, t: State)
    requires Near(cfg, s, t) && Settled(cfg, t)
    ensures Alike(cfg, End(cfg, Running(s)), End(cfg, Running(t)))
  {
  }

  predicate StartsWithNewline(text: string) {
    text != "" && (text[0] == '\n' || text[0] == '\r')
  }

  // A buffer cut after a '\r' with trailing commas: the rest gives the answer of the uncut
  // text if and only if the record is in error anyway, or what follows the line break, whose
  // '\n' may be in the rest, is no further line break.
  lemma CutAfterReturn(cfg: Config, s: State, rest: string, behind: char)
    requires cfg.trailing && Settled(cfg, s) && s.newlining && rest != "" && cfg.comma != '\n' && cfg.comma != '\r'
    ensures End(cfg, Executed(cfg, s, rest, behind)) == End(cfg, Run(cfg, s, rest)) <==>
            EndRecord(cfg, s).Failed? || !StartsWithNewline(WithoutNewline(rest))
  {
    hide Run, Step, End;
    DeferredRun(cfg, s, rest);
    if EndRecord(cfg, s).Running? {
      AfterKeptFlag(cfg, EndRecord(cfg, s).state, WithoutNewline(rest));
    }
  }

  // After the end of a record, with the flag kept and with it reset.
  lemma AfterKeptFlag(cfg: Config, t: State, text: string)
    requires cfg.trailing && t.col == 0 && t.afterFirstRow && t.numCols > 0 && t.afterRecordSep && !t.afterFieldSep
    requires !t.quoted && !t.escaping && !t.newlining && cfg.comma != '\n' && cfg.comma != '\r'
    ensures End(cfg, Run(cfg, t.(afterFieldSep := true), text)) == End(cfg, Run(cfg, t, text)) <==> !StartsWithNewline(text)
  {
    var s := t.(afterFieldSep := true);
    if text != "" {
      if text[0] == '\r' {
        ReturnAfterKeptFlag(cfg, t, text);
      } else if text[0] != '\n' {
        assert Step(cfg, s, text[0]) == Step(cfg, t, text[0]);
      }
    }
  }

  lemma ReturnAfterKeptFlag(cfg: Config, t: State, text: string)
    requires cfg.trailing && t.col == 0 && t.afterFirstRow && t.numCols > 0 && t.afterRecordSep && !t.afterFieldSep
    requires !t.quoted && !t.escaping && !t.newlining && text != "" && text[0] == '\r' && cfg.comma != '\r'
    ensures End(cfg, Run(cfg, t.(afterFieldSep := true), text)).0 == Ragged && End(cfg, Run(cfg, t, text)).0 == NoComma
  {
    var s := t.(afterFieldSep := true);
    if |text| > 1 {
      DeferredRun(cfg, s.(newlining := true), text[1..]);
      DeferredRun(cfg, t.(newlining := true), text[1..]);
    }
  }

  lemma NearAtStart(cfg: Config)
    ensures Near(cfg, START, START) && Settled(cfg, START)
  {
  }

  // "a," and a carriage return, cut or not, before another carriage return.
  lemma AfterFirstRecord(cfg: Config)
    requires cfg.trailing && cfg.comma == ',' && cfg.escape != ',' && cfg.escape != '\r' && cfg.escape != 'a'
    ensures Executed(cfg, START, "a,\r\rb", '\0') == Failed([Field(0, 0, "a")], MissingComma)
    ensures var o := Executed(cfg, START, "a,\r", '\0');
            o.Running? && Executed(cfg, o.state, "\rb", '\0') == Failed([Field(0, 0, "a")], RaggedRecord)
  {
    hide Run, Step;
    assert "a,\r\rb" == "a,\r" + "\rb";
    RunSplit(cfg, START, "a,\r", "\rb");
    var s := ReadFirst(cfg);
    DeferredRun(cfg, s, "\rb");
    var t := EndRecord(cfg, s).state;
    BReturn(cfg, t);
    BReturn(cfg, t.(afterFieldSep := true));
  }

  lemma ReadFirst(cfg: Config) returns (s: State)
    requires cfg.trailing && cfg.comma == ',' && cfg.escape != ',' && cfg.escape != '\r' && cfg.escape != 'a'
    ensures Run(cfg, START, "a,\r") == Running(s)
    ensures s == START.(col := 1, afterFieldSep := true, newlining := true, out := [Field(0, 0, "a")])
  {
    var a := START.(field := "a");
    var b := EndField(a);
    s := b.(newlining := true);
    assert Step(cfg, START, 'a') == Running(a) && Step(cfg, a, ',') == Running(b) && Step(cfg, b, '\r') == Running(s);
    assert "a,\r"[1..] == ",\r" && ",\r"[1..] == "\r" && "\r"[1..] == "";
  }

  // An empty record before b.
  lemma BReturn(cfg: Config, t: State)
    requires cfg.trailing && cfg.comma != '\r' && !t.quoted && !t.escaping && !t.newlining
    requires t.afterFirstRow && t.col != t.numCols
    ensures Run(cfg, t, "\rb") == Failed(t.out, if t.afterFieldSep then RaggedRecord else MissingComma)
  {
    assert Step(cfg, t, '\r') == Running(t.(newlining := true));
    assert "\rb"[1..] == "b";
  }

  // A field with a doubled quote, and the same with an empty buffer between the two quotes.
  lemma DoubledQuote(cfg: Config)
    requires cfg == Config('"', ',', false)
    ensures var o := Executed(cfg, START, "\"a\"\"b\"\n", '\0');
            o.Running? && o.state.out == [Field(0, 0, "a\"b")]
    ensures var o := Executed(cfg, START, "\"a\"", '\0');
            && o.Running?
            && var p := Executed(cfg, o.state, "", '\0');
               && p.Running?
               && var q := Executed(cfg, p.state, "\"b\"\n", '\0');
                  q.Running? && q.state.out == [Field(0, 0, "ab")]
  {
    hide Run;
    var open := START.(quoted := true, field := "a");
    var pending := open.(escaping := true);
    var tail := "\"b\"\n";
    assert "\"a\"\"b\"\n" == "\"a\"" + tail;
    RunSplit(cfg, START, "\"a\"", tail);
    QuotedA(cfg);
    assert "a" + ['"'] == "a\"" && "a\"" + ['b'] == "a\"b" && "a" + ['b'] == "ab";
    QuotedB(cfg, pending, open.(field := "a\""));
    QuotedB(cfg, open.(quoted := false), open);
  }

  lemma QuotedA(cfg: Config)
    requires cfg == Config('"', ',', false)
    ensures Run(cfg, START, "\"a\"") == Running(START.(quoted := true, field := "a", escaping := true))
  {
    hide Run;
    var text := "\"a\"";
    var s1 := START.(quoted := true);
    var s2 := s1.(field := "a");
    assert "" + ['a'] == "a";
    RunFrom(cfg, START, text, 0);
    RunFrom(cfg, s1, text, 1);
    RunFrom(cfg, s2, text, 2);
    RunNothing(cfg, s2.(escaping := true), text[3..]);
    assert text[0..] == text;
  }

  // "b" and a newline, where the first quote leads to s.
  lemma QuotedB(cfg: Config, before: State, s: State)
    requires cfg == Config('"', ',', false) && Step(cfg, before, '"') == Running(s)
    requires s == START.(quoted := true, field := s.field)
    ensures var o := Run(cfg, before, "\"b\"\n");
            o.Running? && o.state.out == [Field(0, 0, s.field + ['b'])]
  {
    hide Run;
    var text := "\"b\"\n";
    var b := s.(field := s.field + ['b']);
    var c := b.(escaping := true);
    RunFrom(cfg, before, text, 0);
    RunFrom(cfg, s, text, 1);
    RunFrom(cfg, b, text, 2);
    RunFrom(cfg, c, text, 3);
    RunNothing(cfg, EndRecord(cfg, b.(quoted := false)).state, text[4..]);
    assert text[0..] == text;
  }
}
