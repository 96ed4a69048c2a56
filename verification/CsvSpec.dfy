// The CSV grammar of src/csv_parser.cpp as an automaton that reads one character at a time
// and never looks ahead: a quote that may be doubled, an escape character and a carriage
// return are remembered until the next character comes.
module CsvSpec {

  // With trailing commas every field of a record is followed by one.
  datatype Config = Config(escape: char, comma: char, trailing: bool)

  datatype Field = Field(col: nat, row: nat, text: string)

  datatype State = State(field: string, col: nat, row: nat, numCols: nat, afterFirstRow: bool, quoted: bool,
                         afterFieldSep: bool, afterRecordSep: bool, escaping: bool, newlining: bool, out: seq<Field>)

  // The record has a different number of columns than the first one, or its end does not
  // follow a comma.
  datatype Fault = RaggedRecord | MissingComma

  datatype Outcome = Running(state: State) | Failed(out: seq<Field>, fault: Fault)

  const START: State := State("", 0, 0, 0, false, false, false, false, false, false, [])

  function Text(s: State, c: char): State {
    s.(field := s.field + [c], afterFieldSep := false, afterRecordSep := false)
  }

  function EndField(s: State): State {
    s.(out := s.out + [Field(s.col, s.row, s.field)], field := "", col := s.col + 1, afterFieldSep := true,
       afterRecordSep := false)
  }

  function EndRecord(cfg: Config, s: State): Outcome {
    var cols := if cfg.trailing then s.col else s.col + 1;
    var t := s.(col := 0, row := s.row + 1, numCols := cols, afterFirstRow := true, afterFieldSep := false,
                afterRecordSep := true, newlining := false);
    if cfg.trailing && !s.afterFieldSep then Failed(s.out, MissingComma)
    else if s.afterFirstRow && cols != s.numCols then Failed(s.out, RaggedRecord)
    else Running(if cfg.trailing then t else t.(out := s.out + [Field(s.col, s.row, s.field)], field := ""))
  }

  function Plain(cfg: Config, s: State, c: char): Outcome {
    if c == cfg.comma then Running(if s.quoted then Text(s, c) else EndField(s))
    else if c == '\n' || c == '\r' then
      if s.quoted then Running(Text(s, c))
      else if c == '\r' then Running(s.(newlining := true))
      else EndRecord(cfg, s)
    else if c == '"' then
      if cfg.escape == '"' && s.quoted then Running(s.(escaping := true))
      else Running(s.(quoted := !s.quoted, afterFieldSep := false, afterRecordSep := false))
    else if c == cfg.escape && s.quoted then Running(s.(escaping := true))
    else Running(Text(s, c))
  }

  function Step(cfg: Config, s: State, c: char): Outcome {
    if s.escaping then
      var t := s.(escaping := false);
      if c == '"' || (cfg.escape != '"' && c == cfg.escape) then Running(t.(field := t.field + [c]))
      else if cfg.escape == '"' then Plain(cfg, t.(quoted := false), c)
      else Plain(cfg, t.(field := t.field + [cfg.escape]), c)
    else if s.newlining then
      match EndRecord(cfg, s)
      case Failed(out, fault) => Failed(out, fault)
      case Running(t) => if c == '\n' then Running(t) else Plain(cfg, t, c)
    else Plain(cfg, s, c)
  }

  function Run(cfg: Config, s: State, text: string): Outcome
    decreases |text|
  {
    if text == "" then Running(s)
    else match Step(cfg, s, text[0])
      case Failed(out, fault) => Failed(out, fault)
      case Running(t) => Run(cfg, t, text[1..])
  }

  // Reading on, unless there has been an error.
  function Then(cfg: Config, o: Outcome, text: string): Outcome {
    if o.Running? then Run(cfg, o.state, text) else o
  }

  function RunChunks(cfg: Config, s: State, chunks: seq<string>): Outcome
    decreases |chunks|
  {
    if chunks == [] then Running(s)
    else match Run(cfg, s, chunks[0])
      case Failed(out, fault) => Failed(out, fault)
      case Running(t) => RunChunks(cfg, t, chunks[1..])
  }

  function Join(chunks: seq<string>): string {
    if chunks == [] then "" else chunks[0] + Join(chunks[1..])
  }

  lemma RunFrom(cfg: Config, s: State, text: string, i: nat)
    requires i < |text|
    ensures Run(cfg, s, text[i..]) == Then(cfg, Step(cfg, s, text[i]), text[i + 1..])
  {
    assert text[i..][0] == text[i] && text[i..][1..] == text[i + 1..];
  }

  lemma RunNothing(cfg: Config, s: State, text: string)
    ensures text == "" ==> Run(cfg, s, text) == Running(s)
  {
  }

  lemma {:induction false} RunSplit(cfg: Config, s: State, a: string, b: string)
    ensures Run(cfg, s, a + b) == Then(cfg, Run(cfg, s, a), b)
    decreases |a|
  {
    if a == "" {
      assert a + b == b;
    } else {
      assert (a + b)[1..] == a[1..] + b;
      match Step(cfg, s, a[0])
      case Failed(_, _) =>
      case Running(t) => RunSplit(cfg, t, a[1..], b);
    }
  }

  // However the text is cut into chunks, the fields and the first error are those of the whole.
  lemma {:induction false} ChunksDoNotMatter(cfg: Config, s: State, chunks: seq<string>)
    ensures RunChunks(cfg, s, chunks) == Run(cfg, s, Join(chunks))
    decreases |chunks|
  {
    if chunks != [] {
      RunSplit(cfg, s, chunks[0], Join(chunks[1..]));
      match Run(cfg, s, chunks[0])
      case Failed(_, _) =>
      case Running(t) => ChunksDoNotMatter(cfg, t, chunks[1..]);
    }
  }

  datatype Verdict = Accepted | Unclosed | Ragged | NoComma

  function VerdictOf(fault: Fault): Verdict {
    if fault == RaggedRecord then Ragged else NoComma
  }

  // The end of the text: an open quote is an error, an open record is ended.
  function End(cfg: Config, o: Outcome): (Verdict, seq<Field>) {
    match o
    case Failed(out, fault) => (VerdictOf(fault), out)
    case Running(s) =>
      if s.quoted then (Unclosed, s.out)
      else match if s.newlining then EndRecord(cfg, s) else if s.afterRecordSep then Running(s) else Step(cfg, s, '\n')
        case Failed(out, fault) => (VerdictOf(fault), out)
        case Running(t) => (Accepted, t.out)
  }

  function Parse(cfg: Config, text: string): (Verdict, seq<Field>) {
    End(cfg, Run(cfg, START, text))
  }
}
