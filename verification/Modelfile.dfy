/** Modelfiles: printing a list of commands and parsing it back, rune by rune. */
module Modelfile {

  datatype Command = Command(name: string, args: string)

  datatype State = Nil | Name | Value | Parameter | Message | Comment

  datatype Error = InvalidCommand | InvalidMessageRole | UnexpectedEof | MissingFrom

  /** The Unicode tables the parser consults: printable runes, and the runes that trimming removes. */
  datatype Tables = Tables(isPrint: char -> bool, isTrimmed: char -> bool) {
    /** They agree with ASCII. */
    ghost predicate Valid() {
      && (forall c: char | c < 128 as char :: isPrint(c) <==> ' ' <= c <= '~')
      && (forall c: char | c < 128 as char :: isTrimmed(c) <==> c == ' ' || ('\t' <= c <= '\r'))
    }
  }

  const NUL: char := 0 as char

  // ----- Character classes -----

  predicate IsAlpha(r: char) {
    'a' <= r <= 'z' || 'A' <= r <= 'Z'
  }

  predicate IsNumber(r: char) {
    '0' <= r <= '9'
  }

  predicate IsSpace(r: char) {
    r == ' ' || r == '\t'
  }

  predicate IsNewline(r: char) {
    r == '\r' || r == '\n'
  }

  function LowerChar(c: char): char {
    if 'A' <= c <= 'Z' then c + 32 as char else c
  }

  function ToLower(s: string): (r: string)
    ensures |r| == |s|
  {
    seq(|s|, i requires 0 <= i < |s| => LowerChar(s[i]))
  }

  predicate IsValidRole(role: string) {
    role == "system" || role == "user" || role == "assistant"
  }

  predicate IsValidCommand(name: string) {
    ToLower(name) in ["from", "license", "template", "system", "adapter", "renderer", "parser", "parameter", "message"]
  }

  // ----- Trimming and quoting -----

  function TrimLeft(t: Tables, s: string): string {
    if s != "" && t.isTrimmed(s[0]) then TrimLeft(t, s[1..]) else s
  }

  function TrimRight(t: Tables, s: string): string {
    if s != "" && t.isTrimmed(s[|s| - 1]) then TrimRight(t, s[..|s| - 1]) else s
  }

  function Trim(t: Tables, s: string): string {
    TrimRight(t, TrimLeft(t, s))
  }

  const QUOTE: char := '"'
  const TRIPLE: string := "\"\"\""

  predicate StartsWith(s: string, prefix: string) {
    |prefix| <= |s| && s[..|prefix|] == prefix
  }

  predicate EndsWith(s: string, suffix: string) {
    |suffix| <= |s| && s[|s| - |suffix|..] == suffix
  }

  predicate NeedsQuotes(s: string) {
    '\n' in s || StartsWith(s, " ") || EndsWith(s, " ")
  }

  function Quote(s: string): string {
    if NeedsQuotes(s) then
      if QUOTE in s then TRIPLE + s + TRIPLE else [QUOTE] + s + [QUOTE]
    else s
  }

  datatype Unquoted = Open | Closed(text: string)

  /** The text inside the quotes, the text itself without quotes, or Open when a quote is not closed. */
  function Unquote(s: string): Unquoted {
    if StartsWith(s, TRIPLE) then
      if |s| >= 6 && EndsWith(s, TRIPLE) then Closed(s[3..|s| - 3]) else Open
    else if |s| >= 1 && s[0] == QUOTE then
      if |s| >= 2 && s[|s| - 1] == QUOTE then Closed(s[1..|s| - 1]) else Open
    else Closed(s)
  }

  // ----- Parsing -----

  /** Where a rune leads, and what it becomes; NUL is a rune that is dropped. */
  datatype Turn = Turn(next: State, r: char) | Bad(error: Error)

  function ParseRune(r: char, cs: State): Turn {
    match cs
    case Nil =>
      if r == '#' then Turn(Comment, NUL) else if IsSpace(r) || IsNewline(r) then Turn(Nil, NUL) else Turn(Name, r)
    case Name =>
      if IsAlpha(r) then Turn(Name, r) else if IsSpace(r) then Turn(Value, NUL) else Bad(InvalidCommand)
    case Value =>
      if IsNewline(r) then Turn(Nil, r) else if IsSpace(r) then Turn(Nil, r) else Turn(Value, r)
    case Parameter =>
      if IsAlpha(r) || IsNumber(r) || r == '_' then Turn(Parameter, r) else if IsSpace(r) then Turn(Value, NUL)
      else Bad(UnexpectedEof)
    case Message =>
      if IsAlpha(r) then Turn(Message, r) else if IsSpace(r) then Turn(Value, NUL) else Bad(UnexpectedEof)
    case Comment =>
      if IsNewline(r) then Turn(Nil, NUL) else Turn(Comment, NUL)
  }

  /** The parser between two runes: the command being read, the state, the buffer, a role, and the commands read. */
  datatype Parser = Parser(cmd: Command, curr: State, b: string, role: string, cmds: seq<Command>)

  datatype Progress = Failed(error: Error) | Going(p: Parser)

  const START := Parser(Command("", ""), Nil, "", "", [])

  function WithRole(role: string, s: string): string {
    if role != "" then role + ": " + s else s
  }

  /** The command whose value is complete. */
  function Finish(p: Parser, text: string): Parser {
    var cmd := p.cmd.(args := WithRole(p.role, text));
    p.(cmd := cmd, role := "", cmds := p.cmds + [cmd])
  }

  /** Enters a state with an empty buffer, keeping the rune if it is printable. */
  function Enter(t: Tables, p: Parser, next: State, r: char): Parser {
    p.(curr := next, b := if t.isPrint(r) then [r] else "")
  }

  function Step(t: Tables, p: Parser, rune: char): Progress {
    match ParseRune(rune, p.curr)
    case Bad(error) => Failed(error)
    case Turn(next, r) =>
      if next == p.curr then Going(if t.isPrint(r) then p.(b := p.b + [r]) else p)
      else
        match p.curr
        case Name =>
          if !IsValidCommand(p.b) then Failed(InvalidCommand)
          else
            var s := ToLower(p.b);
            if s == "from" then Going(Enter(t, p.(cmd := p.cmd.(name := "model")), next, r))
            else if s == "parameter" then Going(Enter(t, p, Parameter, r))
            else if s == "message" then Going(Enter(t, p.(cmd := p.cmd.(name := s)), Message, r))
            else Going(Enter(t, p.(cmd := p.cmd.(name := s)), next, r))
        case Parameter => Going(Enter(t, p.(cmd := p.cmd.(name := p.b)), next, r))
        case Message =>
          if !IsValidRole(p.b) then Failed(InvalidMessageRole) else Going(Enter(t, p.(role := p.b), next, r))
        case Comment => Going(Enter(t, p, next, r))
        case Nil => Going(Enter(t, p, next, r))
        case Value =>
          match Unquote(Trim(t, p.b))
          case Open => Going(p.(b := p.b + [r]))
          case Closed(text) =>
            if IsSpace(r) then Going(p.(b := p.b + [r])) else Going(Enter(t, Finish(p, text), next, r))
  }

  function Run(t: Tables, p: Parser, s: string): Progress
    decreases |s|
  {
    if s == "" then Going(p)
    else
      match Run(t, p, s[..|s| - 1])
      case Failed(error) => Failed(error)
      case Going(q) => Step(t, q, s[|s| - 1])
  }

  datatype Result = Err(error: Error) | Ok(cmds: seq<Command>)

  /** Flushes the buffer at the end of the file and asks for a FROM. */
  function Flush(t: Tables, p: Parser): Result {
    match p.curr
    case Nil => Check(p.cmds)
    case Comment => Check(p.cmds)
    case Value =>
      (match Unquote(Trim(t, p.b))
       case Open => Err(UnexpectedEof)
       case Closed(text) => Check(p.cmds + [p.cmd.(args := WithRole(p.role, text))]))
    case Name => Err(UnexpectedEof)
    case Parameter => Err(UnexpectedEof)
    case Message => Err(UnexpectedEof)
  }

  predicate HasFrom(cmds: seq<Command>) {
    exists i | 0 <= i < |cmds| :: cmds[i].name == "model"
  }

  function Check(cmds: seq<Command>): Result {
    if HasFrom(cmds) then Ok(cmds) else Err(MissingFrom)
  }

  function ParseText(t: Tables, s: string): Result {
    match Run(t, START, s)
    case Failed(error) => Err(error)
    case Going(p) => Flush(t, p)
  }

  /** The loop over the runes of a file. */
  method ParseFile(t: Tables, s: string) returns (r: Result)
    ensures r == ParseText(t, s)
  {
    var p := START;
    for i := 0 to |s|
      invariant Run(t, START, s[..i]) == Going(p)
    {
      assert s[..i + 1][..i] == s[..i];
      var step := Step(t, p, s[i]);
      if step.Failed? {
        RunFails(t, START, s, i + 1);
        return Err(step.error);
      }
      p := step.p;
    }
    assert s[..|s|] == s;
    r := Flush(t, p);
  }

  lemma {:induction false} RunFails(t: Tables, p: Parser, s: string, n: nat)
    requires n <= |s| && Run(t, p, s[..n]).Failed?
    ensures Run(t, p, s) == Run(t, p, s[..n])
    decreases |s|
  {
    if n == |s| {
      assert s[..n] == s;
    } else {
      assert s[..|s| - 1][..n] == s[..n];
      RunFails(t, p, s[..|s| - 1], n);
    }
  }

  lemma {:induction false} RunConcat(t: Tables, p: Parser, x: string, y: string)
    ensures Run(t, p, x + y) == match Run(t, p, x) case Failed(error) => Failed(error) case Going(q) => Run(t, q, y)
    decreases |y|
  {
    if y == "" {
      assert x + y == x;
    } else {
      var n := |y| - 1;
      assert (x + y)[..|x + y| - 1] == x + y[..n];
      RunConcat(t, p, x, y[..n]);
    }
  }
}
