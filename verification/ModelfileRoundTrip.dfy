/** Parsing undoes printing. */
module ModelfileRoundTrip {
  import opened Modelfile
  import opened Text

  // ----- Printing -----

  const QUOTED_COMMANDS: seq<string> := ["license", "template", "system", "adapter", "renderer", "parser"]

  function UpperChar(c: char): char {
    if 'a' <= c <= 'z' then c - 32 as char else c
  }

  function ToUpper(s: string): (r: string)
    ensures |r| == |s|
  {
    seq(|s|, i requires 0 <= i < |s| => UpperChar(s[i]))
  }

  /** The parts of s before and after the first separator. */
  function Cut(s: string, sep: string): (string, string) {
    var i := Index(s, sep);
    IndexFinds(s, sep);
    if i < 0 then (s, "") else (s[..i], s[i + |sep|..])
  }

  /** Cut finds the first separator; without one, everything comes before it. */
  lemma CutSplits(s: string, sep: string)
    ensures var (before, rest) := Cut(s, sep);
            if Contains(s, sep) then s == before + sep + rest && Closes(before, sep) else before == s && rest == ""
  {
    var i := Index(s, sep);
    IndexFinds(s, sep);
    if i >= 0 {
      assert s[..i] + sep == s[..i + |sep|] && s == s[..i + |sep|] + s[i + |sep|..];
      forall q: nat | q < i
        ensures !At(s[..i] + sep, q, sep)
      {
        AtLonger(s[..i + |sep|], s[i + |sep|..], q, sep);
      }
    }
  }

  function CommandString(c: Command): string {
    if c.name == "model" then "FROM " + c.args
    else if c.name in QUOTED_COMMANDS then ToUpper(c.name) + " " + Quote(c.args)
    else if c.name == "message" then
      var (role, message) := Cut(c.args, ": ");
      "MESSAGE " + role + " " + Quote(message)
    else "PARAMETER " + c.name + " " + Quote(c.args)
  }

  function Print(cmds: seq<Command>): string {
    if cmds == [] then "" else Print(cmds[..|cmds| - 1]) + Line(cmds[|cmds| - 1])
  }

  function Line(c: Command): string {
    CommandString(c) + "\n"
  }

  /** One line per command. */
  method String(cmds: seq<Command>) returns (s: string)
    ensures s == Print(cmds)
  {
    s := "";
    for i := 0 to |cmds|
      invariant s == Print(cmds[..i])
    {
      assert cmds[..i + 1][..i] == cmds[..i];
      s := s + Line(cmds[i]);
    }
    assert cmds[..|cmds|] == cmds;
  }

  // ----- What survives -----

  /** Printable runes, spaces, tabs and newlines. */
  ghost predicate Writable(t: Tables, s: string) {
    forall i | 0 <= i < |s| :: s[i] == ' ' || s[i] == '\t' || s[i] == '\n' || t.isPrint(s[i])
  }

  /** Trimming and unquoting leave the text alone. */
  ghost predicate Plain(t: Tables, s: string) {
    s == "" || (!t.isTrimmed(s[0]) && !t.isTrimmed(s[|s| - 1]) && s[0] != QUOTE)
  }

  /** No line, with the blank rest of it cut off, ends in triple quotes. */
  ghost predicate NoLineCloses(t: Tables, s: string) {
    forall i | 0 <= i < |s| && s[i] == '\n' :: !EndsWith(TrimRight(t, s[..i]), TRIPLE)
  }

  /** A value with a newline in it or a space at either end. */
  ghost predicate Breaks(s: string) {
    s != "" && (s[0] == ' ' || s[|s| - 1] == ' ' || exists i | 0 <= i < |s| :: s[i] == '\n')
  }

  /** Values are quoted if they have a newline or a space at either end, three times over if they contain a quote. */
  lemma QuotedWhen(s: string)
    ensures NeedsQuotes(s) <==> Breaks(s)
    ensures !Breaks(s) ==> Quote(s) == s
    ensures Breaks(s) && QUOTE !in s ==> Quote(s) == "\"" + s + "\""
    ensures Breaks(s) && QUOTE in s ==> Quote(s) == "\"\"\"" + s + "\"\"\""
  {
    if s != "" {
      assert StartsWith(s, " ") <==> s[0] == ' ' by { assert s[..1] == [s[0]]; }
      assert EndsWith(s, " ") <==> s[|s| - 1] == ' ' by { assert s[|s| - 1..] == [s[|s| - 1]]; }
    }
  }

  /** A value that printing with quotes where needed preserves. */
  ghost predicate Quotable(t: Tables, s: string) {
    Writable(t, s) && if Breaks(s) then QUOTE in s ==> NoLineCloses(t, s) else Plain(t, s)
  }

  ghost predicate IsParameterName(s: string) {
    forall i | 0 <= i < |s| :: 'a' <= s[i] <= 'z' || 'A' <= s[i] <= 'Z' || '0' <= s[i] <= '9' || s[i] == '_'
  }

  ghost predicate Printable(t: Tables, c: Command) {
    if c.name == "model" then Writable(t, c.args) && '\n' !in c.args && Plain(t, c.args)
    else if c.name in QUOTED_COMMANDS then Quotable(t, c.args)
    else if c.name == "message" then
      exists role, text :: IsValidRole(role) && Quotable(t, text) && c.args == role + ": " + text
    else IsParameterName(c.name) && Quotable(t, c.args)
  }

  // ----- Trimming -----

  lemma {:induction false} TrimRightConcat(t: Tables, a: string, b: string)
    requires a != "" && !t.isTrimmed(a[|a| - 1])
    ensures TrimRight(t, a + b) == a + TrimRight(t, b)
    decreases |b|
  {
    if b == "" {
      assert a + b == a && TrimRight(t, a) == a;
    } else if t.isTrimmed(b[|b| - 1]) {
      assert (a + b)[..|a + b| - 1] == a + b[..|b| - 1];
      TrimRightConcat(t, a, b[..|b| - 1]);
    }
  }

  /** Before the closing quote of a value without quotes inside, the value is open at any newline. */
  lemma OpenSingle(t: Tables, s: string)
    requires t.Valid() && QUOTE !in s
    ensures Unquote(Trim(t, [QUOTE] + s)) == Open
  {
    var x := [QUOTE] + s;
    assert TrimLeft(t, x) == x;
    TrimRightConcat(t, [QUOTE], s);
    var w := TrimRight(t, s);
    TrimRightPrefix(t, s);
    var y := [QUOTE] + w;
    if |w| > 0 {
      assert y[1] == s[0] && y[|y| - 1] == s[|w| - 1];
      assert y[1] != TRIPLE[1];
      if |y| >= 3 {
        assert y[..3][1] == y[1];
      }
    }
  }

  lemma {:induction false} TrimRightPrefix(t: Tables, s: string)
    ensures |TrimRight(t, s)| <= |s| && TrimRight(t, s) == s[..|TrimRight(t, s)|]
  {
    if s != "" && t.isTrimmed(s[|s| - 1]) {
      TrimRightPrefix(t, s[..|s| - 1]);
    }
  }

  lemma OpenTriple(t: Tables, s: string)
    requires t.Valid() && !EndsWith(TrimRight(t, s), TRIPLE)
    ensures Unquote(Trim(t, TRIPLE + s)) == Open
  {
    var x := TRIPLE + s;
    assert TrimLeft(t, x) == x;
    TrimRightConcat(t, TRIPLE, s);
    var w := TrimRight(t, s);
    var y := TRIPLE + w;
    assert y[..3] == TRIPLE;
    if |y| >= 6 {
      assert y[|y| - 3..] == w[|w| - 3..];
    }
  }

  lemma TrimPlain(t: Tables, s: string)
    requires s == "" || (!t.isTrimmed(s[0]) && !t.isTrimmed(s[|s| - 1]))
    ensures Trim(t, s) == s
  {
  }

  /** A complete value is closed, and unquoting gives back what was quoted. */
  lemma UnquoteQuote(t: Tables, s: string)
    requires t.Valid() && Quotable(t, s)
    ensures Unquote(Trim(t, Quote(s))) == Closed(s)
  {
    var v := Quote(s);
    if NeedsQuotes(s) {
      assert v[0] == QUOTE && v[|v| - 1] == QUOTE;
      TrimPlain(t, v);
      if QUOTE in s {
        assert v[..3] == TRIPLE && v[|v| - 3..] == TRIPLE && v[3..|v| - 3] == s;
      } else {
        assert s != "";
        assert v[1] == s[0];
        assert v[..3][1] == s[0];
        assert v[1..|v| - 1] == s;
      }
    } else {
      TrimPlain(t, s);
    }
  }

  // ----- Reading a value -----

  /** Text that stays inside a value: at each of its newlines the value is still open. */
  ghost predicate StaysOpen(t: Tables, b: string, v: string) {
    forall i | 0 <= i < |v| && v[i] == '\n' :: Unquote(Trim(t, b + v[..i])) == Open
  }

  lemma {:induction false} RunValue(t: Tables, p: Parser, v: string)
    requires t.Valid() && p.curr == Value && p.b == "" && Writable(t, v) && StaysOpen(t, "", v)
    ensures Run(t, p, v) == Going(p.(b := v))
    decreases |v|
  {
    if v != "" {
      var n := |v| - 1;
      ValuePrefix(t, v, n);
      RunValue(t, p, v[..n]);
      ValueStep(t, p, v[..n], v[n]);
      assert v == v[..n] + [v[n]];
    }
  }

  lemma ValuePrefix(t: Tables, v: string, n: nat)
    requires n < |v| && Writable(t, v) && StaysOpen(t, "", v)
    ensures Writable(t, v[..n]) && StaysOpen(t, "", v[..n])
    ensures v[n] == '\n' ==> Unquote(Trim(t, v[..n])) == Open
  {
    var w := v[..n];
    forall i | 0 <= i < |w| && w[i] == '\n'
      ensures Unquote(Trim(t, "" + w[..i])) == Open
    {
      assert w[..i] == v[..i];
    }
    assert "" + v[..n] == w;
  }

  lemma ValueStep(t: Tables, p: Parser, w: string, c: char)
    requires t.Valid() && p.curr == Value && (c == ' ' || c == '\t' || c == '\n' || t.isPrint(c))
    requires c == '\n' ==> Unquote(Trim(t, w)) == Open
    ensures Step(t, p.(b := w), c) == Going(p.(b := w + [c]))
  {
  }

  lemma QuoteStaysOpen(t: Tables, s: string)
    requires t.Valid() && Quotable(t, s)
    ensures StaysOpen(t, "", Quote(s)) && Writable(t, Quote(s))
  {
    var v := Quote(s);
    if NeedsQuotes(s) {
      var a := if QUOTE in s then TRIPLE else [QUOTE];
      assert v == a + s + a;
      forall i | 0 <= i < |v|
        ensures v[i] == ' ' || v[i] == '\t' || v[i] == '\n' || t.isPrint(v[i])
        ensures v[i] == '\n' ==> Unquote(Trim(t, "" + v[..i])) == Open
      {
        if |a| <= i < |a| + |s| {
          assert v[i] == s[i - |a|];
          assert "" + v[..i] == a + s[..i - |a|];
          if v[i] == '\n' {
            if QUOTE in s {
              OpenTriple(t, s[..i - |a|]);
            } else {
              OpenSingle(t, s[..i - |a|]);
            }
          }
        } else {
          assert v[i] == QUOTE;
        }
      }
    }
  }

  /** Reading a printed value and the newline after it completes the command. */
  lemma RunQuoted(t: Tables, p: Parser, s: string)
    requires t.Valid() && p.curr == Value && p.b == "" && Quotable(t, s)
    ensures Run(t, p, Quote(s) + "\n") == Going(Finish(p, s).(curr := Nil, b := ""))
  {
    var v := Quote(s);
    QuoteStaysOpen(t, s);
    RunValue(t, p, v);
    UnquoteQuote(t, s);
    RunOne(t, p, v, '\n');
    ValueEnds(t, p, v, s);
  }

  lemma RunOne(t: Tables, p: Parser, x: string, c: char)
    ensures Run(t, p, x + [c]) == match Run(t, p, x) case Failed(error) => Failed(error) case Going(q) => Step(t, q, c)
  {
    assert (x + [c])[..|x|] == x;
  }

  // ----- Reading names -----

  ghost predicate AllAlpha(s: string) {
    forall i | 0 <= i < |s| :: 'a' <= s[i] <= 'z' || 'A' <= s[i] <= 'Z'
  }

  lemma {:induction false} RunKeyword(t: Tables, p: Parser, kw: string)
    requires t.Valid() && p.curr == Nil && kw != "" && AllAlpha(kw)
    ensures Run(t, p, kw) == Going(p.(curr := Name, b := kw))
    decreases |kw|
  {
    var n := |kw| - 1;
    assert kw == kw[..n] + [kw[n]];
    if n == 0 {
      assert kw[..n] == "" && kw == [kw[0]];
    } else {
      RunKeyword(t, p, kw[..n]);
    }
  }

  /** A name in a state that takes its letters. */
  lemma {:induction false} RunName(t: Tables, p: Parser, name: string)
    requires t.Valid() && p.b == ""
    requires (p.curr == Parameter && IsParameterName(name)) || (p.curr == Message && AllAlpha(name))
    ensures Run(t, p, name) == Going(p.(b := name))
    decreases |name|
  {
    if name != "" {
      var n := |name| - 1;
      assert name == name[..n] + [name[n]];
      RunName(t, p, name[..n]);
    }
  }

  // ----- One command -----

  lemma Keywords()
    ensures ToLower("FROM") == "from" && ToLower("PARAMETER") == "parameter" && ToLower("MESSAGE") == "message"
    ensures forall i | 0 <= i < |QUOTED_COMMANDS| ::
      ToLower(ToUpper(QUOTED_COMMANDS[i])) == QUOTED_COMMANDS[i] && AllAlpha(ToUpper(QUOTED_COMMANDS[i]))
  {
    assert ToLower("FROM") == "from" && ToLower("PARAMETER") == "parameter" && ToLower("MESSAGE") == "message";
    forall i | 0 <= i < |QUOTED_COMMANDS|
      ensures ToLower(ToUpper(QUOTED_COMMANDS[i])) == QUOTED_COMMANDS[i] && AllAlpha(ToUpper(QUOTED_COMMANDS[i]))
    {
      LowerUpper(QUOTED_COMMANDS[i]);
    }
  }

  lemma LowerUpper(s: string)
    requires forall i | 0 <= i < |s| :: 'a' <= s[i] <= 'z'
    ensures ToLower(ToUpper(s)) == s && AllAlpha(ToUpper(s))
  {
  }

  /** A parser at the start of a line, with nothing pending. */
  ghost predicate Ready(p: Parser) {
    p.curr == Nil && p.role == ""
  }

  /** Reading the text completes exactly the command c. */
  ghost predicate Reads(t: Tables, p: Parser, s: string, c: Command) {
    var r := Run(t, p, s);
    r.Going? && Ready(r.p) && r.p.cmds == p.cmds + [c]
  }

  /** A keyword and the space after it. */
  lemma RunHead(t: Tables, p: Parser, kw: string)
    requires t.Valid() && p.curr == Nil && kw != "" && AllAlpha(kw)
    ensures Run(t, p, kw + " ") == Step(t, p.(curr := Name, b := kw), ' ')
  {
    RunKeyword(t, p, kw);
    RunOne(t, p, kw, ' ');
  }

  lemma RunThen(t: Tables, p: Parser, x: string, q: Parser, y: string, r: Parser)
    requires Run(t, p, x) == Going(q) && Run(t, q, y) == Going(r)
    ensures Run(t, p, x + y) == Going(r)
  {
    RunConcat(t, p, x, y);
  }

  lemma FromHead(t: Tables, p: Parser)
    requires t.Valid() && p.curr == Nil
    ensures Run(t, p, "FROM ") == Going(p.(curr := Value, b := "", cmd := p.cmd.(name := "model")))
  {
    Keywords();
    RunHead(t, p, "FROM");
    assert "FROM" + " " == "FROM ";
  }

  lemma QuotedHead(t: Tables, p: Parser, i: nat)
    requires t.Valid() && p.curr == Nil && i < |QUOTED_COMMANDS|
    ensures Run(t, p, ToUpper(QUOTED_COMMANDS[i]) + " ")
         == Going(p.(curr := Value, b := "", cmd := p.cmd.(name := QUOTED_COMMANDS[i])))
  {
    Keywords();
    RunHead(t, p, ToUpper(QUOTED_COMMANDS[i]));
  }

  lemma ParameterHead(t: Tables, p: Parser)
    requires t.Valid() && p.curr == Nil
    ensures Run(t, p, "PARAMETER ") == Going(p.(curr := Parameter, b := ""))
  {
    Keywords();
    RunHead(t, p, "PARAMETER");
    assert "PARAMETER" + " " == "PARAMETER ";
  }

  lemma MessageHead(t: Tables, p: Parser)
    requires t.Valid() && p.curr == Nil
    ensures Run(t, p, "MESSAGE ") == Going(p.(curr := Message, b := "", cmd := p.cmd.(name := "message")))
  {
    Keywords();
    RunHead(t, p, "MESSAGE");
    assert "MESSAGE" + " " == "MESSAGE ";
  }

  /** A plain value of one line, without quotes. */
  lemma RunPlain(t: Tables, q: Parser, v: string)
    requires t.Valid() && q.curr == Value && q.b == "" && Writable(t, v) && '\n' !in v && Plain(t, v)
    ensures Run(t, q, v + "\n") == Going(Finish(q, v).(curr := Nil, b := ""))
  {
    RunValue(t, q, v);
    TrimPlain(t, v);
    assert |v| >= 3 ==> v[..3][0] == v[0];
    RunOne(t, q, v, '\n');
    ValueEnds(t, q, v, v);
  }

  lemma RegroupLine(a: string, b: string)
    ensures a + (b + "\n") == a + b + "\n"
  {
    assert a + (b + "\n") == a + b + "\n";
  }

  lemma ReadsFrom(t: Tables, p: Parser, v: string)
    requires t.Valid() && Ready(p) && Writable(t, v) && '\n' !in v && Plain(t, v)
    ensures Reads(t, p, "FROM " + v + "\n", Command("model", v))
  {
    FromHead(t, p);
    var q := p.(curr := Value, b := "", cmd := p.cmd.(name := "model"));
    RunPlain(t, q, v);
    RunThen(t, p, "FROM ", q, v + "\n", Finish(q, v).(curr := Nil, b := ""));
    RegroupLine("FROM ", v);
  }

  lemma ReadsQuoted(t: Tables, p: Parser, i: nat, v: string)
    requires t.Valid() && Ready(p) && i < |QUOTED_COMMANDS| && Quotable(t, v)
    ensures Reads(t, p, ToUpper(QUOTED_COMMANDS[i]) + " " + Quote(v) + "\n", Command(QUOTED_COMMANDS[i], v))
  {
    var kw := ToUpper(QUOTED_COMMANDS[i]) + " ";
    QuotedHead(t, p, i);
    var q := p.(curr := Value, b := "", cmd := p.cmd.(name := QUOTED_COMMANDS[i]));
    RunQuoted(t, q, v);
    RunThen(t, p, kw, q, Quote(v) + "\n", Finish(q, v).(curr := Nil, b := ""));
    RegroupLine(kw, Quote(v));
  }

  /** What a name that has been read is for. */
  function Named(q: Parser, name: string): Parser {
    var w := q.(curr := Value, b := "");
    if q.curr == Parameter then w.(cmd := q.cmd.(name := name)) else w.(role := name)
  }

  lemma Regroup(a: string, b: string, c: string)
    ensures a + (b + " " + c + "\n") == a + b + " " + c + "\n"
  {
    assert a + (b + " " + c + "\n") == a + b + " " + c + "\n";
  }

  /** A name with the space after it, from the state that reads it into the value. */
  lemma NameRead(t: Tables, q: Parser, name: string)
    requires t.Valid() && q.b == ""
    requires (q.curr == Parameter && IsParameterName(name)) || (q.curr == Message && IsValidRole(name))
    ensures Run(t, q, name + " ") == Going(Named(q, name))
  {
    RunName(t, q, name);
    RunOne(t, q, name, ' ');
  }

  lemma NamedQuoted(t: Tables, q: Parser, name: string, w: Parser, v: string)
    requires t.Valid() && Run(t, q, name + " ") == Going(w) && w.curr == Value && w.b == "" && Quotable(t, v)
    ensures Run(t, q, name + " " + Quote(v) + "\n") == Going(Finish(w, v).(curr := Nil, b := ""))
  {
    RunQuoted(t, w, v);
    RunThen(t, q, name + " ", w, Quote(v) + "\n", Finish(w, v).(curr := Nil, b := ""));
    assert name + " " + (Quote(v) + "\n") == name + " " + Quote(v) + "\n";
  }

  lemma ReadsParameter(t: Tables, p: Parser, name: string, v: string)
    requires t.Valid() && Ready(p) && IsParameterName(name) && Quotable(t, v)
    ensures Reads(t, p, "PARAMETER " + name + " " + Quote(v) + "\n", Command(name, v))
  {
    ParameterHead(t, p);
    var q := p.(curr := Parameter, b := "");
    NameRead(t, q, name);
    var w := q.(curr := Value, b := "", cmd := p.cmd.(name := name));
    NamedQuoted(t, q, name, w, v);
    var rest := name + " " + Quote(v) + "\n";
    RunThen(t, p, "PARAMETER ", q, rest, Finish(w, v).(curr := Nil, b := ""));
    Regroup("PARAMETER ", name, Quote(v));
  }

  lemma ReadsMessage(t: Tables, p: Parser, role: string, v: string)
    requires t.Valid() && Ready(p) && IsValidRole(role) && Quotable(t, v)
    ensures Reads(t, p, "MESSAGE " + role + " " + Quote(v) + "\n", Command("message", role + ": " + v))
  {
    MessageHead(t, p);
    var q := p.(curr := Message, b := "", cmd := p.cmd.(name := "message"));
    NameRead(t, q, role);
    var w := q.(curr := Value, b := "", role := role);
    NamedQuoted(t, q, role, w, v);
    var rest := role + " " + Quote(v) + "\n";
    RunThen(t, p, "MESSAGE ", q, rest, Finish(w, v).(curr := Nil, b := ""));
    Regroup("MESSAGE ", role, Quote(v));
  }

  /** A role has no colon, so the first separator is the one after it. */
  lemma CutRole(role: string, v: string)
    requires IsValidRole(role)
    ensures Cut(role + ": " + v, ": ") == (role, v)
  {
    var s := role + ": " + v;
    var n := |role|;
    assert s[n..n + 2] == ": ";
    forall i | 0 <= i < n
      ensures !At(s, i, ": ")
    {
      assert s[i..i + 2][0] == role[i];
    }
    IndexIs(s, ": ", n);
    assert s[..n] == role && s[n + 2..] == v;
  }

  /** Whatever was read before, a printed line reads back as its command. */
  lemma ReadsCommand(t: Tables, p: Parser, c: Command)
    requires t.Valid() && Ready(p) && Printable(t, c)
    ensures Reads(t, p, Line(c), c)
  {
    if c.name == "model" {
      ReadsFrom(t, p, c.args);
    } else if c.name in QUOTED_COMMANDS {
      var i :| 0 <= i < |QUOTED_COMMANDS| && QUOTED_COMMANDS[i] == c.name;
      ReadsQuoted(t, p, i, c.args);
    } else if c.name == "message" {
      var role, text :| IsValidRole(role) && Quotable(t, text) && c.args == role + ": " + text;
      CutRole(role, text);
      ReadsMessage(t, p, role, text);
    } else {
      ReadsParameter(t, p, c.name, c.args);
    }
  }

  // ----- Whole files -----

  /** The parser has read exactly these commands. */
  ghost predicate HasRead(t: Tables, s: string, cmds: seq<Command>) {
    var r := Run(t, START, s);
    r.Going? && Ready(r.p) && r.p.cmds == cmds
  }

  lemma ReadsNext(t: Tables, s: string, cmds: seq<Command>, x: string, c: Command)
    requires HasRead(t, s, cmds) && Reads(t, Run(t, START, s).p, x, c)
    ensures HasRead(t, s + x, cmds + [c])
  {
    RunConcat(t, START, s, x);
  }

  lemma {:induction false} ReadsAll(t: Tables, cmds: seq<Command>)
    requires t.Valid() && forall i | 0 <= i < |cmds| :: Printable(t, cmds[i])
    ensures HasRead(t, Print(cmds), cmds)
  {
    if cmds != [] {
      var n := |cmds| - 1;
      ReadsAll(t, cmds[..n]);
      var q := Run(t, START, Print(cmds[..n])).p;
      ReadsCommand(t, q, cmds[n]);
      ReadsNext(t, Print(cmds[..n]), cmds[..n], Line(cmds[n]), cmds[n]);
      Snoc(cmds);
    }
  }

  lemma Snoc(cmds: seq<Command>)
    requires cmds != []
    ensures cmds == cmds[..|cmds| - 1] + [cmds[|cmds| - 1]]
  {
    assert cmds == cmds[..|cmds| - 1] + [cmds[|cmds| - 1]];
  }

  /** Parsing a printed Modelfile gives back its commands, and fails only for want of a FROM. */
  lemma RoundTrip(t: Tables, cmds: seq<Command>)
    requires t.Valid() && forall i | 0 <= i < |cmds| :: Printable(t, cmds[i])
    ensures ParseText(t, Print(cmds)) ==
            if exists i | 0 <= i < |cmds| :: cmds[i].name == "model" then Ok(cmds) else Err(MissingFrom)
  {
    ReadsAll(t, cmds);
  }

  // ----- Nothing else survives -----

  lemma {:induction false} TrimShrinks(t: Tables, s: string)
    ensures |TrimLeft(t, s)| <= |s| && |Trim(t, s)| <= |s|
    ensures s != "" && t.isTrimmed(s[0]) ==> |TrimLeft(t, s)| < |s|
  {
    if s != "" && t.isTrimmed(s[0]) {
      TrimShrinks(t, s[1..]);
    }
    TrimRightPrefix(t, TrimLeft(t, s));
  }

  /** Without quotes around it, a value that is not plain loses a rune or is left open. */
  lemma NotPlain(t: Tables, s: string)
    requires !Plain(t, s)
    ensures Unquote(Trim(t, s)) != Closed(s)
  {
    TrimShrinks(t, s);
    if t.isTrimmed(s[0]) {
      assert |Trim(t, s)| < |s| by { TrimRightPrefix(t, TrimLeft(t, s)); }
    } else if t.isTrimmed(s[|s| - 1]) {
      TrimRightPrefix(t, s[..|s| - 1]);
      assert |Trim(t, s)| < |s|;
    }
  }

  lemma {:induction false} RunGrows(t: Tables, p: Parser, s: string)
    ensures Run(t, p, s).Going? ==> p.cmds <= Run(t, p, s).p.cmds
    decreases |s|
  {
    if s != "" {
      RunGrows(t, p, s[..|s| - 1]);
    }
  }

  /** The first newline at which a value in triple quotes closes too early. */
  lemma {:induction false} FirstClose(t: Tables, s: string) returns (i: nat)
    requires !NoLineCloses(t, s)
    ensures i < |s| && s[i] == '\n' && EndsWith(TrimRight(t, s[..i]), TRIPLE) && NoLineCloses(t, s[..i])
    decreases |s|
  {
    i :| 0 <= i < |s| && s[i] == '\n' && EndsWith(TrimRight(t, s[..i]), TRIPLE);
    if !NoLineCloses(t, s[..i]) {
      var j := FirstClose(t, s[..i]);
      assert s[..i][..j] == s[..j];
      i := j;
    }
  }

  lemma ClosesEarly(t: Tables, s: string)
    requires t.Valid() && EndsWith(TrimRight(t, s), TRIPLE)
    ensures var u := Unquote(Trim(t, TRIPLE + s)); u.Closed? && |u.text| < |s|
  {
    var x := TRIPLE + s;
    assert TrimLeft(t, x) == x;
    TrimRightConcat(t, TRIPLE, s);
    TrimRightPrefix(t, s);
    var w := TrimRight(t, s);
    var y := TRIPLE + w;
    assert y[..3] == TRIPLE && y[|y| - 3..] == w[|w| - 3..];
  }

  /** Inside triple quotes, lines that do not close them are read into the buffer. */
  lemma TripleStaysOpen(t: Tables, s: string)
    requires t.Valid() && Writable(t, s) && NoLineCloses(t, s)
    ensures StaysOpen(t, "", TRIPLE + s) && Writable(t, TRIPLE + s)
  {
    var v := TRIPLE + s;
    forall i | 0 <= i < |v|
      ensures v[i] == ' ' || v[i] == '\t' || v[i] == '\n' || t.isPrint(v[i])
      ensures v[i] == '\n' ==> Unquote(Trim(t, "" + v[..i])) == Open
    {
      if i >= 3 {
        assert "" + v[..i] == TRIPLE + s[..i - 3];
        if v[i] == '\n' {
          OpenTriple(t, s[..i - 3]);
        }
      }
    }
  }

  /** A line of a value that closes its triple quotes ends the command there, with a shorter value. */
  lemma EndsEarly(t: Tables, p: Parser, s: string, i: nat) returns (text: string)
    requires t.Valid() && p.curr == Value && p.b == "" && Writable(t, s) && i < |s| && s[i] == '\n'
    requires EndsWith(TrimRight(t, s[..i]), TRIPLE) && NoLineCloses(t, s[..i])
    ensures |text| < |s| && Run(t, p, TRIPLE + s[..i] + "\n") == Going(Finish(p, text).(curr := Nil, b := ""))
  {
    var v := TRIPLE + s[..i];
    TripleStaysOpen(t, s[..i]);
    RunValue(t, p, v);
    ClosesEarly(t, s[..i]);
    text := Unquote(Trim(t, v)).text;
    RunOne(t, p, v, '\n');
    ValueEnds(t, p, v, text);
  }

  lemma ValueEnds(t: Tables, p: Parser, v: string, text: string)
    requires t.Valid() && p.curr == Value && p.b == "" && Unquote(Trim(t, v)) == Closed(text)
    ensures Step(t, p.(b := v), '\n') == Going(Finish(p, text).(curr := Nil, b := ""))
  {
  }

  /** The value is read back as it was. */
  ghost predicate ReadsValue(t: Tables, p: Parser, s: string) {
    var r := Run(t, p, Quote(s) + "\n");
    r.Going? && Ready(r.p) && r.p.cmds == Finish(p, s).cmds
  }

  /** Among values of printable runes, spaces, tabs and newlines, exactly the quotable ones survive. */
  lemma ValueExact(t: Tables, p: Parser, s: string)
    requires t.Valid() && p.curr == Value && p.b == "" && Writable(t, s)
    ensures ReadsValue(t, p, s) <==> Quotable(t, s)
  {
    if Quotable(t, s) {
      RunQuoted(t, p, s);
    } else if !NeedsQuotes(s) {
      NotBare(t, p, s);
    } else {
      NotTripled(t, p, s);
    }
  }

  lemma NotBare(t: Tables, p: Parser, s: string)
    requires t.Valid() && p.curr == Value && p.b == "" && Writable(t, s) && !NeedsQuotes(s) && !Plain(t, s)
    ensures !ReadsValue(t, p, s)
  {
    RunValue(t, p, s);
    RunOne(t, p, s, '\n');
    NotPlain(t, s);
    var u := Unquote(Trim(t, s));
    if u.Closed? {
      FinishDiffers(p, u.text, s, Finish(p, u.text).cmds);
    }
  }

  /** Commands that begin with another value for p's command are not p's command with this value. */
  lemma FinishDiffers(p: Parser, text: string, s: string, cmds: seq<Command>)
    requires text != s && Finish(p, text).cmds <= cmds
    ensures cmds != Finish(p, s).cmds
  {
    var n := |p.cmds|;
    assert cmds[n].args == WithRole(p.role, text);
    assert Finish(p, s).cmds[n].args == WithRole(p.role, s);
    if p.role != "" {
      var k := |p.role + ": "|;
      assert WithRole(p.role, text)[k..] == text && WithRole(p.role, s)[k..] == s;
    }
  }

  lemma SplitTripled(s: string, i: nat)
    requires NeedsQuotes(s) && QUOTE in s && i < |s| && s[i] == '\n'
    ensures Quote(s) + "\n" == (TRIPLE + s[..i] + "\n") + (s[i + 1..] + TRIPLE + "\n")
  {
    var x, y := s[..i], s[i + 1..];
    assert s == x + "\n" + y;
    var a, b := TRIPLE, TRIPLE + "\n";
    assert a + (x + "\n" + y) + b == (a + x + "\n") + (y + b);
    assert y + b == y + TRIPLE + "\n";
  }

  lemma NotTripled(t: Tables, p: Parser, s: string)
    requires t.Valid() && p.curr == Value && p.b == "" && Writable(t, s)
    requires NeedsQuotes(s) && QUOTE in s && !NoLineCloses(t, s)
    ensures !ReadsValue(t, p, s)
  {
    var i := FirstClose(t, s);
    var text := EndsEarly(t, p, s, i);
    var x, y := TRIPLE + s[..i] + "\n", s[i + 1..] + TRIPLE + "\n";
    SplitTripled(s, i);
    var q := Run(t, p, x).p;
    RunConcat(t, p, x, y);
    RunGrows(t, q, y);
    var r := Run(t, q, y);
    if r.Going? {
      FinishDiffers(p, text, s, r.p.cmds);
    }
  }
}
