/** Lines that change nothing, the end of a file, and the spelling of keywords. */
module ModelfileLines {
  import opened Modelfile
  import opened ModelfileRoundTrip

  // ----- Comments and blank lines -----

  ghost predicate OneLine(s: string) {
    forall i | 0 <= i < |s| :: s[i] != '\n' && s[i] != '\r'
  }

  lemma {:induction false} RunComment(t: Tables, p: Parser, text: string)
    requires t.Valid() && p.curr == Nil && OneLine(text)
    ensures Run(t, p, "#" + text) == Going(p.(curr := Comment, b := ""))
    decreases |text|
  {
    if text == "" {
      RunOne(t, p, "", '#');
      assert "#" + text == "" + ['#'];
    } else {
      var n := |text| - 1;
      RunComment(t, p, text[..n]);
      RunOne(t, p, "#" + text[..n], text[n]);
      CommentStep(t, p.(curr := Comment, b := ""), text[n]);
      assert "#" + text == "#" + text[..n] + [text[n]];
    }
  }

  lemma CommentStep(t: Tables, p: Parser, c: char)
    requires t.Valid() && p.curr == Comment
    ensures Step(t, p, c) == Going(if IsNewline(c) then p.(curr := Nil, b := "") else p)
  {
  }

  /** Between lines the buffer is empty. */
  lemma {:induction false} NilEmpty(t: Tables, s: string)
    requires t.Valid()
    ensures var r := Run(t, START, s); r.Going? && r.p.curr == Nil ==> r.p.b == ""
    decreases |s|
  {
    if s != "" {
      var n := |s| - 1;
      NilEmpty(t, s[..n]);
      var r := Run(t, START, s[..n]);
      if r.Going? {
        NilStep(t, r.p, s[n]);
      }
    }
  }

  lemma NilStep(t: Tables, p: Parser, c: char)
    requires t.Valid() && (p.curr == Nil ==> p.b == "")
    ensures var r := Step(t, p, c); r.Going? && r.p.curr == Nil ==> r.p.b == ""
  {
  }

  /** The parser is between lines after s. */
  ghost predicate LineStart(t: Tables, s: string) {
    Run(t, START, s).Going? && Run(t, START, s).p.curr == Nil
  }

  /** A comment line at the start of a line changes nothing, whatever comes before and after it. */
  lemma CommentIgnored(t: Tables, x: string, text: string, end: char, y: string)
    requires t.Valid() && LineStart(t, x) && OneLine(text) && (end == '\n' || end == '\r')
    ensures ParseText(t, x + ("#" + text + [end]) + y) == ParseText(t, x + y)
  {
    var p, line := Run(t, START, x).p, "#" + text + [end];
    NilEmpty(t, x);
    RunComment(t, p, text);
    RunOne(t, p, "#" + text, end);
    CommentStep(t, p.(curr := Comment, b := ""), end);
    assert Run(t, p, line) == Going(p);
    RunConcat(t, START, x, line);
    RunConcat(t, START, x + line, y);
    RunConcat(t, START, x, y);
  }

  /** So do spaces, tabs and newlines there. */
  lemma BlankIgnored(t: Tables, x: string, c: char, y: string)
    requires t.Valid() && LineStart(t, x) && c in " \t\r\n"
    ensures ParseText(t, x + [c] + y) == ParseText(t, x + y)
  {
    var p := Run(t, START, x).p;
    RunOne(t, p, "", c);
    assert "" + [c] == [c];
    RunConcat(t, START, x, [c]);
    RunConcat(t, START, x + [c], y);
    RunConcat(t, START, x, y);
  }

  // ----- The end of a file -----

  lemma {:induction false} TrimLeftEnd(t: Tables, s: string, c: char)
    requires t.isTrimmed(c)
    ensures TrimLeft(t, s + [c]) == if TrimLeft(t, s) == "" then "" else TrimLeft(t, s) + [c]
    decreases |s|
  {
    if s == "" {
      assert s + [c] == [c] && [c][1..] == "";
    } else if t.isTrimmed(s[0]) {
      assert (s + [c])[1..] == s[1..] + [c];
      TrimLeftEnd(t, s[1..], c);
    }
  }

  lemma TrimEnd(t: Tables, s: string, c: char)
    requires t.isTrimmed(c)
    ensures Trim(t, s + [c]) == Trim(t, s)
  {
    TrimLeftEnd(t, s, c);
    var w := TrimLeft(t, s);
    assert (w + [c])[..|w|] == w;
  }

  /** The file ends inside a keyword. */
  ghost predicate EndsInKeyword(t: Tables, s: string) {
    Run(t, START, s).Going? && Run(t, START, s).p.curr == Name
  }

  /** What the end of the file makes of progress. */
  function End(t: Tables, r: Progress): Result {
    match r
    case Failed(error) => Err(error)
    case Going(p) => Flush(t, p)
  }

  lemma NewlineAtEnd(t: Tables, p: Parser, end: char)
    requires t.Valid() && (end == '\n' || end == '\r')
    ensures if p.curr == Name then Step(t, p, end) == Failed(InvalidCommand) && Flush(t, p) == Err(UnexpectedEof)
            else End(t, Step(t, p, end)) == Flush(t, p)
  {
    if p.curr == Value {
      TrimEnd(t, p.b, end);
    }
  }

  /** A file without its last newline parses as the file with it, unless it ends inside a keyword: then it fails in both
      cases, with different errors. A carriage return is as good as a newline. */
  lemma LastNewline(t: Tables, s: string, end: char)
    requires t.Valid() && (end == '\n' || end == '\r')
    ensures ParseText(t, s) == ParseText(t, s + [end]) <==> !EndsInKeyword(t, s)
    ensures EndsInKeyword(t, s) ==>
      ParseText(t, s) == Err(UnexpectedEof) && ParseText(t, s + [end]) == Err(InvalidCommand)
  {
    var r := Run(t, START, s);
    RunOne(t, START, s, end);
    assert ParseText(t, s) == End(t, r);
    if r.Going? {
      NewlineAtEnd(t, r.p, end);
      assert ParseText(t, s + [end]) == End(t, Step(t, r.p, end));
    }
  }

  // ----- Keywords and roles -----

  /** A keyword is read without regard to case, and refused unless it is one of nine. */
  lemma KeywordCase(t: Tables, p: Parser, word: string)
    requires t.Valid() && p.curr == Nil && word != "" && AllAlpha(word)
    ensures Run(t, p, word + " ") == Run(t, p, ToLower(word) + " ")
    ensures Run(t, p, word + " ") == Failed(InvalidCommand) <==>
      ToLower(word) !in ["from", "license", "template", "system", "adapter",
                      "renderer", "parser", "parameter", "message"]
  {
    var lower := ToLower(word);
    assert ToLower(lower) == lower;
    RunHead(t, p, word);
    RunHead(t, p, lower);
    WordEnds(t, p.(curr := Name, b := word), p.(curr := Name, b := lower));
  }

  lemma WordEnds(t: Tables, p: Parser, q: Parser)
    requires p.curr == Name && q == p.(b := ToLower(p.b)) && ToLower(q.b) == q.b
    ensures Step(t, p, ' ') == Step(t, q, ' ') && (Step(t, p, ' ') == Failed(InvalidCommand) <==> !IsValidCommand(p.b))
  {
  }

  /** A role is refused unless it is one of three. */
  lemma RoleRead(t: Tables, p: Parser, role: string)
    requires t.Valid() && p.curr == Message && p.b == "" && AllAlpha(role)
    ensures Run(t, p, role + " ") ==
            if role in ["system", "user", "assistant"] then Going(p.(curr := Value, b := "", role := role))
            else Failed(InvalidMessageRole)
  {
    RunName(t, p, role);
    RunOne(t, p, role, ' ');
  }
}
