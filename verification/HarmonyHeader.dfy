/** Parsing the header of a message: role, channel and recipient. */
module HarmonyHeader {
  import opened Text
  import opened Harmony

  const CHANNEL := "<|channel|>"
  const CONSTRAIN := "<|constrain|>"
  const TO := "to="

  /** White space as Unicode has it. */
  predicate IsSpace(c: char) {
    var r := c as int;
    || 0x09 <= r <= 0x0d || r == 0x20 || r == 0x85 || r == 0xa0 || r == 0x1680 || 0x2000 <= r <= 0x200a
    || r == 0x2028 || r == 0x2029 || r == 0x202f || r == 0x205f || r == 0x3000
  }

  /** Where the first word of s ends. */
  function WordEnd(s: string): (n: nat)
    ensures n <= |s|
    ensures forall i | 0 <= i < n :: !IsSpace(s[i])
    ensures n < |s| ==> IsSpace(s[n])
  {
    if s == "" || IsSpace(s[0]) then 0 else 1 + WordEnd(s[1..])
  }

  function TrimStart(s: string): string {
    if s != "" && IsSpace(s[0]) then TrimStart(s[1..]) else s
  }

  function TrimEnd(s: string): string {
    if s != "" && IsSpace(s[|s| - 1]) then TrimEnd(s[..|s| - 1]) else s
  }

  function TrimSpace(s: string): string {
    TrimEnd(TrimStart(s))
  }

  /** The words of s. */
  function Fields(s: string): seq<string>
    decreases |s|
  {
    if s == "" then []
    else if IsSpace(s[0]) then Fields(s[1..])
    else [s[..WordEnd(s)]] + Fields(s[WordEnd(s)..])
  }

  predicate HasPrefix(s: string, prefix: string) {
    |prefix| <= |s| && s[..|prefix|] == prefix
  }

  /** A space before the constraint, so that it is a word of its own. */
  function Separated(raw: string): string {
    var i := Index(raw, CONSTRAIN);
    IndexFinds(raw, CONSTRAIN);
    if i < 0 then raw else TrimSpace(raw[..i] + " " + raw[i..])
  }

  /** The channel, up to the next space, and the header without it. */
  function CutChannel(raw: string): (string, string) {
    var i := Index(raw, CHANNEL);
    IndexFinds(raw, CHANNEL);
    if i < 0 then ("", raw)
    else
      var after := raw[i + |CHANNEL|..];
      (after[..WordEnd(after)], TrimSpace(raw[..i] + after[WordEnd(after)..]))
  }

  /** The first word is the role, or the recipient of a tool; the second may be the recipient. */
  function Named(channel: string, words: seq<string>): Header {
    if words == [] then Header("", channel, "")
    else
      var second := if |words| > 1 && HasPrefix(words[1], TO) then words[1][3..] else "";
      if !HasPrefix(words[0], TO) then Header(words[0], channel, second)
      else Header("tool", channel, if words[0] == TO then second else words[0][3..])
  }

  function ParseHeader(raw: string): Header {
    var (channel, rest) := CutChannel(Separated(raw));
    Named(channel, Fields(rest))
  }

  // ----- Words -----

  /** Without spaces, and without the character that tags begin with. */
  ghost predicate Plain(w: string) {
    w != "" && forall i | 0 <= i < |w| :: !IsSpace(w[i]) && w[i] != '<'
  }

  ghost predicate NoSpaces(w: string) {
    forall i | 0 <= i < |w| :: !IsSpace(w[i])
  }

  lemma {:induction false} WordEndIs(w: string, rest: string)
    requires NoSpaces(w) && (rest == "" || IsSpace(rest[0]))
    ensures WordEnd(w + rest) == |w|
    decreases |w|
  {
    if w == "" {
      assert w + rest == rest;
    } else {
      assert (w + rest)[1..] == w[1..] + rest;
      WordEndIs(w[1..], rest);
    }
  }

  /** A word, and what follows after a space or not at all. */
  lemma WordFirst(w: string, rest: string)
    requires w != "" && NoSpaces(w) && (rest == "" || IsSpace(rest[0]))
    ensures Fields(w + rest) == [w] + Fields(rest)
  {
    WordEndIs(w, rest);
    assert (w + rest)[..|w|] == w && (w + rest)[|w|..] == rest;
  }

  lemma SpaceFirst(c: char, rest: string)
    requires IsSpace(c)
    ensures Fields([c] + rest) == Fields(rest)
  {
    assert ([c] + rest)[1..] == rest;
  }

  lemma {:induction false} FieldsStart(s: string)
    ensures Fields(TrimStart(s)) == Fields(s)
  {
    if s != "" && IsSpace(s[0]) {
      FieldsStart(s[1..]);
    }
  }

  /** A space at the end adds no word. */
  lemma {:induction false} FieldsSpace(s: string, c: char)
    requires IsSpace(c)
    ensures Fields(s + [c]) == Fields(s)
    decreases |s|
  {
    if s == "" {
      assert s + [c] == [c] + "";
      SpaceFirst(c, "");
    } else if IsSpace(s[0]) {
      assert (s + [c])[1..] == s[1..] + [c];
      FieldsSpace(s[1..], c);
    } else {
      var w, rest := s[..WordEnd(s)], s[WordEnd(s)..];
      assert s + [c] == w + (rest + [c]) && s == w + rest;
      assert rest != "" ==> (rest + [c])[0] == rest[0];
      FieldsSpace(rest, c);
      WordFirst(w, rest);
      WordFirst(w, rest + [c]);
    }
  }

  lemma {:induction false} FieldsEnd(s: string)
    ensures Fields(TrimEnd(s)) == Fields(s)
    decreases |s|
  {
    if s != "" && IsSpace(s[|s| - 1]) {
      var n := |s| - 1;
      assert s == s[..n] + [s[n]];
      FieldsEnd(s[..n]);
      FieldsSpace(s[..n], s[n]);
    }
  }

  lemma FieldsTrimmed(s: string)
    ensures Fields(TrimSpace(s)) == Fields(s)
  {
    FieldsStart(s);
    FieldsEnd(TrimStart(s));
  }

  lemma TrimNothing(s: string)
    requires s == "" || (!IsSpace(s[0]) && !IsSpace(s[|s| - 1]))
    ensures TrimSpace(s) == s
  {
  }

  // ----- Tags -----

  ghost predicate NoTags(s: string) {
    forall i | 0 <= i < |s| :: s[i] != '<'
  }

  lemma AtRune(s: string, q: nat, tag: string, k: nat)
    requires At(s, q, tag) && k < |tag|
    ensures q + k < |s| && s[q + k] == tag[k]
  {
    assert s[q..q + |tag|][k] == s[q + k];
  }

  lemma NotAt(s: string, q: nat, tag: string, k: nat)
    requires k < |tag| && q + k < |s| && s[q + k] != tag[k]
    ensures !At(s, q, tag)
  {
    if At(s, q, tag) {
      AtRune(s, q, tag, k);
    }
  }

  /** A tag after text without tags is found where it is. */
  lemma TagFound(x: string, tag: string, rest: string)
    requires NoTags(x) && |tag| > 0 && tag[0] == '<'
    ensures Index(x + tag + rest, tag) == |x|
  {
    var s := x + tag + rest;
    assert s[|x|..|x| + |tag|] == tag;
    forall q: nat | q < |x|
      ensures !At(s, q, tag)
    {
      assert s[q] != tag[0];
      NotAt(s, q, tag, 0);
    }
    IndexIs(s, tag, |x|);
  }

  /** Only the channel tag begins as a tag does, and it is not a constraint. */
  lemma ChannelOnly(x: string, y: string, q: nat)
    requires NoTags(x) && NoTags(y) && q < |x + CHANNEL + y|
    ensures var s := x + CHANNEL + y; if q == |x| then q + 4 < |s| && s[q + 4] != CONSTRAIN[4] else s[q] != CONSTRAIN[0]
  {
    var s := x + CHANNEL + y;
    if |x| <= q < |x + CHANNEL| {
      assert s[q] == CHANNEL[q - |x|];
    }
    assert s[|x| + 4] == CHANNEL[4];
  }

  /** Where the constraint is, with a channel tag before it. */
  lemma ConstraintFound(x: string, y: string, rest: string)
    requires NoTags(x) && NoTags(y)
    ensures Index(x + CHANNEL + y + CONSTRAIN + rest, CONSTRAIN) == |x + CHANNEL + y|
  {
    var p := x + CHANNEL + y;
    var s := p + CONSTRAIN + rest;
    assert s[|p|..|p| + |CONSTRAIN|] == CONSTRAIN;
    forall q: nat | q < |p|
      ensures !At(s, q, CONSTRAIN)
    {
      ChannelOnly(x, y, q);
      assert s[q] == p[q] && (q == |x| ==> s[q + 4] == p[q + 4]);
      NotAt(s, q, CONSTRAIN, if q == |x| then 4 else 0);
    }
    IndexIs(s, CONSTRAIN, |p|);
  }

  lemma NoConstraint(x: string, y: string)
    requires NoTags(x) && NoTags(y)
    ensures Index(x + CHANNEL + y, CONSTRAIN) < 0
  {
    var s := x + CHANNEL + y;
    IndexFinds(s, CONSTRAIN);
    forall q: nat | q < |s|
      ensures !At(s, q, CONSTRAIN)
    {
      ChannelOnly(x, y, q);
      NotAt(s, q, CONSTRAIN, if q == |x| then 4 else 0);
    }
  }

  // ----- Headers -----

  ghost predicate AllPlain(words: seq<string>) {
    forall k | 0 <= k < |words| :: Plain(words[k])
  }

  /** The words, each after a space. */
  function After(words: seq<string>): string {
    if words == [] then "" else " " + words[0] + After(words[1..])
  }

  /** The words with spaces between them. */
  function Join(words: seq<string>): string
    requires words != []
  {
    words[0] + After(words[1..])
  }

  lemma {:induction false} FieldsAfter(words: seq<string>, rest: string)
    requires AllPlain(words) && (rest == "" || IsSpace(rest[0]))
    ensures Fields(After(words) + rest) == words + Fields(rest)
    decreases |words|
  {
    if words == [] {
      assert After(words) + rest == rest;
    } else {
      var w, more := words[0], After(words[1..]) + rest;
      FieldsAfter(words[1..], rest);
      AfterStarts(words[1..], rest);
      WordFirst(w, more);
      SpaceFirst(' ', w + more);
      RegroupAfter(w, After(words[1..]), rest);
      Cons(words, Fields(rest));
    }
  }

  lemma RegroupAfter(w: string, a: string, rest: string)
    ensures " " + w + a + rest == [' '] + (w + (a + rest)) && w + a + rest == w + (a + rest)
  {
  }

  lemma Cons(words: seq<string>, more: seq<string>)
    requires words != []
    ensures [words[0]] + (words[1..] + more) == words + more
  {
  }

  lemma AfterStarts(words: seq<string>, rest: string)
    requires rest == "" || IsSpace(rest[0])
    ensures var s := After(words) + rest; s == "" || IsSpace(s[0])
  {
  }

  lemma FieldsJoin(words: seq<string>, rest: string)
    requires words != [] && AllPlain(words) && (rest == "" || IsSpace(rest[0]))
    ensures Fields(Join(words) + rest) == words + Fields(rest)
  {
    FieldsAfter(words[1..], rest);
    AfterStarts(words[1..], rest);
    WordFirst(words[0], After(words[1..]) + rest);
    RegroupAfter(words[0], After(words[1..]), rest);
    Cons(words, Fields(rest));
  }

  lemma {:induction false} AfterNoTags(words: seq<string>)
    requires AllPlain(words)
    ensures NoTags(After(words))
  {
    if words != [] {
      AfterNoTags(words[1..]);
    }
  }

  /** What may end a header: nothing, or a constraint, with or without a space before it. */
  datatype Ending = Nothing | Constraint(spaced: bool, text: string) {
    ghost predicate Valid() {
      Constraint? ==> NoSpaces(text)
    }

    function Written(): string {
      if Nothing? then "" else (if spaced then " " else "") + CONSTRAIN + text
    }

    function Words(): seq<string> {
      if Nothing? then [] else [CONSTRAIN + text]
    }
  }

  /** After the constraint has been set off: the words behind the channel, and the constraint. */
  function Behind(words: seq<string>, end: Ending): string {
    After(words) + if end.Nothing? then "" else (if end.spaced then " " else "") + " " + CONSTRAIN + end.text
  }

  lemma BehindWords(words: seq<string>, end: Ending)
    requires AllPlain(words) && end.Valid()
    ensures var s := Behind(words, end); (s == "" || IsSpace(s[0])) && Fields(s) == words + end.Words()
  {
    if end.Nothing? {
      FieldsAfter(words, "");
      AfterStarts(words, "");
      assert Behind(words, end) == After(words) + "";
    } else {
      var c := CONSTRAIN + end.text;
      var rest := (if end.spaced then " " else "") + " " + CONSTRAIN + end.text;
      assert c == c + "";
      WordFirst(c, "");
      SpaceFirst(' ', c);
      SpaceFirst(' ', " " + c);
      assert rest == if end.spaced then [' '] + (" " + c) else [' '] + c;
      assert " " + c == [' '] + c;
      FieldsAfter(words, rest);
      AfterStarts(words, rest);
    }
  }

  lemma Regroup(a: string, b: string, c: string)
    ensures a + b + c == a + (b + c)
  {
  }

  /** Setting the constraint off leaves the channel tag and what is before and behind it. */
  lemma SeparatedHeader(x: string, y: string, end: Ending)
    requires x != "" && !IsSpace(x[0]) && NoTags(x) && NoTags(y) && end.Valid()
    ensures Separated(x + CHANNEL + y + end.Written()) ==
            x + CHANNEL + y +
            (if end.Nothing? then "" else (if end.spaced then " " else "") + " " + CONSTRAIN + end.text)
  {
    var s := x + CHANNEL + y;
    if end.Nothing? {
      assert s + "" == s;
      NoConstraint(x, y);
    } else {
      var gap := if end.spaced then " " else "";
      SeparatedConstraint(x, y + gap, end.text);
      SetOff(s, gap, CONSTRAIN, end.text);
      Regroup(x + CHANNEL, y, gap);
    }
  }

  lemma SetOff(s: string, gap: string, tag: string, text: string)
    ensures s + (gap + tag + text) == s + gap + tag + text
    ensures s + (gap + " " + tag + text) == s + gap + " " + (tag + text)
  {
  }

  lemma SeparatedConstraint(x: string, y: string, text: string)
    requires x != "" && !IsSpace(x[0]) && NoTags(x) && NoTags(y) && NoSpaces(text)
    ensures Separated(x + CHANNEL + y + CONSTRAIN + text) == x + CHANNEL + y + " " + (CONSTRAIN + text)
  {
    var p, c := x + CHANNEL + y, CONSTRAIN + text;
    ConstraintFound(x, y, text);
    Regroup(p, CONSTRAIN, text);
    assert (p + c)[..|p|] == p && (p + c)[|p|..] == c;
    var s := p + " " + c;
    assert s[0] == x[0] && s[|s| - 1] == c[|c| - 1];
    TrimNothing(s);
  }

  lemma CutHeader(x: string, channel: string, behind: string)
    requires NoTags(x) && NoSpaces(channel) && (behind == "" || IsSpace(behind[0]))
    ensures CutChannel(x + CHANNEL + (channel + behind)) == (channel, TrimSpace(x + behind))
  {
    var after := channel + behind;
    var s := x + CHANNEL + after;
    TagFound(x, CHANNEL, after);
    assert s[|x| + |CHANNEL|..] == after && s[..|x|] == x;
    WordEndIs(channel, behind);
    assert after[..|channel|] == channel && after[|channel|..] == behind;
  }

  /** A header is read word by word, the channel aside. */
  lemma HeaderRead(words: seq<string>, channel: string, more: seq<string>, end: Ending)
    requires words != [] && AllPlain(words) && Plain(channel) && AllPlain(more) && end.Valid()
    ensures ParseHeader(Join(words) + CHANNEL + (channel + After(more)) + end.Written()) ==
            Named(channel, words + (more + end.Words()))
  {
    var x, behind := Join(words), Behind(more, end);
    AfterNoTags(words[1..]);
    AfterNoTags(more);
    SeparatedHeader(x, channel + After(more), end);
    Regroup(x + CHANNEL, channel + After(more), behind[|After(more)|..]);
    assert behind == After(more) + behind[|After(more)|..];
    Regroup(channel, After(more), behind[|After(more)|..]);
    BehindWords(more, end);
    CutHeader(x, channel, behind);
    FieldsTrimmed(x + behind);
    FieldsJoin(words, behind);
  }

  /** Without a channel tag too. */
  lemma HeaderWithoutChannel(words: seq<string>)
    requires words != [] && AllPlain(words)
    ensures ParseHeader(Join(words)) == Named("", words)
  {
    var s := Join(words);
    AfterNoTags(words[1..]);
    FieldsJoin(words, "");
    assert s + "" == s && words + Fields("") == words;
    TaglessIndex(s, CONSTRAIN);
    TaglessIndex(s, CHANNEL);
  }

  lemma TaglessIndex(s: string, tag: string)
    requires NoTags(s) && tag != "" && tag[0] == '<'
    ensures Index(s, tag) < 0
  {
    IndexFinds(s, tag);
    forall q: nat | q < |s|
      ensures !At(s, q, tag)
    {
      NotAt(s, q, tag, 0);
    }
  }

  /** Without a channel, the words are the role and the recipient. */
  lemma HeaderWithout(role: string, recipient: string)
    requires Plain(role) && !HasPrefix(role, TO) && Plain(recipient)
    ensures ParseHeader(role) == Header(role, "", "")
    ensures ParseHeader(role + " " + TO + recipient) == Header(role, "", recipient)
  {
    var to := TO + recipient;
    OneWord(role);
    OneWord(to);
    HeaderWithoutChannel([role]);
    HeaderWithoutChannel([role, to]);
    assert [role, to][1..] == [to];
    HeaderNames(role, "", recipient, Nothing);
    Regroup(role, " ", to);
    Regroup(role + " ", TO, recipient);
  }

  /** Role and channel; a constraint behind them changes nothing. */
  lemma HeaderPlain(role: string, channel: string, end: Ending)
    requires Plain(role) && !HasPrefix(role, TO) && Plain(channel) && end.Valid()
    ensures ParseHeader(role + (CHANNEL + channel) + end.Written()) == Header(role, channel, "")
  {
    HeaderRead([role], channel, [], end);
    HeaderNames(role, channel, "x", end);
    HeaderTexts(role, channel, "", end);
  }

  /** The recipient may stand before the channel. */
  lemma RecipientBefore(role: string, channel: string, recipient: string, end: Ending)
    requires Plain(role) && !HasPrefix(role, TO) && Plain(channel) && Plain(recipient) && end.Valid()
    ensures var to := TO + recipient;
            ParseHeader(role + " " + to + (CHANNEL + channel) + end.Written()) == Header(role, channel, recipient)
  {
    var to := TO + recipient;
    HeaderRead([role, to], channel, [], end);
    HeaderNames(role, channel, recipient, end);
    HeaderTexts(role, channel, to, end);
  }

  /** It may stand behind the channel. */
  lemma RecipientBehind(role: string, channel: string, recipient: string, end: Ending)
    requires Plain(role) && !HasPrefix(role, TO) && Plain(channel) && Plain(recipient) && end.Valid()
    ensures var to := TO + recipient;
            ParseHeader(role + (CHANNEL + channel) + " " + to + end.Written()) == Header(role, channel, recipient)
  {
    var to := TO + recipient;
    HeaderRead([role], channel, [to], end);
    HeaderNames(role, channel, recipient, end);
    HeaderTexts(role, channel, to, end);
  }

  /** It may stand first, in place of the role. */
  lemma RecipientFirst(channel: string, recipient: string, end: Ending)
    requires Plain(channel) && Plain(recipient) && end.Valid()
    ensures var to := TO + recipient;
            ParseHeader(to + (CHANNEL + channel) + end.Written()) == Header("tool", channel, recipient)
  {
    var to := TO + recipient;
    ToolNamed(channel, recipient, end.Words());
    HeaderRead([to], channel, [], end);
    HeaderTexts(to, channel, "", end);
  }

  lemma ToolNamed(channel: string, recipient: string, words: seq<string>)
    requires Plain(recipient)
    ensures Plain(TO + recipient)
    ensures Named(channel, [TO + recipient] + ([] + words)) == Header("tool", channel, recipient)
  {
    var to := TO + recipient;
    assert HasPrefix(to, TO) && to[3..] == recipient && to != TO;
  }

  lemma OneWord(w: string)
    ensures Join([w]) == w && After([w]) == " " + w
  {
    assert [w][1..] == [];
    assert w + "" == w && " " + w + "" == " " + w;
  }

  lemma HeaderNames(role: string, channel: string, recipient: string, end: Ending)
    requires Plain(role) && !HasPrefix(role, TO) && Plain(recipient)
    ensures var to := TO + recipient;
            && Named("", [role]) == Header(role, "", "") && Named("", [role, to]) == Header(role, "", recipient)
            && Named(channel, [role] + ([] + end.Words())) == Header(role, channel, "")
            && Named(channel, [role, to] + ([] + end.Words())) == Header(role, channel, recipient)
            && Named(channel, [role] + ([to] + end.Words())) == Header(role, channel, recipient)
  {
    var to := TO + recipient;
    assert HasPrefix(to, TO) && to[3..] == recipient && to != TO;
    assert end.Constraint? ==> (CONSTRAIN + end.text)[..3] == "<|c";
  }

  lemma HeaderTexts(role: string, channel: string, to: string, end: Ending)
    ensures var c, e := CHANNEL + channel, end.Written();
            && Join([role]) + CHANNEL + (channel + After([])) + e == role + c + e
            && Join([role, to]) + CHANNEL + (channel + After([])) + e == role + " " + to + c + e
            && Join([role]) + CHANNEL + (channel + After([to])) + e == role + c + " " + to + e
            && Join([to]) + CHANNEL + (channel + After([])) + e == to + c + e
  {
    OneWord(role);
    OneWord(to);
    assert [role, to][1..] == [to];
    Regroup(role, " ", to);
    assert channel + "" == channel && After([]) == "";
    Regroup(role, CHANNEL, channel);
    Regroup(role + " " + to, CHANNEL, channel);
    Regroup(to, CHANNEL, channel);
    TextBehind(role, CHANNEL, channel, to);
  }

  lemma TextBehind(x: string, tag: string, channel: string, to: string)
    ensures x + tag + (channel + (" " + to)) == x + (tag + channel) + " " + to
  {
  }

  /** The first word may name nobody; then the second one counts. */
  lemma EmptyRecipient(recipient: string)
    requires Plain(recipient)
    ensures ParseHeader(TO + " " + TO + recipient) == Header("tool", "", recipient)
  {
    var to := TO + recipient;
    HeaderWithoutChannel([TO, to]);
    OneWord(to);
    assert [TO, to][1..] == [to] && HasPrefix(to, TO) && to[3..] == recipient && HasPrefix(TO, TO);
    Regroup(TO, " ", to);
    Regroup(TO + " ", TO, recipient);
  }

  /** The ASCII characters among the spaces. */
  lemma AsciiSpaces(c: char)
    requires c as int < 128
    ensures IsSpace(c) <==> c in "\t\n\U{0b}\U{0c}\r "
  {
  }

  // ----- Messages -----

  /** A message without a recipient, from its text to the stream it is returned in. */
  lemma PlainMessage(mode: Mode, name: string, role: string, channel: string, end: Ending,
                     before: string, content: string)
    requires Plain(role) && !HasPrefix(role, TO) && Plain(channel) && end.Valid()
    ensures var r := Sorted(ParseHeader, Streams(mode, name, "", "", ""),
                            [Message(before, role + (CHANNEL + channel) + end.Written(), content)]);
            && (channel == "analysis" ==> r == Streams(Normally, name, "", content, ""))
            && (channel == "final" || channel == "commentary" ==> r == Streams(Normally, name, content, "", ""))
  {
    HeaderPlain(role, channel, end);
    OneMessage(ParseHeader, mode, name, Message(before, role + (CHANNEL + channel) + end.Written(), content));
  }

  /** A message for a tool, with the recipient before or behind the channel. */
  lemma ToolMessage(mode: Mode, name: string, role: string, channel: string, recipient: string,
                    end: Ending, before: string,
                    content: string)
    requires Plain(role) && !HasPrefix(role, TO) && Plain(recipient) && end.Valid()
    requires channel == "analysis" || channel == "commentary"
    ensures var c, to, s := CHANNEL + channel, TO + recipient, Streams(mode, name, "", "", "");
            && Sorted(ParseHeader, s, [Message(before, role + " " + to + c + end.Written(), content)]) ==
               Sorted(ParseHeader, s, [Message(before, role + c + " " + to + end.Written(), content)]) ==
               Streams(Normally, recipient, "", "", content)
  {
    var c, to := CHANNEL + channel, TO + recipient;
    ChannelsPlain();
    RecipientBefore(role, channel, recipient, end);
    RecipientBehind(role, channel, recipient, end);
    OneMessage(ParseHeader, mode, name, Message(before, role + " " + to + c + end.Written(), content));
    OneMessage(ParseHeader, mode, name, Message(before, role + c + " " + to + end.Written(), content));
  }

  lemma ChannelsPlain()
    ensures Plain("analysis") && Plain("commentary")
  {
  }
}
