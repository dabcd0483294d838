/** The incremental parser for tagged messages, and the handler that sorts their content into
    streams. What they produce does not depend on how the text is cut into pieces. */
module Harmony {
  import opened Text

  datatype State = LookingForMessageStart | ParsingHeader | ParsingContent

  datatype Tags = Tags(start: string, end: string, headerEnd: string) {
    predicate Valid() {
      start != "" && end != "" && headerEnd != ""
    }
  }

  const DEFAULT_TAGS := Tags("<|start|>", "<|end|>", "<|message|>")

  /** A header event carries the raw header text. */
  datatype Event =
    | MessageStart
    | HeaderComplete(header: string)
    | ContentEmitted(content: string)
    | MessageEnd

  /** The longest suffix of s that is a prefix of delim. */
  method Overlap(s: string, delim: string) returns (n: nat)
    ensures n <= |s| && n <= |delim| && Begins(s, |s| - n, delim)
    ensures forall q | 0 <= q < |s| - n && |s| - |delim| <= q :: !Begins(s, q, delim)
  {
    n := if |delim| <= |s| then |delim| else |s|;
    while n > 0
      invariant n <= |s| && n <= |delim|
      invariant forall q | 0 <= q < |s| - n && |s| - |delim| <= q :: !Begins(s, q, delim)
    {
      SuffixBegins(s, n, delim);
      if s[|s| - n..] == delim[..n] {
        return;
      }
      n := n - 1;
    }
  }

  lemma SuffixBegins(s: string, n: nat, delim: string)
    requires n <= |s| && n <= |delim|
    ensures s[|s| - n..] == delim[..n] <==> Begins(s, |s| - n, delim)
  {
    if Begins(s, |s| - n, delim) {
      assert forall k | 0 <= k < n :: s[|s| - n + k] == delim[k];
    } else {
      var k := Mismatch(s, |s| - n, delim);
      assert s[|s| - n..][k] == s[|s| - n + k];
      assert delim[..n][k] == delim[k];
    }
  }

  /** With the tag in s, what is held back begins with the tag; without it, it is the overlap. */
  lemma HoldIsIndex(s: string, tag: string)
    requires Contains(s, tag)
    ensures Hold(s, tag) == Index(s, tag)
  {
    IndexFinds(s, tag);
    var i := Index(s, tag);
    BeginsAt(s, i, tag);
    forall q | 0 <= q < i
      ensures !Begins(s, q, tag)
    {
      BeginsAt(s, q, tag);
    }
    HoldIs(s, tag, i);
  }

  lemma HoldIsOverlap(s: string, tag: string, n: nat)
    requires !Contains(s, tag) && n <= |s| && n <= |tag| && Begins(s, |s| - n, tag)
    requires forall q | 0 <= q < |s| - n && |s| - |tag| <= q :: !Begins(s, q, tag)
    ensures Hold(s, tag) == |s| - n && n < |tag|
  {
    IndexFinds(s, tag);
    if n == |tag| {
      BeginsAt(s, |s| - n, tag);
    }
    forall q | 0 <= q < |s| - n
      ensures !Begins(s, q, tag)
    {
      if q + |tag| <= |s| {
        BeginsAt(s, q, tag);
      }
    }
    HoldIs(s, tag, |s| - n);
  }

  // ----- What a buffer yields -----

  datatype Drained = Drained(events: seq<Event>, state: State, acc: string)

  function Emit(content: string): seq<Event> {
    if content == "" then [] else [ContentEmitted(content)]
  }

  /** Everything that can be told from the buffer, and what remains to be disambiguated. Content is
      emitted up to the first place where the end tag could still begin. */
  function Drain(tags: Tags, state: State, acc: string): Drained
    requires tags.Valid()
    decreases |acc|
  {
    match state
    case LookingForMessageStart =>
      var i := Index(acc, tags.start);
      if i < 0 then Drained([], state, acc)
      else
        IndexFinds(acc, tags.start);
        var r := Drain(tags, ParsingHeader, acc[i + |tags.start|..]);
        r.(events := [MessageStart] + r.events)
    case ParsingHeader =>
      var i := Index(acc, tags.headerEnd);
      if i < 0 then Drained([], state, acc)
      else
        IndexFinds(acc, tags.headerEnd);
        var r := Drain(tags, ParsingContent, acc[i + |tags.headerEnd|..]);
        r.(events := [HeaderComplete(acc[..i])] + r.events)
    case ParsingContent =>
      var h := Hold(acc, tags.end);
      if h + |tags.end| > |acc| then Drained(Emit(acc[..h]), state, acc[h..])
      else
        var r := Drain(tags, LookingForMessageStart, acc[h + |tags.end|..]);
        r.(events := Emit(acc[..h]) + [MessageEnd] + r.events)
  }

  /** Nothing is held back that can be told: no tag that is waited for, and of content only the beginning of
      an end tag. */
  ghost predicate Prompt(tags: Tags, state: State, acc: string) {
    match state
    case LookingForMessageStart => forall q: nat :: !At(acc, q, tags.start)
    case ParsingHeader => forall q: nat :: !At(acc, q, tags.headerEnd)
    case ParsingContent => |acc| < |tags.end| && forall i | 0 <= i < |acc| :: acc[i] == tags.end[i]
  }

  lemma {:induction false} DrainPrompt(tags: Tags, state: State, acc: string)
    requires tags.Valid()
    ensures var r := Drain(tags, state, acc); Prompt(tags, r.state, r.acc)
    decreases |acc|
  {
    match state
    case LookingForMessageStart => DrainPromptTag(tags, state, acc);
    case ParsingHeader => DrainPromptTag(tags, state, acc);
    case ParsingContent => DrainPromptContent(tags, acc);
  }

  lemma {:induction false} DrainPromptTag(tags: Tags, state: State, acc: string)
    requires tags.Valid() && state != ParsingContent
    ensures var r := Drain(tags, state, acc); Prompt(tags, r.state, r.acc)
    decreases |acc|, 0
  {
    var tag := Awaited(tags, state);
    var i := Index(acc, tag);
    IndexFinds(acc, tag);
    if i >= 0 {
      DrainPrompt(tags, After(state), acc[i + |tag|..]);
    }
  }

  lemma {:induction false} DrainPromptContent(tags: Tags, acc: string)
    requires tags.Valid()
    ensures var r := Drain(tags, ParsingContent, acc); Prompt(tags, r.state, r.acc)
    decreases |acc|, 0
  {
    var h := Hold(acc, tags.end);
    HoldFinds(acc, tags.end);
    if h + |tags.end| <= |acc| {
      DrainPrompt(tags, LookingForMessageStart, acc[h + |tags.end|..]);
    }
  }

  /** What is drained after these events, with them. */
  function Prefixed(events: seq<Event>, r: Drained): Drained {
    r.(events := events + r.events)
  }

  lemma PrefixedTwice(x: seq<Event>, y: seq<Event>, r: Drained)
    ensures Prefixed(x, Prefixed(y, r)) == Prefixed(x + y, r)
  {
    assert x + (y + r.events) == x + y + r.events;
  }

  class Parser {
    const tags: Tags
    var state: State
    var acc: string
    var lifetimeAcc: string

    constructor (tags: Tags)
      ensures this.tags == tags && state == LookingForMessageStart && acc == "" && lifetimeAcc == ""
    {
      this.tags, state, acc, lifetimeAcc := tags, LookingForMessageStart, "", "";
    }

    /** One step; more says whether there may be more to take from the buffer. */
    method Eat() returns (events: seq<Event>, more: bool)
      requires tags.Valid()
      modifies this`state, this`acc
      ensures more ==> |acc| < |old(acc)|
      ensures !more ==> Drain(tags, old(state), old(acc)) == Drained(events, state, acc)
      ensures more ==> Drain(tags, old(state), old(acc)) == Prefixed(events, Drain(tags, state, acc))
    {
      match state
      case LookingForMessageStart =>
        var i := Index(acc, tags.start);
        if i >= 0 {
          IndexFinds(acc, tags.start);
          acc := acc[i + |tags.start|..];
          state := ParsingHeader;
          return [MessageStart], true;
        }
        return [], false;
      case ParsingHeader =>
        var i := Index(acc, tags.headerEnd);
        if i >= 0 {
          IndexFinds(acc, tags.headerEnd);
          var header := acc[..i];
          acc := acc[i + |tags.headerEnd|..];
          state := ParsingContent;
          return [HeaderComplete(header)], true;
        }
        return [], false;
      case ParsingContent =>
        events, more := EatContent();
    }

    method EatContent() returns (events: seq<Event>, more: bool)
      requires tags.Valid() && state == ParsingContent
      modifies this`state, this`acc
      ensures more ==> |acc| < |old(acc)|
      ensures !more ==> Drain(tags, old(state), old(acc)) == Drained(events, state, acc)
      ensures more ==> Drain(tags, old(state), old(acc)) == Prefixed(events, Drain(tags, state, acc))
    {
      var i := Index(acc, tags.end);
      if i >= 0 {
        IndexFinds(acc, tags.end);
        HoldIsIndex(acc, tags.end);
        var content := acc[..i];
        acc := acc[i + |tags.end|..];
        state := LookingForMessageStart;
        events := [];
        if content != "" {
          events := events + [ContentEmitted(content)];
        }
        events := events + [MessageEnd];
        return events, true;
      }
      events := EmitHeld();
      more := false;
    }

    /** Without the end tag: what cannot be part of it is emitted, the rest is held back. */
    method EmitHeld() returns (events: seq<Event>)
      requires tags.Valid() && state == ParsingContent && !Contains(acc, tags.end)
      modifies this`acc
      ensures Drain(tags, ParsingContent, old(acc)) == Drained(events, ParsingContent, acc)
    {
      var overlapLen := Overlap(acc, tags.end);
      HoldIsOverlap(acc, tags.end, overlapLen);
      if overlapLen > 0 {
        var content := acc[..|acc| - overlapLen];
        acc := acc[|acc| - overlapLen..];
        if content == "" {
          return [];
        }
        return [ContentEmitted(content)];
      }
      var content := acc;
      assert content[..|content|] == content && content[|content|..] == "";
      if content == "" {
        return [];
      }
      acc := "";
      return [ContentEmitted(content)];
    }

    /** Adds text and takes from the buffer whatever is unambiguous. */
    method AddContent(content: string) returns (events: seq<Event>)
      requires tags.Valid()
      modifies this`state, this`acc, this`lifetimeAcc
      ensures lifetimeAcc == old(lifetimeAcc) + content
      ensures Drain(tags, old(state), old(acc) + content) == Drained(events, state, acc)
      ensures Prompt(tags, state, acc)
    {
      DrainPrompt(tags, state, acc + content);
      lifetimeAcc := lifetimeAcc + content;
      acc := acc + content;
      ghost var whole := Drain(tags, state, acc);
      events := [];
      var keepLooping := true;
      while keepLooping
        invariant lifetimeAcc == old(lifetimeAcc) + content
        invariant keepLooping ==> whole == Prefixed(events, Drain(tags, state, acc))
        invariant !keepLooping ==> whole == Drained(events, state, acc)
        decreases keepLooping, |acc|
      {
        var newEvents;
        ghost var before := events;
        newEvents, keepLooping := Eat();
        events := events + newEvents;
        PrefixedTwice(before, newEvents, Drain(tags, state, acc));
      }
    }
  }

  // ----- Chunking does not matter -----

  /** Appends an event, joining content to content. */
  function Glue(events: seq<Event>, e: Event): seq<Event> {
    if events != [] && events[|events| - 1].ContentEmitted? && e.ContentEmitted? then
      events[..|events| - 1] + [ContentEmitted(events[|events| - 1].content + e.content)]
    else events + [e]
  }

  function GlueAll(events: seq<Event>, more: seq<Event>): seq<Event>
    decreases |more|
  {
    if more == [] then events else GlueAll(Glue(events, more[0]), more[1..])
  }

  lemma {:induction false} GlueAllConcat(events: seq<Event>, x: seq<Event>, y: seq<Event>)
    ensures GlueAll(events, x + y) == GlueAll(GlueAll(events, x), y)
    decreases |x|
  {
    if x == [] {
      assert x + y == y;
    } else {
      assert (x + y)[1..] == x[1..] + y;
      GlueAllConcat(Glue(events, x[0]), x[1..], y);
    }
  }

  lemma EmitTwice(pre: seq<Event>, a: string, b: string)
    ensures GlueAll(pre, Emit(a + b)) == GlueAll(GlueAll(pre, Emit(a)), Emit(b))
  {
    if a == "" {
      assert a + b == b;
    } else if b == "" {
      assert a + b == a;
    } else {
      var one := Glue(pre, ContentEmitted(a));
      var n := |one| - 1;
      assert one[n].ContentEmitted?;
      assert Emit(a)[1..] == [] && Emit(b)[1..] == [] && Emit(a + b)[1..] == [];
      assert GlueAll(pre, Emit(a)) == one;
      assert GlueAll(one, Emit(b)) == Glue(one, ContentEmitted(b));
      assert GlueAll(pre, Emit(a + b)) == Glue(pre, ContentEmitted(a + b));
      if pre != [] && pre[|pre| - 1].ContentEmitted? {
        assert (pre[|pre| - 1].content + a) + b == pre[|pre| - 1].content + (a + b);
      }
    }
  }

  /** The two results agree once adjacent content is merged, whatever came before. */
  ghost predicate Same(first: Drained, rest: Drained, whole: Drained) {
    && rest.state == whole.state && rest.acc == whole.acc
    && forall pre: seq<Event> :: GlueAll(GlueAll(pre, first.events), rest.events) == GlueAll(pre, whole.events)
  }

  lemma SameAfter(head: seq<Event>, first: Drained, rest: Drained, whole: Drained)
    requires Same(first, rest, whole)
    ensures Same(first.(events := head + first.events), rest, whole.(events := head + whole.events))
  {
    forall pre: seq<Event>
      ensures GlueAll(GlueAll(pre, head + first.events), rest.events) == GlueAll(pre, head + whole.events)
    {
      GlueAllConcat(pre, head, first.events);
      GlueAllConcat(pre, head, whole.events);
    }
  }

  /** Draining x, adding y and draining again is draining both at once. */
  ghost predicate Splits(tags: Tags, state: State, x: string, y: string)
    requires tags.Valid()
  {
    var first := Drain(tags, state, x);
    Same(first, Drain(tags, first.state, first.acc + y), Drain(tags, state, x + y))
  }

  /** Draining a buffer, adding text and draining again is draining it all at once. */
  lemma {:induction false} DrainSplit(tags: Tags, state: State, x: string, y: string)
    requires tags.Valid()
    ensures Splits(tags, state, x, y)
    decreases |x|
  {
    match state
    case LookingForMessageStart => DrainSplitTag(tags, state, x, y);
    case ParsingHeader => DrainSplitTag(tags, state, x, y);
    case ParsingContent => DrainSplitContent(tags, x, y);
  }

  lemma {:induction false} DrainSplitTag(tags: Tags, state: State, x: string, y: string)
    requires tags.Valid() && state != ParsingContent
    ensures Splits(tags, state, x, y)
    decreases |x|, 0
  {
    var tag := Awaited(tags, state);
    var i := Index(x, tag);
    if i >= 0 {
      IndexFinds(x, tag);
      DrainSplit(tags, After(state), x[i + |tag|..], y);
      SplitsTag(tags, state, x, y, i);
    } else {
      SplitsHeld(tags, state, x, y);
    }
  }

  /** The tag that is found in x is found there in x + y. */
  lemma TagHeads(tags: Tags, state: State, x: string, y: string, i: nat)
    requires tags.Valid() && state != ParsingContent
    requires i == Index(x, Awaited(tags, state)) && i + |Awaited(tags, state)| <= |x|
    ensures var x', head := x[i + |Awaited(tags, state)|..], Announced(state, x[..i]);
            && Heads(tags, state, x, head, After(state), x')
            && Heads(tags, state, x + y, head, After(state), x' + y)
  {
    var tag := Awaited(tags, state);
    IndexLonger(x, y, tag);
    assert (x + y)[i + |tag|..] == x[i + |tag|..] + y && (x + y)[..i] == x[..i];
    DrainTag(tags, state, x, i);
    DrainTag(tags, state, x + y, i);
  }

  lemma SplitsTag(tags: Tags, state: State, x: string, y: string, i: nat)
    requires tags.Valid() && state != ParsingContent
    requires i == Index(x, Awaited(tags, state)) && i + |Awaited(tags, state)| <= |x|
    requires Splits(tags, After(state), x[i + |Awaited(tags, state)|..], y)
    ensures Splits(tags, state, x, y)
  {
    TagHeads(tags, state, x, y, i);
    SplitsAfter(tags, state, x, y, Announced(state, x[..i]), After(state), x[i + |Awaited(tags, state)|..]);
  }

  /** Text that yields nothing is kept whole. */
  lemma SplitsHeld(tags: Tags, state: State, x: string, y: string)
    requires tags.Valid() && state != ParsingContent && !Contains(x, Awaited(tags, state))
    ensures Splits(tags, state, x, y)
  {
  }

  /** The tag a state other than content waits for, the state after it, and what it announces. */
  function Awaited(tags: Tags, state: State): string {
    if state == LookingForMessageStart then tags.start else tags.headerEnd
  }

  function After(state: State): State {
    if state == LookingForMessageStart then ParsingHeader else ParsingContent
  }

  function Announced(state: State, before: string): seq<Event> {
    if state == LookingForMessageStart then [MessageStart] else [HeaderComplete(before)]
  }

  /** Draining x yields head, and then what draining x' yields. */
  ghost predicate Heads(tags: Tags, state: State, x: string, head: seq<Event>, next: State, x': string)
    requires tags.Valid()
  {
    var r := Drain(tags, next, x');
    Drain(tags, state, x) == r.(events := head + r.events)
  }

  lemma DrainTag(tags: Tags, state: State, x: string, i: nat)
    requires tags.Valid() && state != ParsingContent
    requires i == Index(x, Awaited(tags, state)) && i + |Awaited(tags, state)| <= |x|
    ensures Heads(tags, state, x, Announced(state, x[..i]), After(state), x[i + |Awaited(tags, state)|..])
  {
  }

  /** Text that splits still splits after the same events on both sides. */
  lemma SplitsAfter(tags: Tags, state: State, x: string, y: string, head: seq<Event>, next: State, x': string)
    requires tags.Valid() && Splits(tags, next, x', y)
    requires Heads(tags, state, x, head, next, x') && Heads(tags, state, x + y, head, next, x' + y)
    ensures Splits(tags, state, x, y)
  {
    var first := Drain(tags, next, x');
    SameAfter(head, first, Drain(tags, first.state, first.acc + y), Drain(tags, next, x' + y));
  }

  lemma {:induction false} DrainSplitContent(tags: Tags, x: string, y: string)
    requires tags.Valid()
    ensures Splits(tags, ParsingContent, x, y)
    decreases |x|, 0
  {
    var tag := tags.end;
    var h := Hold(x, tag);
    HoldLonger(x, y, tag);
    if h + |tag| <= |x| {
      HoldStays(x, y, tag);
      var x', head := x[h + |tag|..], Emit(x[..h]) + [MessageEnd];
      assert (x + y)[h + |tag|..] == x' + y && (x + y)[..h] == x[..h];
      DrainSplit(tags, LookingForMessageStart, x', y);
      SplitsAfter(tags, ParsingContent, x, y, head, LookingForMessageStart, x');
    } else {
      HeldContent(tags, x[..h], x[h..] + y, x + y, x[h..]);
    }
  }

  /** Once the tag is complete, more text does not move it. */
  lemma HoldStays(x: string, y: string, tag: string)
    requires Hold(x, tag) + |tag| <= |x|
    ensures Hold(x + y, tag) == Hold(x, tag)
  {
    var h := Hold(x, tag);
    HoldFinds(x, tag);
    BeginsAt(x, h, tag);
    AtLonger(x, y, h, tag);
    BeginsAt(x + y, h, tag);
    forall q | 0 <= q < h
      ensures !Begins(x + y, q, tag)
    {
      BeginsLonger(x, y, q, tag);
    }
    HoldIs(x + y, tag, h);
  }

  /** What follows once content has been emitted up to where the end tag could begin. */
  function AtHold(tags: Tags, rest: string): Drained
    requires tags.Valid()
  {
    if |rest| < |tags.end| then Drained([], ParsingContent, rest)
    else
      var r := Drain(tags, LookingForMessageStart, rest[|tags.end|..]);
      r.(events := [MessageEnd] + r.events)
  }

  lemma DrainContent(tags: Tags, acc: string, h: nat)
    requires tags.Valid() && h == Hold(acc, tags.end)
    ensures var r := AtHold(tags, acc[h..]);
            Drain(tags, ParsingContent, acc) == r.(events := Emit(acc[..h]) + r.events)
  {
    if h + |tags.end| <= |acc| {
      assert acc[h..][|tags.end|..] == acc[h + |tags.end|..];
      var r := Drain(tags, LookingForMessageStart, acc[h + |tags.end|..]);
      assert Emit(acc[..h]) + [MessageEnd] + r.events == Emit(acc[..h]) + ([MessageEnd] + r.events);
    } else {
      assert Emit(acc[..h]) + [] == Emit(acc[..h]);
    }
  }

  lemma GlueEarly(pre: seq<Event>, a: string, b: string, tail: seq<Event>)
    ensures GlueAll(GlueAll(pre, Emit(a)), Emit(b) + tail) == GlueAll(pre, Emit(a + b) + tail)
  {
    GlueAllConcat(GlueAll(pre, Emit(a)), Emit(b), tail);
    GlueAllConcat(pre, Emit(a + b), tail);
    EmitTwice(pre, a, b);
  }

  /** Content that was emitted early: the rest of the buffer yields the rest of the events. */
  lemma HeldContent(tags: Tags, content: string, z: string, whole: string, left: string)
    requires tags.Valid() && whole == content + z
    requires Hold(whole, tags.end) == |content| + Hold(z, tags.end)
    ensures Same(Drained(Emit(content), ParsingContent, left),
                 Drain(tags, ParsingContent, z), Drain(tags, ParsingContent, whole))
  {
    var g := Hold(z, tags.end);
    DrainContent(tags, z, g);
    DrainContent(tags, whole, |content| + g);
    assert whole[..|content| + g] == content + z[..g];
    assert whole[|content| + g..] == z[g..];
    var tail := AtHold(tags, z[g..]).events;
    forall pre: seq<Event>
      ensures GlueAll(GlueAll(pre, Emit(content)), Emit(z[..g]) + tail) == GlueAll(pre, Emit(content + z[..g]) + tail)
    {
      GlueEarly(pre, content, z[..g], tail);
    }
  }

  // ----- Any way of cutting -----

  function Joined(chunks: seq<string>): string {
    if chunks == [] then "" else Joined(chunks[..|chunks| - 1]) + chunks[|chunks| - 1]
  }

  /** The parser after a series of AddContent calls, and all the events they returned. */
  function AddAll(tags: Tags, state: State, acc: string, chunks: seq<string>): Drained
    requires tags.Valid()
  {
    if chunks == [] then Drained([], state, acc)
    else AddOne(tags, AddAll(tags, state, acc, chunks[..|chunks| - 1]), chunks[|chunks| - 1])
  }

  /** One more call. */
  function AddOne(tags: Tags, before: Drained, text: string): Drained
    requires tags.Valid()
  {
    var r := Drain(tags, before.state, before.acc + text);
    r.(events := before.events + r.events)
  }

  /** Same state, same buffer, and the same events once adjacent content is merged, whatever came before. */
  ghost predicate Alike(a: Drained, b: Drained) {
    a.state == b.state && a.acc == b.acc && forall pre: seq<Event> :: GlueAll(pre, a.events) == GlueAll(pre, b.events)
  }

  lemma AlikeNext(before: Drained, first: Drained, rest: Drained, whole: Drained)
    requires Alike(before, first) && Same(first, rest, whole)
    ensures Alike(rest.(events := before.events + rest.events), whole)
  {
    forall pre: seq<Event>
      ensures GlueAll(pre, before.events + rest.events) == GlueAll(pre, whole.events)
    {
      GlueAllConcat(pre, before.events, rest.events);
      assert GlueAll(pre, before.events) == GlueAll(pre, first.events);
    }
  }

  /** Chunking independence: from any parser state, any way of cutting the text into one or more calls leaves
      the same state and buffer, and the same events once adjacent content is merged. */
  lemma {:induction false} ChunkingIrrelevant(tags: Tags, state: State, acc: string, chunks: seq<string>)
    requires tags.Valid() && chunks != []
    ensures Alike(AddAll(tags, state, acc, chunks), Drain(tags, state, acc + Joined(chunks)))
    decreases |chunks|
  {
    var n := |chunks| - 1;
    var before := AddAll(tags, state, acc, chunks[..n]);
    JoinedNext(acc, chunks);
    if n == 0 {
      FirstCall(tags, state, acc, chunks[n]);
      assert before == Drained([], state, acc);
    } else {
      ChunkingIrrelevant(tags, state, acc, chunks[..n]);
      NextCall(tags, state, acc + Joined(chunks[..n]), before, chunks[n]);
    }
  }

  lemma JoinedNext(acc: string, chunks: seq<string>)
    requires chunks != []
    ensures var n := |chunks| - 1;
            && acc + Joined(chunks) == acc + Joined(chunks[..n]) + chunks[n]
            && (n == 0 ==> acc + Joined(chunks) == acc + chunks[n])
  {
    var n := |chunks| - 1;
    Regroup(acc, Joined(chunks[..n]), chunks[n]);
    if n == 0 {
      NothingFirst(chunks[0]);
    }
  }

  lemma Regroup(a: string, b: string, c: string)
    ensures a + (b + c) == a + b + c
  {
  }

  lemma NothingFirst(a: string)
    ensures "" + a == a
  {
  }

  lemma FirstCall(tags: Tags, state: State, acc: string, text: string)
    requires tags.Valid()
    ensures Alike(AddOne(tags, Drained([], state, acc), text), Drain(tags, state, acc + text))
  {
    var r := Drain(tags, state, acc + text);
    assert [] + r.events == r.events;
  }

  lemma NextCall(tags: Tags, state: State, x: string, before: Drained, text: string)
    requires tags.Valid() && Alike(before, Drain(tags, state, x))
    ensures Alike(AddOne(tags, before, text), Drain(tags, state, x + text))
  {
    DrainSplit(tags, state, x, text);
    AlikeNext(before, Drain(tags, state, x), Drain(tags, before.state, before.acc + text),
              Drain(tags, state, x + text));
  }

  // ----- The message handler -----

  datatype Header = Header(role: string, channel: string, recipient: string)

  datatype Mode = Normally | Thinking | ToolCalling

  /** The handler's mode, the tool name it has set, and the three streams so far. */
  datatype Streams = Streams(mode: Mode, toolName: string, content: string, thinking: string, tool: string)

  /** What one event does, given how raw headers are parsed. */
  function Handle(parse: string -> Header, s: Streams, e: Event): Streams {
    match e
    case MessageStart => s
    case HeaderComplete(raw) =>
      var header := parse(raw);
      if header.channel == "analysis" then
        if header.recipient != "" then s.(mode := ToolCalling, toolName := header.recipient) else s.(mode := Thinking)
      else if header.channel == "commentary" then
        if header.recipient != "" then s.(mode := ToolCalling, toolName := header.recipient) else s.(mode := Normally)
      else if header.channel == "final" then s.(mode := Normally)
      else s
    case ContentEmitted(content) =>
      (match s.mode
       case Normally => s.(content := s.content + content)
       case Thinking => s.(thinking := s.thinking + content)
       case ToolCalling => s.(tool := s.tool + content))
    case MessageEnd => s.(mode := Normally)
  }

  function HandleAll(parse: string -> Header, s: Streams, events: seq<Event>): Streams
    decreases |events|
  {
    if events == [] then s else Handle(parse, HandleAll(parse, s, events[..|events| - 1]), events[|events| - 1])
  }

  lemma HandleGlue(parse: string -> Header, s: Streams, events: seq<Event>, e: Event)
    ensures HandleAll(parse, s, Glue(events, e)) == Handle(parse, HandleAll(parse, s, events), e)
  {
    var n := |events| - 1;
    var glued := Glue(events, e);
    if events != [] && events[n].ContentEmitted? && e.ContentEmitted? {
      var before := HandleAll(parse, s, events[..n]);
      assert glued[..n] == events[..n];
      assert forall x: string :: (x + events[n].content) + e.content == x + (events[n].content + e.content);
    } else {
      assert glued[..n + 1] == events;
    }
  }

  lemma {:induction false} HandleGlueAll(parse: string -> Header, s: Streams, events: seq<Event>, more: seq<Event>)
    ensures HandleAll(parse, s, GlueAll(events, more)) == HandleAll(parse, s, events + more)
    decreases |more|
  {
    if more == [] {
      assert events + more == events;
    } else {
      var e, rest := more[0], more[1..];
      HandleGlueAll(parse, s, Glue(events, e), rest);
      HandleConcat(parse, s, Glue(events, e), rest);
      HandleGlue(parse, s, events, e);
      assert events + more == (events + [e]) + rest;
      HandleConcat(parse, s, events + [e], rest);
      assert (events + [e])[..|events|] == events;
    }
  }

  lemma {:induction false} HandleConcat(parse: string -> Header, s: Streams, x: seq<Event>, y: seq<Event>)
    ensures HandleAll(parse, s, x + y) == HandleAll(parse, HandleAll(parse, s, x), y)
    decreases |y|
  {
    if y == [] {
      assert x + y == x;
    } else {
      var n := |y| - 1;
      assert (x + y)[..|x + y| - 1] == x + y[..n];
      HandleConcat(parse, s, x, y[..n]);
    }
  }

  /** The concatenated content, thinking and tool streams do not depend on the cutting either. */
  lemma StreamsIrrelevant(parse: string -> Header, s: Streams, tags: Tags, state: State, acc: string,
                          chunks: seq<string>)
    requires tags.Valid() && chunks != []
    ensures HandleAll(parse, s, AddAll(tags, state, acc, chunks).events) ==
            HandleAll(parse, s, Drain(tags, state, acc + Joined(chunks)).events)
  {
    var many, one := AddAll(tags, state, acc, chunks).events, Drain(tags, state, acc + Joined(chunks)).events;
    ChunkingIrrelevant(tags, state, acc, chunks);
    assert GlueAll([], many) == GlueAll([], one);
    HandleGlueAll(parse, s, [], many);
    HandleGlueAll(parse, s, [], one);
    assert [] + many == many && [] + one == one;
  }

  /** Per-call streams add up: starting with empty streams only leaves off what was there before. */
  lemma {:induction false} StreamsAppend(parse: string -> Header, s: Streams, events: seq<Event>)
    ensures HandleAll(parse, s, events) == Appended(s, HandleAll(parse, Fresh(s), events))
    decreases |events|
  {
    if events != [] {
      StreamsAppend(parse, s, events[..|events| - 1]);
    }
  }

  /** The mode and tool name after a series of handler calls, and all they returned, stream by stream. */
  function CallAll(parse: string -> Header, s: Streams, tags: Tags, state: State, acc: string,
                   chunks: seq<string>): Streams
    requires tags.Valid()
  {
    if chunks == [] then s
    else
      var n := |chunks| - 1;
      var before, d := CallAll(parse, s, tags, state, acc, chunks[..n]), AddAll(tags, state, acc, chunks[..n]);
      Appended(before, HandleAll(parse, Fresh(before), Drain(tags, d.state, d.acc + chunks[n]).events))
  }

  /** A call starts with empty streams. */
  function Fresh(s: Streams): Streams {
    Streams(s.mode, s.toolName, "", "", "")
  }

  function Appended(s: Streams, r: Streams): Streams {
    Streams(r.mode, r.toolName, s.content + r.content, s.thinking + r.thinking, s.tool + r.tool)
  }

  lemma {:induction false} CallsHandleAll(parse: string -> Header, s: Streams, tags: Tags, state: State, acc: string,
                                          chunks: seq<string>)
    requires tags.Valid()
    ensures CallAll(parse, s, tags, state, acc, chunks) == HandleAll(parse, s, AddAll(tags, state, acc, chunks).events)
  {
    if chunks != [] {
      var n := |chunks| - 1;
      CallsHandleAll(parse, s, tags, state, acc, chunks[..n]);
      var d := AddAll(tags, state, acc, chunks[..n]);
      var r := Drain(tags, d.state, d.acc + chunks[n]);
      StreamsAppend(parse, HandleAll(parse, s, d.events), r.events);
      HandleConcat(parse, s, d.events, r.events);
    }
  }

  /** The results of all calls, concatenated, are what one call with the whole text returns. */
  lemma CallsIrrelevant(parse: string -> Header, s: Streams, tags: Tags, state: State, acc: string, chunks: seq<string>)
    requires tags.Valid() && chunks != []
    ensures CallAll(parse, s, tags, state, acc, chunks) ==
            HandleAll(parse, s, Drain(tags, state, acc + Joined(chunks)).events)
  {
    CallsHandleAll(parse, s, tags, state, acc, chunks);
    StreamsIrrelevant(parse, s, tags, state, acc, chunks);
  }

  // ----- Whole messages -----

  /** A whole message, with whatever text comes before its start tag. */
  datatype Message = Message(before: string, header: string, content: string)

  ghost predicate WellFormed(tags: Tags, m: Message) {
    Closes(m.before, tags.start) && Closes(m.header, tags.headerEnd) && Closes(m.content, tags.end)
  }

  ghost predicate AllWellFormed(tags: Tags, messages: seq<Message>) {
    forall k | 0 <= k < |messages| :: WellFormed(tags, messages[k])
  }

  function Written(tags: Tags, m: Message): string {
    m.before + tags.start + m.header + tags.headerEnd + m.content + tags.end
  }

  function AllWritten(tags: Tags, messages: seq<Message>): string {
    if messages == [] then "" else Written(tags, messages[0]) + AllWritten(tags, messages[1..])
  }

  /** A message for a tool: it has a recipient, on a channel that may have one. */
  predicate ForTool(h: Header) {
    h.recipient != "" && (h.channel == "analysis" || h.channel == "commentary")
  }

  /** The stream that a message's content belongs to: on a channel that is not known, the one before. */
  function StreamOf(h: Header, before: Mode): Mode {
    if ForTool(h) then ToolCalling
    else if h.channel == "analysis" then Thinking
    else if h.channel == "commentary" || h.channel == "final" then Normally
    else before
  }

  /** The contents of the messages that belong to a stream, one after the other. */
  function Collected(parse: string -> Header, messages: seq<Message>, before: Mode, stream: Mode): string {
    if messages == [] then ""
    else
      var m := messages[0];
      (if StreamOf(parse(m.header), before) == stream then m.content else "") +
      Collected(parse, messages[1..], Normally, stream)
  }

  /** The recipient of the last message for a tool. */
  function LastTool(parse: string -> Header, messages: seq<Message>, before: string): string {
    if messages == [] then before
    else
      var h := parse(messages[0].header);
      LastTool(parse, messages[1..], if ForTool(h) then h.recipient else before)
  }

  lemma ClosesFirst(s: string, t: string, rest: string)
    requires Closes(s, t)
    ensures Index(s + t + rest, t) == |s|
  {
    assert (s + t)[|s|..|s| + |t|] == t;
    IndexIs(s + t, t, |s|);
    IndexLonger(s + t, rest, t);
  }

  function EventsOf(m: Message): seq<Event> {
    [MessageStart, HeaderComplete(m.header)] + Emit(m.content) + [MessageEnd]
  }

  lemma DrainMessage(tags: Tags, m: Message, rest: string)
    requires tags.Valid() && WellFormed(tags, m)
    ensures Drain(tags, LookingForMessageStart, Written(tags, m) + rest) ==
            Prefixed(EventsOf(m), Drain(tags, LookingForMessageStart, rest))
  {
    var third := m.content + tags.end + rest;
    var second := m.header + tags.headerEnd + third;
    WrittenParts(tags, m, rest);
    DrainClosed(tags, LookingForMessageStart, m.before, second);
    DrainClosed(tags, ParsingHeader, m.header, third);
    DrainClosedContent(tags, m.content, rest);
    var r := Drain(tags, LookingForMessageStart, rest);
    PrefixedTwice([HeaderComplete(m.header)], Emit(m.content) + [MessageEnd], r);
    PrefixedTwice([MessageStart], [HeaderComplete(m.header)] + (Emit(m.content) + [MessageEnd]), r);
    assert EventsOf(m) == [MessageStart] + ([HeaderComplete(m.header)] + (Emit(m.content) + [MessageEnd]));
  }

  lemma WrittenParts(tags: Tags, m: Message, rest: string)
    ensures Written(tags, m) + rest ==
            m.before + tags.start + (m.header + tags.headerEnd + (m.content + tags.end + rest))
  {
  }

  lemma DrainClosed(tags: Tags, state: State, s: string, rest: string)
    requires tags.Valid() && state != ParsingContent && Closes(s, Awaited(tags, state))
    ensures Drain(tags, state, s + Awaited(tags, state) + rest) ==
            Prefixed(Announced(state, s), Drain(tags, After(state), rest))
  {
    var tag := Awaited(tags, state);
    var x := s + tag + rest;
    ClosesFirst(s, tag, rest);
    DrainTag(tags, state, x, |s|);
    assert x[..|s|] == s && x[|s| + |tag|..] == rest;
  }

  lemma DrainClosedContent(tags: Tags, s: string, rest: string)
    requires tags.Valid() && Closes(s, tags.end)
    ensures Drain(tags, ParsingContent, s + tags.end + rest) ==
            Prefixed(Emit(s) + [MessageEnd], Drain(tags, LookingForMessageStart, rest))
  {
    var x := s + tags.end + rest;
    ClosesFirst(s, tags.end, rest);
    HoldIsIndex(x, tags.end);
    assert x[..|s|] == s && x[|s| + |tags.end|..] == rest;
  }

  /** The streams after a message. */
  function Added(parse: string -> Header, s: Streams, m: Message): Streams {
    var h := parse(m.header);
    var to := StreamOf(h, s.mode);
    Streams(Normally, if ForTool(h) then h.recipient else s.toolName,
            s.content + (if to == Normally then m.content else ""),
            s.thinking + (if to == Thinking then m.content else ""),
            s.tool + (if to == ToolCalling then m.content else ""))
  }

  /** The streams after whole messages. */
  function Sorted(parse: string -> Header, s: Streams, messages: seq<Message>): Streams {
    Streams(if messages == [] then s.mode else Normally, LastTool(parse, messages, s.toolName),
            s.content + Collected(parse, messages, s.mode, Normally),
            s.thinking + Collected(parse, messages, s.mode, Thinking),
            s.tool + Collected(parse, messages, s.mode, ToolCalling))
  }

  lemma SortedNext(parse: string -> Header, s: Streams, messages: seq<Message>)
    requires messages != []
    ensures Sorted(parse, s, messages) == Sorted(parse, Added(parse, s, messages[0]), messages[1..])
  {
    var m, rest := messages[0], messages[1..];
    var to := StreamOf(parse(m.header), s.mode);
    Regroup(s.content, if to == Normally then m.content else "", Collected(parse, rest, Normally, Normally));
    Regroup(s.thinking, if to == Thinking then m.content else "", Collected(parse, rest, Normally, Thinking));
    Regroup(s.tool, if to == ToolCalling then m.content else "", Collected(parse, rest, Normally, ToolCalling));
  }

  /** What a message's events do to the streams. */
  lemma HandleMessage(parse: string -> Header, s: Streams, m: Message)
    ensures HandleAll(parse, s, EventsOf(m)) == Added(parse, s, m)
  {
    var head := [MessageStart, HeaderComplete(m.header)];
    var s1 := Handle(parse, s, HeaderComplete(m.header));
    assert head[..1] == [MessageStart] && [MessageStart][..0] == [];
    assert HandleAll(parse, s, [MessageStart]) == s;
    assert HandleAll(parse, s, head) == s1;
    HandleEmit(parse, s1, m.content);
    HandleConcat(parse, s, head, Emit(m.content));
    assert EventsOf(m)[..|EventsOf(m)| - 1] == head + Emit(m.content);
  }

  lemma HandleEmit(parse: string -> Header, s: Streams, content: string)
    ensures HandleAll(parse, s, Emit(content)) == Handle(parse, s, ContentEmitted(content))
  {
    if content != "" {
      assert Emit(content)[..0] == [];
    }
  }

  lemma {:induction false} DrainMessages(tags: Tags, messages: seq<Message>)
    requires tags.Valid() && AllWellFormed(tags, messages)
    ensures Drain(tags, LookingForMessageStart, AllWritten(tags, messages)) ==
            Drained(AllEvents(messages), LookingForMessageStart, "")
  {
    if messages == [] {
      IndexFinds("", tags.start);
    } else {
      DrainMessages(tags, messages[1..]);
      DrainMessage(tags, messages[0], AllWritten(tags, messages[1..]));
    }
  }

  function AllEvents(messages: seq<Message>): seq<Event> {
    if messages == [] then [] else EventsOf(messages[0]) + AllEvents(messages[1..])
  }

  /** Whole messages: the text of each goes to its stream, and the last tool named is the current one. */
  lemma {:induction false} MessagesSorted(parse: string -> Header, s: Streams, messages: seq<Message>)
    ensures HandleAll(parse, s, AllEvents(messages)) == Sorted(parse, s, messages)
    decreases |messages|
  {
    if messages != [] {
      var m, rest := messages[0], messages[1..];
      HandleMessage(parse, s, m);
      MessagesSorted(parse, Added(parse, s, m), rest);
      HandleConcat(parse, s, EventsOf(m), AllEvents(rest));
      SortedNext(parse, s, messages);
    }
  }

  /** A handler between messages that is given whole messages sorts their contents into the streams. */
  ghost predicate Sorts(parse: string -> Header, tags: Tags, text: string, before: Streams, state: State, acc: string,
                        after: Streams)
    requires tags.Valid()
  {
    forall messages | AllWellFormed(tags, messages) && text == AllWritten(tags, messages) ::
      state == LookingForMessageStart && acc == "" && after == Sorted(parse, before, messages)
  }

  lemma SortsAll(parse: string -> Header, tags: Tags, text: string, before: Streams)
    requires tags.Valid()
    ensures var d := Drain(tags, LookingForMessageStart, text);
            Sorts(parse, tags, text, before, d.state, d.acc, HandleAll(parse, before, d.events))
  {
    forall messages | AllWellFormed(tags, messages) && text == AllWritten(tags, messages)
      ensures Drain(tags, LookingForMessageStart, text) == Drained(AllEvents(messages), LookingForMessageStart, "")
      ensures HandleAll(parse, before, AllEvents(messages)) == Sorted(parse, before, messages)
    {
      DrainMessages(tags, messages);
      MessagesSorted(parse, before, messages);
    }
  }

  /** One whole message: analysis without a recipient is thinking; final, or commentary without one, is content; and
      with a recipient it is for the tool of that name. */
  lemma OneMessage(parse: string -> Header, mode: Mode, name: string, m: Message)
    ensures var h := parse(m.header);
            var r := Sorted(parse, Streams(mode, name, "", "", ""), [m]);
            && (h.channel == "analysis" && h.recipient == "" ==> r == Streams(Normally, name, "", m.content, ""))
            && (h.channel == "final" ==> r == Streams(Normally, name, m.content, "", ""))
            && (h.channel == "commentary" && h.recipient == "" ==> r == Streams(Normally, name, m.content, "", ""))
            && (h.channel in ["analysis", "commentary"] && h.recipient != "" ==>
                r == Streams(Normally, h.recipient, "", "", m.content))
  {
    OneCollected(parse, mode, Normally, m);
    OneCollected(parse, mode, Thinking, m);
    OneCollected(parse, mode, ToolCalling, m);
    assert [m][1..] == [];
    assert LastTool(parse, [m], name) == if ForTool(parse(m.header)) then parse(m.header).recipient else name;
  }

  lemma OneCollected(parse: string -> Header, mode: Mode, stream: Mode, m: Message)
    ensures "" + Collected(parse, [m], mode, stream) ==
            if StreamOf(parse(m.header), mode) == stream then m.content else ""
  {
    assert [m][1..] == [];
    assert Collected(parse, [], Normally, stream) == "";
  }

  class Handler {
    const parser: Parser
    var mode: Mode
    var toolName: string

    constructor ()
      ensures fresh(parser) && parser.tags == DEFAULT_TAGS && mode == Normally && toolName == ""
      ensures parser.state == LookingForMessageStart && parser.acc == ""
    {
      parser := new Parser(DEFAULT_TAGS);
      mode, toolName := Normally, "";
    }

    /** Any number of calls, their results concatenated: what one call with the whole text would have returned. */
    method AddAllContent(parse: string -> Header, chunks: seq<string>)
      returns (content: string, thinking: string, tool: string)
      requires parser.tags.Valid() && chunks != []
      modifies this, parser
      ensures var r := Drain(parser.tags, old(parser.state), old(parser.acc) + Joined(chunks));
              && parser.state == r.state && parser.acc == r.acc
              && Streams(mode, toolName, content, thinking, tool) ==
                 HandleAll(parse, Streams(old(mode), old(toolName), "", "", ""), r.events)
      ensures old(parser.state) == LookingForMessageStart ==>
        Sorts(parse, parser.tags, old(parser.acc) + Joined(chunks), Streams(old(mode), old(toolName), "", "", ""),
              parser.state, parser.acc, Streams(mode, toolName, content, thinking, tool))
    {
      SortsAll(parse, parser.tags, parser.acc + Joined(chunks), Streams(mode, toolName, "", "", ""));
      ghost var tags, state, acc, start := parser.tags, parser.state, parser.acc, Streams(mode, toolName, "", "", "");
      content, thinking, tool := "", "", "";
      for i := 0 to |chunks|
        invariant CallAll(parse, start, tags, state, acc, chunks[..i]) ==
                  Streams(mode, toolName, content, thinking, tool)
        invariant var d := AddAll(tags, state, acc, chunks[..i]); parser.state == d.state && parser.acc == d.acc
      {
        assert chunks[..i + 1][..i] == chunks[..i];
        var c, th, tl := AddContent(parse, chunks[i]);
        content, thinking, tool := content + c, thinking + th, tool + tl;
      }
      assert chunks[..|chunks|] == chunks;
      CallsIrrelevant(parse, start, tags, state, acc, chunks);
      ChunkingIrrelevant(tags, state, acc, chunks);
    }

    /** The three streams that a piece of text adds to. */
    method AddContent(parse: string -> Header, text: string) returns (content: string, thinking: string, tool: string)
      requires parser.tags.Valid()
      modifies this, parser
      ensures var r := Drain(parser.tags, old(parser.state), old(parser.acc) + text);
              && parser.state == r.state && parser.acc == r.acc
              && Streams(mode, toolName, content, thinking, tool) ==
                 HandleAll(parse, Streams(old(mode), old(toolName), "", "", ""), r.events)
      ensures old(parser.state) == LookingForMessageStart ==>
        Sorts(parse, parser.tags, old(parser.acc) + text, Streams(old(mode), old(toolName), "", "", ""),
              parser.state, parser.acc, Streams(mode, toolName, content, thinking, tool))
    {
      SortsAll(parse, parser.tags, parser.acc + text, Streams(mode, toolName, "", "", ""));
      var events := parser.AddContent(text);
      content, thinking, tool := Sort(parse, events);
    }

    /** Sorts the content of events into the streams. */
    method Sort(parse: string -> Header, events: seq<Event>) returns (content: string, thinking: string, tool: string)
      modifies this`mode, this`toolName
      ensures Streams(mode, toolName, content, thinking, tool) ==
              HandleAll(parse, Streams(old(mode), old(toolName), "", "", ""), events)
    {
      content, thinking, tool := "", "", "";
      for i := 0 to |events|
        invariant Streams(mode, toolName, content, thinking, tool) ==
                  HandleAll(parse, Streams(old(mode), old(toolName), "", "", ""), events[..i])
      {
        assert events[..i + 1][..i] == events[..i];
        match events[i]
        case MessageStart =>
        case HeaderComplete(raw) =>
          var header := parse(raw);
          if header.channel == "analysis" {
            if header.recipient != "" {
              mode, toolName := ToolCalling, header.recipient;
            } else {
              mode := Thinking;
            }
          } else if header.channel == "commentary" {
            if header.recipient != "" {
              mode, toolName := ToolCalling, header.recipient;
            } else {
              mode := Normally;
            }
          } else if header.channel == "final" {
            mode := Normally;
          }
        case ContentEmitted(text) =>
          if mode == Normally {
            content := content + text;
          } else if mode == Thinking {
            thinking := thinking + text;
          } else if mode == ToolCalling {
            tool := tool + text;
          }
        case MessageEnd =>
          mode := Normally;
      }
      assert events[..|events|] == events;
    }
  }
}
