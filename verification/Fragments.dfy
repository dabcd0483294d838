/** Cutting a text at its special tokens before the rest of it is tokenized. */
module Fragments {
  import opened Text
  import opened Vocabulary

  /** A piece of the text; with identifiers it is done, without it is still to be tokenized. */
  datatype Fragment = Fragment(value: string, ids: seq<int>)

  /** The special tokens of a vocabulary. */
  predicate Specials(v: Vocab, specials: seq<string>) {
    forall k | 0 <= k < |specials| :: specials[k] != "" && v.Encode(specials[k]) >= 0
  }

  function Values(fragments: seq<Fragment>): string {
    if fragments == [] then "" else fragments[0].value + Values(fragments[1..])
  }

  lemma {:induction false} ValuesConcat(x: seq<Fragment>, y: seq<Fragment>)
    ensures Values(x + y) == Values(x) + Values(y)
  {
    if x == [] {
      assert x + y == y;
    } else {
      assert (x + y)[1..] == x[1..] + y;
      ValuesConcat(x[1..], y);
    }
  }

  // ----- What the cuts are -----

  /** value cut at every occurrence of special, from the left. */
  function SplitOne(value: string, special: string, id: int): seq<Fragment>
    requires special != ""
    decreases |value|, 0
  {
    var i := Index(value, special);
    IndexFinds(value, special);
    if i < 0 then [Fragment(value, [])]
    else Around(value[..i], Fragment(special, [id]), SplitRest(value[i + |special|..], special, id))
  }

  function SplitRest(rest: string, special: string, id: int): seq<Fragment>
    requires special != ""
    decreases |rest|, 1
  {
    if rest == "" then [] else SplitOne(rest, special, id)
  }

  /** A mark with the text before it, if any, and the fragments after it. */
  function Around(before: string, mark: Fragment, after: seq<Fragment>): seq<Fragment> {
    Unless(before) + [mark] + after
  }

  function Unless(value: string): seq<Fragment> {
    if value == "" then [] else [Fragment(value, [])]
  }

  /** Every fragment that is not done, cut at special. */
  function SplitEach(fragments: seq<Fragment>, special: string, id: int): seq<Fragment>
    requires special != ""
  {
    if fragments == [] then []
    else
      (if fragments[0].ids != [] then [fragments[0]] else SplitOne(fragments[0].value, special, id))
      + SplitEach(fragments[1..], special, id)
  }

  /** The text cut at the first n specials, in the order of the vocabulary. */
  function SplitAll(v: Vocab, specials: seq<string>, n: nat, s: string): seq<Fragment>
    requires Specials(v, specials) && n <= |specials|
  {
    if n == 0 then [Fragment(s, [])]
    else SplitEach(SplitAll(v, specials, n - 1, s), specials[n - 1], v.Encode(specials[n - 1]))
  }

  lemma {:induction false} SplitEachConcat(x: seq<Fragment>, y: seq<Fragment>, special: string, id: int)
    requires special != ""
    ensures SplitEach(x + y, special, id) == SplitEach(x, special, id) + SplitEach(y, special, id)
  {
    if x == [] {
      assert x + y == y;
    } else {
      assert (x + y)[1..] == x[1..] + y;
      SplitEachConcat(x[1..], y, special, id);
    }
  }

  // ----- What they keep -----

  ghost predicate Done(v: Vocab, specials: seq<string>, f: Fragment) {
    f.ids == [v.Encode(f.value)] && f.value in specials
  }

  /** None of the first n specials is left in f. */
  ghost predicate Clean(specials: seq<string>, n: nat, f: Fragment)
    requires n <= |specials|
  {
    forall k | 0 <= k < n :: !Contains(f.value, specials[k])
  }

  ghost predicate Proper(v: Vocab, specials: seq<string>, n: nat, f: Fragment)
    requires n <= |specials|
  {
    Done(v, specials, f) || (f.ids == [] && Clean(specials, n, f))
  }

  ghost predicate AllProper(v: Vocab, specials: seq<string>, n: nat, fragments: seq<Fragment>)
    requires n <= |specials|
  {
    forall i | 0 <= i < |fragments| :: Proper(v, specials, n, fragments[i])
  }

  lemma ContainsSub(s: string, a: nat, b: nat, t: string)
    requires a <= b <= |s| && Contains(s[a..b], t)
    ensures Contains(s, t)
  {
    var x := s[a..b];
    IndexFinds(x, t);
    var i := Index(x, t);
    assert At(x, i, t);
    forall k | 0 <= k < |t|
      ensures s[a + i..a + i + |t|][k] == t[k]
    {
      assert x[i + k] == x[i..i + |t|][k];
    }
    IndexFinds(s, t);
    assert At(s, a + i, t);
  }

  lemma CleanSub(specials: seq<string>, n: nat, f: Fragment, a: nat, b: nat)
    requires n <= |specials| && Clean(specials, n, f) && a <= b <= |f.value|
    ensures Clean(specials, n, Fragment(f.value[a..b], []))
  {
    forall k | 0 <= k < n
      ensures !Contains(f.value[a..b], specials[k])
    {
      if Contains(f.value[a..b], specials[k]) {
        ContainsSub(f.value, a, b, specials[k]);
      }
    }
  }

  /** Fragments that are in order and spell a text. */
  ghost predicate Cuts(v: Vocab, specials: seq<string>, n: nat, fragments: seq<Fragment>, value: string)
    requires n <= |specials|
  {
    Values(fragments) == value && AllProper(v, specials, n, fragments)
  }

  lemma CutsConcat(v: Vocab, specials: seq<string>, n: nat, x: seq<Fragment>, a: string, y: seq<Fragment>, b: string)
    requires n <= |specials| && Cuts(v, specials, n, x, a) && Cuts(v, specials, n, y, b)
    ensures Cuts(v, specials, n, x + y, a + b)
  {
    ValuesConcat(x, y);
  }

  /** Cutting at one more special keeps the text and leaves none of that special behind. */
  lemma {:induction false} SplitOneKeeps(v: Vocab, specials: seq<string>, n: nat, value: string)
    requires Specials(v, specials) && n < |specials| && Clean(specials, n, Fragment(value, []))
    ensures Cuts(v, specials, n + 1, SplitOne(value, specials[n], v.Encode(specials[n])), value)
    decreases |value|
  {
    var special, id := specials[n], v.Encode(specials[n]);
    var i := Index(value, special);
    IndexFinds(value, special);
    if i < 0 {
      OneValue(Fragment(value, []));
    } else {
      var j := i + |special|;
      HeadKeeps(v, specials, n, value, i);
      RestClean(specials, n, value, j);
      if value[j..] != "" {
        SplitOneKeeps(v, specials, n, value[j..]);
      }
      var head, tail := Unless(value[..i]) + [Fragment(special, [id])], SplitRest(value[j..], special, id);
      CutsConcat(v, specials, n + 1, head, value[..j], tail, value[j..]);
      assert value[..j] + value[j..] == value;
    }
  }

  lemma RestClean(specials: seq<string>, n: nat, value: string, j: nat)
    requires n <= |specials| && Clean(specials, n, Fragment(value, [])) && j <= |value|
    ensures Clean(specials, n, Fragment(value[j..], []))
  {
    assert value[j..|value|] == value[j..];
    CleanSub(specials, n, Fragment(value, []), j, |value|);
  }

  lemma OneValue(f: Fragment)
    ensures Values([f]) == f.value
  {
    assert [f][1..] == [];
  }

  lemma HeadKeeps(v: Vocab, specials: seq<string>, n: nat, value: string, i: nat)
    requires Specials(v, specials) && n < |specials| && Clean(specials, n, Fragment(value, []))
    requires i == Index(value, specials[n]) && At(value, i, specials[n])
    ensures var head := Unless(value[..i]) + [Fragment(specials[n], [v.Encode(specials[n])])];
            Cuts(v, specials, n + 1, head, value[..i + |specials[n]|])
  {
    var special := specials[n];
    var mark := Fragment(special, [v.Encode(special)]);
    var head := Unless(value[..i]) + [mark];
    assert Done(v, specials, mark);
    OneValue(mark);
    ValuesConcat(Unless(value[..i]), [mark]);
    assert value[..i + |special|] == value[..i] + special;
    if i > 0 {
      var f := Fragment(value[..i], []);
      OneValue(f);
      assert value[0..i] == value[..i];
      CleanSub(specials, n, Fragment(value, []), 0, i);
      NoneBefore(value, special, i);
    }
  }

  /** Before its first occurrence a text does not occur. */
  lemma NoneBefore(s: string, t: string, i: nat)
    requires i == Index(s, t) && i <= |s| && t != ""
    ensures !Contains(s[..i], t)
  {
    IndexFinds(s, t);
    var x := s[..i];
    if Contains(x, t) {
      IndexFinds(x, t);
      var j := Index(x, t);
      assert x[j..j + |t|] == s[j..j + |t|];
      assert At(s, j, t);
    }
  }

  lemma {:induction false} SplitEachKeeps(v: Vocab, specials: seq<string>, n: nat, fragments: seq<Fragment>)
    requires Specials(v, specials) && n < |specials| && AllProper(v, specials, n, fragments)
    ensures var r := SplitEach(fragments, specials[n], v.Encode(specials[n]));
            Values(r) == Values(fragments) && AllProper(v, specials, n + 1, r)
  {
    if fragments != [] {
      var f, rest := fragments[0], fragments[1..];
      assert Proper(v, specials, n, f);
      var special, id := specials[n], v.Encode(specials[n]);
      var head := if f.ids != [] then [f] else SplitOne(f.value, special, id);
      assert forall i | 0 <= i < |rest| :: rest[i] == fragments[i + 1];
      SplitEachKeeps(v, specials, n, rest);
      if f.ids == [] {
        assert f == Fragment(f.value, []);
        SplitOneKeeps(v, specials, n, f.value);
      } else {
        OneValue(f);
      }
      ValuesConcat(head, SplitEach(rest, special, id));
    }
  }

  /** The fragments spell the text; each is either one special token or free of all of them. */
  lemma {:induction false} SplitAllKeeps(v: Vocab, specials: seq<string>, n: nat, s: string)
    requires Specials(v, specials) && n <= |specials|
    ensures var r := SplitAll(v, specials, n, s); Values(r) == s && AllProper(v, specials, n, r)
  {
    if n == 0 {
      OneValue(Fragment(s, []));
    } else {
      SplitAllKeeps(v, specials, n - 1, s);
      SplitEachKeeps(v, specials, n - 1, SplitAll(v, specials, n - 1, s));
    }
  }

  // ----- Where they are cut -----

  /** Marks have a text between them only up to where the special first occurs; no fragment is empty. */
  ghost predicate Leftmost(fragments: seq<Fragment>, special: string, id: int) {
    && (forall k | 0 <= k < |fragments| :: fragments[k].ids == [] || fragments[k] == Fragment(special, [id]))
    && forall k | 0 <= k < |fragments| - 1 && fragments[k].ids == [] ::
         fragments[k].value != "" && fragments[k + 1].ids != [] && Closes(fragments[k].value, special)
  }

  /** A text is cut at the first occurrence of the special token, then at the first one after it, and so on. */
  lemma {:induction false} SplitOneLeftmost(value: string, special: string, id: int)
    requires special != ""
    ensures Leftmost(SplitOne(value, special, id), special, id)
    decreases |value|
  {
    var i := Index(value, special);
    IndexFinds(value, special);
    if i >= 0 {
      var before, rest := value[..i], value[i + |special|..];
      IndexCloses(value, special, i);
      if rest != "" {
        SplitOneLeftmost(rest, special, id);
      }
      AroundLeftmost(before, special, id, SplitRest(rest, special, id));
    }
  }

  lemma IndexCloses(s: string, t: string, i: nat)
    requires i == Index(s, t) && i + |t| <= |s|
    ensures Closes(s[..i], t)
  {
    IndexFinds(s, t);
    assert s[..i] + t == s[..i + |t|] && s == s[..i + |t|] + s[i + |t|..];
    forall q: nat | q < i
      ensures !At(s[..i] + t, q, t)
    {
      AtLonger(s[..i + |t|], s[i + |t|..], q, t);
    }
  }

  lemma AroundLeftmost(before: string, special: string, id: int, after: seq<Fragment>)
    requires Leftmost(after, special, id) && Closes(before, special)
    ensures Leftmost(Around(before, Fragment(special, [id]), after), special, id)
  {
    var r, n := Around(before, Fragment(special, [id]), after), |Unless(before)|;
    assert forall k | n < k < |r| :: r[k] == after[k - n - 1];
    forall k | 0 <= k < |r| - 1 && r[k].ids == []
      ensures r[k].value != "" && r[k + 1].ids != [] && Closes(r[k].value, special)
    {
      if k > n {
        assert after[k - n - 1].ids == [] && r[k + 1] == after[k - n];
      }
    }
  }

  // ----- In place -----

  function Weight(fragments: seq<Fragment>): nat {
    if fragments == [] then 0
    else (if fragments[0].ids != [] then 1 else 2 * |fragments[0].value| + 1) + Weight(fragments[1..])
  }

  /** What takes the place of a fragment that is not done. */
  function Middle(value: string, special: string, id: int): (r: seq<Fragment>)
    requires special != ""
    ensures r != []
  {
    var i := Index(value, special);
    IndexFinds(value, special);
    if i < 0 then [Fragment(value, [])]
    else Around(value[..i], Fragment(special, [id]), Unless(value[i + |special|..]))
  }

  lemma SplitUnless(rest: string, special: string, id: int)
    requires special != ""
    ensures SplitEach(Unless(rest), special, id) == SplitRest(rest, special, id)
  {
    if rest != "" {
      assert Unless(rest)[1..] == [];
      assert SplitOne(rest, special, id) + [] == SplitOne(rest, special, id);
    }
  }

  lemma DoneFirst(f: Fragment, rest: seq<Fragment>, special: string, id: int)
    requires special != "" && f.ids != []
    ensures SplitEach([f] + rest, special, id) == [f] + SplitEach(rest, special, id)
    ensures Weight([f] + rest) == 1 + Weight(rest)
  {
    assert ([f] + rest)[1..] == rest;
  }

  /** Past its first fragment, a text with a mark in it is left to be cut after the mark. */
  lemma PastFirst(before: string, mark: Fragment, after: seq<Fragment>, special: string, id: int)
    requires special != "" && mark.ids != []
    ensures var m := Around(before, mark, after);
            && [m[0]] + SplitEach(m[1..], special, id) == Around(before, mark, SplitEach(after, special, id))
            && Weight(m[1..]) <= 1 + Weight(after)
  {
    var m := Around(before, mark, after);
    DoneFirst(mark, after, special, id);
    if before == "" {
      assert m == [mark] + after && m[1..] == after;
    } else {
      assert m[1..] == [mark] + after;
    }
  }

  /** Past its first fragment, m still has to be cut, and is smaller than the text it replaces. */
  ghost predicate Replaces(m: seq<Fragment>, value: string, special: string, id: int)
    requires special != ""
  {
    && m != [] && [m[0]] + SplitEach(m[1..], special, id) == SplitOne(value, special, id)
    && Weight(m[1..]) < 2 * |value| + 1
  }

  lemma MiddleReplaces(value: string, special: string, id: int)
    requires special != ""
    ensures Replaces(Middle(value, special, id), value, special, id)
  {
    var i := Index(value, special);
    if i >= 0 {
      IndexFinds(value, special);
      FoundReplaces(value, special, id, i, value[i + |special|..]);
    } else {
      assert [Fragment(value, [])][1..] == [];
    }
  }

  lemma FoundReplaces(value: string, special: string, id: int, i: nat, rest: string)
    requires special != "" && i == Index(value, special) && i + |special| <= |value| && rest == value[i + |special|..]
    ensures Replaces(Around(value[..i], Fragment(special, [id]), Unless(rest)), value, special, id)
  {
    var mark := Fragment(special, [id]);
    PastFirst(value[..i], mark, Unless(rest), special, id);
    UnlessWeight(rest);
    SplitUnless(rest, special, id);
    assert SplitOne(value, special, id) == Around(value[..i], mark, SplitRest(rest, special, id));
  }

  lemma UnlessWeight(rest: string)
    ensures Weight(Unless(rest)) <= 2 * |rest| + 1
  {
    if rest != "" {
      assert Unless(rest)[1..] == [];
    }
  }

  /** Cuts the fragments at one special, in place. */
  method SplitAt(fragments: seq<Fragment>, special: string, id: int) returns (r: seq<Fragment>)
    requires special != ""
    ensures r == SplitEach(fragments, special, id)
  {
    r := fragments;
    var i := 0;
    while i < |r|
      invariant 0 <= i <= |r|
      invariant r[..i] + SplitEach(r[i..], special, id) == SplitEach(fragments, special, id)
      decreases Weight(r[i..])
    {
      var frag := r[i];
      ghost var todo := r[i..];
      assert todo[0] == frag && todo[1..] == r[i + 1..];
      if frag.ids != [] {
        assert r[..i] + ([frag] + SplitEach(r[i + 1..], special, id)) ==
               r[..i + 1] + SplitEach(r[i + 1..], special, id);
        i := i + 1;
        continue;
      }
      var middle := Middle(frag.value, special, id);
      MiddleReplaces(frag.value, special, id);
      Splice(r, i, middle, special, id);
      r := r[..i] + middle + r[i + 1..];
      i := i + 1;
    }
    assert r[i..] == [] && r[..i] == r;
  }

  lemma Splice(r: seq<Fragment>, i: nat, middle: seq<Fragment>, special: string, id: int)
    requires special != "" && i < |r| && r[i].ids == [] && Replaces(middle, r[i].value, special, id)
    ensures var r' := r[..i] + middle + r[i + 1..];
            && r'[..i + 1] + SplitEach(r'[i + 1..], special, id) == r[..i] + SplitEach(r[i..], special, id)
            && Weight(r'[i + 1..]) < Weight(r[i..])
  {
    var r', rest := r[..i] + middle + r[i + 1..], r[i + 1..];
    assert r'[i + 1..] == middle[1..] + rest && r'[..i + 1] == r[..i] + [middle[0]];
    assert r[i..][1..] == rest;
    SplitEachConcat(middle[1..], rest, special, id);
    WeightConcat(middle[1..], rest);
    assert SplitEach(r[i..], special, id) == SplitOne(r[i].value, special, id) + SplitEach(rest, special, id);
    Regroup(r[..i], [middle[0]], SplitEach(middle[1..], special, id), SplitEach(rest, special, id));
  }

  lemma ValuesSplit(fragments: seq<Fragment>, k: nat)
    requires k <= |fragments|
    ensures Values(fragments) == Values(fragments[..k]) + Values(fragments[k..])
  {
    assert fragments[..k] + fragments[k..] == fragments;
    ValuesConcat(fragments[..k], fragments[k..]);
  }

  lemma Regroup(a: seq<Fragment>, b: seq<Fragment>, c: seq<Fragment>, d: seq<Fragment>)
    ensures a + b + (c + d) == a + ((b + c) + d)
  {
  }

  lemma {:induction false} WeightConcat(x: seq<Fragment>, y: seq<Fragment>)
    ensures Weight(x + y) == Weight(x) + Weight(y)
  {
    if x == [] {
      assert x + y == y;
    } else {
      assert (x + y)[1..] == x[1..] + y;
      WeightConcat(x[1..], y);
    }
  }

  /** Cuts a text at all its special tokens. */
  method SplitSpecials(v: Vocab, specials: seq<string>, s: string) returns (fragments: seq<Fragment>)
    requires Specials(v, specials)
    ensures fragments == SplitAll(v, specials, |specials|, s)
    ensures Values(fragments) == s && AllProper(v, specials, |specials|, fragments)
  {
    fragments := [Fragment(s, [])];
    for n := 0 to |specials|
      invariant fragments == SplitAll(v, specials, n, s)
    {
      fragments := SplitAt(fragments, specials[n], v.Encode(specials[n]));
    }
    SplitAllKeeps(v, specials, |specials|, s);
  }
}
