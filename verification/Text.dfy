/** Searching in strings. */
module Text {

  /** From p on, s agrees with t as far as both go: t is here, or could still turn out to be. */
  predicate Begins(s: string, p: nat, t: string) {
    p <= |s| && forall k | 0 <= k < |t| && p + k < |s| :: s[p + k] == t[k]
  }

  /** t occurs in s at p. */
  predicate At(s: string, p: nat, t: string) {
    p + |t| <= |s| && s[p..p + |t|] == t
  }

  /** The first occurrence of t in s at p or later, or -1. */
  function IndexFrom(s: string, t: string, p: nat): int
    requires p <= |s|
    decreases |s| - p
  {
    if At(s, p, t) then p else if p == |s| then -1 else IndexFrom(s, t, p + 1)
  }

  function Index(s: string, t: string): int {
    IndexFrom(s, t, 0)
  }

  predicate Contains(s: string, t: string) {
    Index(s, t) >= 0
  }

  lemma {:induction false} IndexFromFinds(s: string, t: string, p: nat)
    requires p <= |s|
    ensures var i := IndexFrom(s, t, p);
            && (i == -1 || (p <= i && At(s, i, t)))
            && forall q | p <= q <= |s| && (i == -1 || q < i) :: !At(s, q, t)
    decreases |s| - p
  {
    if !At(s, p, t) && p < |s| {
      IndexFromFinds(s, t, p + 1);
    }
  }

  lemma IndexFinds(s: string, t: string)
    ensures var i := Index(s, t);
            && (i == -1 || (0 <= i && At(s, i, t)))
            && forall q | 0 <= q <= |s| && (i == -1 || q < i) :: !At(s, q, t)
  {
    IndexFromFinds(s, t, 0);
  }

  /** The first occurrence is determined by being one with none before it. */
  lemma IndexIs(s: string, t: string, i: nat)
    requires At(s, i, t) && forall q | 0 <= q < i :: !At(s, q, t)
    ensures Index(s, t) == i
  {
    IndexFinds(s, t);
  }

  /** t does not occur in s + t before the end of s. */
  ghost predicate Closes(s: string, t: string) {
    forall q: nat | q < |s| :: !At(s + t, q, t)
  }

  lemma AtLonger(s: string, y: string, p: nat, t: string)
    requires p + |t| <= |s|
    ensures At(s, p, t) <==> At(s + y, p, t)
  {
    assert (s + y)[p..p + |t|] == s[p..p + |t|];
  }

  /** Reading on does not move the first occurrence. */
  lemma IndexLonger(s: string, y: string, t: string)
    requires Contains(s, t)
    ensures Index(s + y, t) == Index(s, t)
  {
    IndexFinds(s, t);
    var i := Index(s, t);
    AtLonger(s, y, i, t);
    forall q | 0 <= q < i
      ensures !At(s + y, q, t)
    {
      AtLonger(s, y, q, t);
    }
    IndexIs(s + y, t, i);
  }

  /** The first place, p or later, from which t could still begin. At the latest the end of s. */
  function HoldFrom(s: string, t: string, p: nat): (h: nat)
    requires p <= |s|
    ensures p <= h <= |s|
    decreases |s| - p
  {
    if Begins(s, p, t) then p else HoldFrom(s, t, p + 1)
  }

  function Hold(s: string, t: string): (h: nat)
    ensures h <= |s|
  {
    HoldFrom(s, t, 0)
  }

  lemma {:induction false} HoldFromFinds(s: string, t: string, p: nat)
    requires p <= |s|
    ensures Begins(s, HoldFrom(s, t, p), t)
    ensures forall q | p <= q < HoldFrom(s, t, p) :: !Begins(s, q, t)
    decreases |s| - p
  {
    if !Begins(s, p, t) {
      HoldFromFinds(s, t, p + 1);
    }
  }

  lemma HoldFinds(s: string, t: string)
    ensures Begins(s, Hold(s, t), t)
    ensures forall q | 0 <= q < Hold(s, t) :: !Begins(s, q, t)
  {
    HoldFromFinds(s, t, 0);
  }

  lemma HoldIs(s: string, t: string, h: nat)
    requires Begins(s, h, t) && forall q | 0 <= q < h :: !Begins(s, q, t)
    ensures Hold(s, t) == h
  {
    HoldFinds(s, t);
  }

  lemma BeginsAt(s: string, p: nat, t: string)
    requires p + |t| <= |s|
    ensures Begins(s, p, t) <==> At(s, p, t)
  {
    if Begins(s, p, t) {
      assert forall k | 0 <= k < |t| :: s[p + k] == t[k];
    } else {
      var k :| 0 <= k < |t| && p + k < |s| && s[p + k] != t[k];
      assert s[p..p + |t|][k] == s[p + k];
    }
  }

  lemma BeginsShift(pre: string, z: string, p: nat, t: string)
    ensures Begins(pre + z, |pre| + p, t) <==> Begins(z, p, t)
  {
    var s := pre + z;
    assert forall i | 0 <= i < |z| :: s[|pre| + i] == z[i];
    if p <= |z| && !Begins(z, p, t) {
      var k := Mismatch(z, p, t);
      assert s[|pre| + p + k] == z[p + k];
    }
  }

  lemma Mismatch(s: string, p: nat, t: string) returns (k: nat)
    requires p <= |s| && !Begins(s, p, t)
    ensures k < |t| && p + k < |s| && s[p + k] != t[k]
  {
    k := 0;
    while k < |t| && p + k < |s| && s[p + k] == t[k]
      invariant k <= |t| && forall j | 0 <= j < k && p + j < |s| :: s[p + j] == t[j]
    {
      k := k + 1;
    }
  }

  lemma BeginsLonger(s: string, y: string, p: nat, t: string)
    requires p <= |s|
    ensures !Begins(s, p, t) ==> !Begins(s + y, p, t)
  {
    if !Begins(s, p, t) {
      var k := Mismatch(s, p, t);
      assert (s + y)[p + k] == s[p + k];
    }
  }

  /** What holds back in s + y is found by looking at what was held back in s, with y added. */
  lemma HoldLonger(s: string, y: string, t: string)
    ensures var h := Hold(s, t); Hold(s + y, t) == h + Hold(s[h..] + y, t)
  {
    HoldFinds(s, t);
    var h := Hold(s, t);
    var z := s[h..] + y;
    assert s + y == s[..h] + z;
    HoldFinds(z, t);
    BeginsShift(s[..h], z, Hold(z, t), t);
    forall q | 0 <= q < h + Hold(z, t)
      ensures !Begins(s + y, q, t)
    {
      if q >= h {
        BeginsShift(s[..h], z, q - h, t);
      } else {
        BeginsLonger(s, y, q, t);
      }
    }
    HoldIs(s + y, t, h + Hold(z, t));
  }
}
