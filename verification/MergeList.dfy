/** Pieces of text in an array-backed doubly linked list, and queues of merge candidates that may
    have gone stale. Shared by the SentencePiece and the byte-pair tokenizers. */
module MergeList {
  import opened Prelude

  /** A piece: the previous and next piece's index, and its runes. No runes: merged away. */
  datatype Node = Node(p: int, n: int, runes: seq<char>)

  /** A pair of pieces that could be merged when it was queued, with its key and its size in bytes then. */
  datatype Candidate<K> = Candidate(a: int, b: int, key: K, size: nat)

  /** What two adjacent pieces are worth, if they may be merged at all. */
  type Eval<K> = (seq<char>, seq<char>) -> Option<K>

  // ----- UTF-8 length -----

  function RuneLen(c: char): nat {
    var r := c as int;
    if r < 0x80 then 1 else if r < 0x800 then 2 else if r < 0x10000 then 3 else 4
  }

  function ByteLen(s: seq<char>): nat {
    if s == [] then 0 else RuneLen(s[0]) + ByteLen(s[1..])
  }

  lemma {:induction false} ByteLenConcat(s: seq<char>, t: seq<char>)
    ensures ByteLen(s + t) == ByteLen(s) + ByteLen(t)
  {
    if s == [] {
      assert s + t == t;
    } else {
      assert (s + t)[1..] == s[1..] + t;
      ByteLenConcat(s[1..], t);
    }
  }

  // ----- The list -----

  /** live lists indices in order, and the links agree with it. */
  ghost predicate Linked(nodes: seq<Node>, live: seq<int>) {
    && (forall k | 0 <= k < |live| :: 0 <= live[k] < |nodes|)
    && (forall k, l | 0 <= k < l < |live| :: live[k] < live[l])
    && (forall k | 0 <= k < |live| :: NodeLinked(nodes, live, k))
  }

  ghost predicate NodeLinked(nodes: seq<Node>, live: seq<int>, k: nat)
    requires k < |live|
  {
    && 0 <= live[k] < |nodes|
    && nodes[live[k]].n == NextOf(nodes, live, k) && nodes[live[k]].p == PrevOf(live, k)
    && nodes[live[k]].runes != []
  }

  /** live lists every piece that has not been merged away. */
  ghost predicate Listed(nodes: seq<Node>, live: seq<int>) {
    forall i | 0 <= i < |nodes| && nodes[i].runes != [] :: i in live
  }

  function NextOf(nodes: seq<Node>, live: seq<int>, k: nat): int
    requires k < |live|
  {
    if k + 1 < |live| then live[k + 1] else |nodes|
  }

  function PrevOf(live: seq<int>, k: nat): int
    requires k < |live|
  {
    if k == 0 then -1 else live[k - 1]
  }

  function Pieces(nodes: seq<Node>, live: seq<int>): (r: seq<seq<char>>)
    requires forall k | 0 <= k < |live| :: 0 <= live[k] < |nodes|
    ensures |r| == |live|
  {
    seq(|live|, k requires 0 <= k < |live| => nodes[live[k]].runes)
  }

  /** The links and runes after piece b, the one after a, is merged into a. */
  function Merged(nodes: seq<Node>, a: int, b: int): (r: seq<Node>)
    requires 0 <= a < |nodes| && 0 <= b < |nodes|
    ensures |r| == |nodes|
  {
    var left, right := nodes[a], nodes[b];
    var joined := nodes[a := Node(left.p, right.n, left.runes + right.runes)][b := Node(right.p, right.n, [])];
    if 0 <= right.n < |nodes| then joined[right.n := joined[right.n].(p := a)] else joined
  }

  function Without(live: seq<int>, k: nat): seq<int>
    requires k < |live|
  {
    live[..k] + live[k + 1..]
  }

  function MergeAt(pieces: seq<seq<char>>, k: nat): (r: seq<seq<char>>)
    requires k + 1 < |pieces|
    ensures |r| == |pieces| - 1
  {
    pieces[..k] + [pieces[k] + pieces[k + 1]] + pieces[k + 2..]
  }

  /** Merging, node by node. */
  lemma MergedNodes(nodes: seq<Node>, a: int, b: int)
    requires 0 <= a < b < |nodes| && b < nodes[b].n
    ensures var r := Merged(nodes, a, b);
            forall i | 0 <= i < |nodes| ::
              && r[i].runes == (if i == a then nodes[a].runes + nodes[b].runes
                                 else if i == b then [] else nodes[i].runes)
              && r[i].n == (if i == a then nodes[b].n else nodes[i].n)
              && r[i].p == (if i == nodes[b].n then a else nodes[i].p)
  {
  }

  lemma MergedNode(nodes: seq<Node>, a: int, b: int, i: int)
    requires 0 <= a < b < |nodes| && b < nodes[b].n && 0 <= i < |nodes|
    ensures var r := Merged(nodes, a, b)[i];
            && r.runes == (if i == a then nodes[a].runes + nodes[b].runes else if i == b then [] else nodes[i].runes)
            && r.n == (if i == a then nodes[b].n else nodes[i].n)
            && r.p == (if i == nodes[b].n then a else nodes[i].p)
  {
    MergedNodes(nodes, a, b);
  }

  lemma AfterNext(nodes: seq<Node>, live: seq<int>, k: nat)
    requires Linked(nodes, live) && k < |live|
    ensures live[k] < nodes[live[k]].n == NextOf(nodes, live, k) <= |nodes|
    ensures nodes[live[k]].p == PrevOf(live, k) && nodes[live[k]].runes != []
  {
    assert NodeLinked(nodes, live, k);
  }

  lemma WithoutAt(live: seq<int>, k: nat)
    requires k < |live|
    ensures |Without(live, k)| == |live| - 1
    ensures forall j | 0 <= j < |live| - 1 :: Without(live, k)[j] == if j < k then live[j] else live[j + 1]
  {
  }

  lemma MergedListed(nodes: seq<Node>, live: seq<int>, k: nat)
    requires Linked(nodes, live) && Listed(nodes, live) && k + 1 < |live|
    ensures Listed(Merged(nodes, live[k], live[k + 1]), Without(live, k + 1))
  {
    AfterNext(nodes, live, k + 1);
    MergedNodes(nodes, live[k], live[k + 1]);
    WithoutAt(live, k + 1);
    var r, rest := Merged(nodes, live[k], live[k + 1]), Without(live, k + 1);
    forall i | 0 <= i < |r| && r[i].runes != []
      ensures i in rest
    {
      assert i == live[k] || nodes[i].runes != [];
      assert live[k] in live;
      var j :| 0 <= j < |live| && live[j] == i;
      assert rest[if j <= k then j else j - 1] == i;
    }
  }

  /** Where piece j of the shorter list was. */
  function Was(k: nat, j: nat): nat {
    if j <= k then j else j + 1
  }

  lemma WithoutNeighbours(nodes: seq<Node>, live: seq<int>, k: nat, j: nat)
    requires k + 1 < |live| && j < |live| - 1
    ensures var rest := Without(live, k + 1);
            && |rest| == |live| - 1 && rest[j] == live[Was(k, j)]
            && NextOf(nodes, rest, j) == NextOf(nodes, live, if j == k then k + 1 else Was(k, j))
            && PrevOf(rest, j) == if j == k + 1 then live[k] else PrevOf(live, Was(k, j))
  {
    WithoutAt(live, k + 1);
  }

  lemma MergedNodeLinked(nodes: seq<Node>, live: seq<int>, k: nat, j: nat)
    requires Linked(nodes, live) && k + 1 < |live| && j < |live| - 1
    ensures |Without(live, k + 1)| == |live| - 1
    ensures NodeLinked(Merged(nodes, live[k], live[k + 1]), Without(live, k + 1), j)
  {
    AfterNext(nodes, live, k + 1);
    AfterNext(nodes, live, Was(k, j));
    WithoutNeighbours(nodes, live, k, j);
    MergedNode(nodes, live[k], live[k + 1], live[Was(k, j)]);
  }

  lemma MergedLinked(nodes: seq<Node>, live: seq<int>, k: nat)
    requires Linked(nodes, live) && k + 1 < |live|
    ensures Linked(Merged(nodes, live[k], live[k + 1]), Without(live, k + 1))
  {
    var r, rest := Merged(nodes, live[k], live[k + 1]), Without(live, k + 1);
    WithoutAt(live, k + 1);
    forall j | 0 <= j < |rest|
      ensures NodeLinked(r, rest, j)
    {
      MergedNodeLinked(nodes, live, k, j);
    }
  }

  lemma MergedPieces(nodes: seq<Node>, live: seq<int>, k: nat)
    requires Linked(nodes, live) && k + 1 < |live|
    ensures Linked(Merged(nodes, live[k], live[k + 1]), Without(live, k + 1))
    ensures Pieces(Merged(nodes, live[k], live[k + 1]), Without(live, k + 1)) == MergeAt(Pieces(nodes, live), k)
  {
    MergedLinked(nodes, live, k);
    AfterNext(nodes, live, k + 1);
    MergedNodes(nodes, live[k], live[k + 1]);
    WithoutAt(live, k + 1);
    var new', spec := Pieces(Merged(nodes, live[k], live[k + 1]), Without(live, k + 1)),
                      MergeAt(Pieces(nodes, live), k);
    forall j | 0 <= j < |live| - 1
      ensures new'[j] == spec[j]
    {
    }
  }

  // ----- The text of the pieces -----

  function Flatten(pieces: seq<seq<char>>): seq<char> {
    if pieces == [] then [] else pieces[0] + Flatten(pieces[1..])
  }

  lemma {:induction false} FlattenConcat(x: seq<seq<char>>, y: seq<seq<char>>)
    ensures Flatten(x + y) == Flatten(x) + Flatten(y)
  {
    if x == [] {
      assert x + y == y;
    } else {
      assert (x + y)[1..] == x[1..] + y;
      FlattenConcat(x[1..], y);
    }
  }

  lemma {:induction false} MergeAtFlatten(pieces: seq<seq<char>>, k: nat)
    requires k + 1 < |pieces|
    ensures Flatten(MergeAt(pieces, k)) == Flatten(pieces)
  {
    var r := MergeAt(pieces, k);
    if k == 0 {
      assert r[1..] == pieces[2..] == pieces[1..][1..];
      assert (pieces[0] + pieces[1]) + Flatten(pieces[2..]) == pieces[0] + (pieces[1] + Flatten(pieces[2..]));
    } else {
      assert r[1..] == MergeAt(pieces[1..], k - 1);
      MergeAtFlatten(pieces[1..], k - 1);
    }
  }

  lemma FlattenNext(pieces: seq<seq<char>>, i: nat)
    requires i < |pieces|
    ensures Flatten(pieces[..i + 1]) == Flatten(pieces[..i]) + pieces[i]
  {
    assert pieces[..i + 1] == pieces[..i] + [pieces[i]];
    FlattenConcat(pieces[..i], [pieces[i]]);
    assert [pieces[i]][1..] == [];
  }

  // ----- Candidates -----

  ghost predicate Alive<K>(nodes: seq<Node>, c: Candidate<K>) {
    0 <= c.a < |nodes| && 0 <= c.b < |nodes| && nodes[c.a].runes != [] && nodes[c.b].runes != []
  }

  function SizeNow<K>(nodes: seq<Node>, c: Candidate<K>): nat
    requires 0 <= c.a < |nodes| && 0 <= c.b < |nodes|
  {
    ByteLen(nodes[c.a].runes) + ByteLen(nodes[c.b].runes)
  }

  /** Both pieces are there and as long as when the candidate was queued. */
  ghost predicate Fresh<K>(nodes: seq<Node>, c: Candidate<K>) {
    Alive(nodes, c) && SizeNow(nodes, c) == c.size
  }

  /** A queued candidate never undersells its pieces, and if it is fresh then it is exact: adjacent, same key. */
  ghost predicate Honest<K>(nodes: seq<Node>, eval: Eval<K>, c: Candidate<K>) {
    && 0 <= c.a < |nodes| && 0 <= c.b < |nodes|
    && (Alive(nodes, c) ==> c.size <= SizeNow(nodes, c))
    && (Fresh(nodes, c) ==> nodes[c.a].n == c.b && eval(nodes[c.a].runes, nodes[c.b].runes) == Some(c.key))
  }

  /** Everything wanted is known to eval. */
  ghost predicate Within<K>(want: Eval<K>, eval: Eval<K>) {
    forall l, r :: want(l, r).Some? ==> eval(l, r).Some?
  }

  /** The candidate is stale, or its pair is not wanted. */
  ghost predicate Unwanted<K>(nodes: seq<Node>, want: Eval<K>, c: Candidate<K>) {
    Fresh(nodes, c) ==> want(nodes[c.a].runes, nodes[c.b].runes).None?
  }

  ghost predicate AllHonest<K>(nodes: seq<Node>, eval: Eval<K>, q: seq<Candidate<K>>) {
    forall i | 0 <= i < |q| :: Honest(nodes, eval, q[i])
  }

  /** Pair k, if it is wanted, is represented by a fresh candidate. */
  ghost predicate Queued<K>(nodes: seq<Node>, live: seq<int>, want: Eval<K>, q: seq<Candidate<K>>, k: int)
    requires Linked(nodes, live)
  {
    0 <= k < |live| - 1 && want(nodes[live[k]].runes, nodes[live[k + 1]].runes).Some? ==>
      exists i | 0 <= i < |q| :: q[i].a == live[k] && q[i].b == live[k + 1] && Fresh(nodes, q[i])
  }

  lemma MergedPairHonest<K>(nodes: seq<Node>, a: int, b: int, eval: Eval<K>, c: Candidate<K>)
    requires 0 <= a < b < |nodes| && nodes[a].n == b < nodes[b].n
    requires nodes[a].runes != [] && nodes[b].runes != [] && Honest(nodes, eval, c)
    ensures Honest(Merged(nodes, a, b), eval, c)
  {
    MergedNodes(nodes, a, b);
    var r := Merged(nodes, a, b);
    if Alive(r, c) {
      ByteLenConcat(nodes[a].runes, nodes[b].runes);
      NonEmptyLen(nodes[b].runes);
      assert Alive(nodes, c);
      assert SizeNow(r, c) >= SizeNow(nodes, c);
      if c.a == a || c.b == a {
        assert SizeNow(r, c) > SizeNow(nodes, c);
      }
    }
  }

  /** Merging keeps other candidates honest: stale ones stay stale. */
  lemma MergedHonest<K>(nodes: seq<Node>, live: seq<int>, eval: Eval<K>, k: nat, c: Candidate<K>)
    requires Linked(nodes, live) && k + 1 < |live| && Honest(nodes, eval, c)
    ensures Honest(Merged(nodes, live[k], live[k + 1]), eval, c)
  {
    AfterNext(nodes, live, k);
    AfterNext(nodes, live, k + 1);
    assert live[k] in live && live[k + 1] in live;
    MergedPairHonest(nodes, live[k], live[k + 1], eval, c);
  }

  lemma NonEmptyLen(s: seq<char>)
    requires s != []
    ensures ByteLen(s) > 0
  {
  }

  /** The candidate for pieces a and b, if both exist and may be merged. */
  function Pairwise<K>(nodes: seq<Node>, eval: Eval<K>, a: int, b: int): Option<Candidate<K>>
    requires a < |nodes| && 0 <= b
  {
    if a < 0 || b >= |nodes| then None
    else
      match eval(nodes[a].runes, nodes[b].runes)
      case None => None
      case Some(key) => Some(Candidate(a, b, key, ByteLen(nodes[a].runes) + ByteLen(nodes[b].runes)))
  }

  function Push<K>(q: seq<Candidate<K>>, c: Option<Candidate<K>>): seq<Candidate<K>> {
    if c.Some? then q + [c.value] else q
  }

  /** Queueing an adjacent pair is honest, and from then on the pair is represented. */
  lemma PushPair<K>(nodes: seq<Node>, live: seq<int>, eval: Eval<K>, want: Eval<K>, q: seq<Candidate<K>>, k: nat)
    requires Linked(nodes, live) && k + 1 < |live| && AllHonest(nodes, eval, q) && Within(want, eval)
    ensures var q' := Push(q, Pairwise(nodes, eval, live[k], live[k + 1]));
            AllHonest(nodes, eval, q') && Queued(nodes, live, want, q', k) && q <= q'
  {
    AfterNext(nodes, live, k);
    AfterNext(nodes, live, k + 1);
    var c := Pairwise(nodes, eval, live[k], live[k + 1]);
    if c.Some? {
      assert Push(q, c)[|q|] == c.value;
    }
  }

  /** A pair whose candidate was not the one taken is still represented, before a merge ... */
  lemma QueuedAfterPop<K>(nodes: seq<Node>, live: seq<int>, want: Eval<K>, q: seq<Candidate<K>>, at: nat, k: int)
    requires Linked(nodes, live) && at < |q| && Queued(nodes, live, want, q, k)
    requires Unwanted(nodes, want, q[at]) || !(0 <= k < |live| && q[at].a == live[k])
    ensures Queued(nodes, live, want, q[..at] + q[at + 1..], k)
  {
    var rest := q[..at] + q[at + 1..];
    if 0 <= k < |live| - 1 && want(nodes[live[k]].runes, nodes[live[k + 1]].runes).Some? {
      var i :| 0 <= i < |q| && q[i].a == live[k] && q[i].b == live[k + 1] && Fresh(nodes, q[i]);
      assert rest[if i < at then i else i - 1] == q[i];
    }
  }

  /** ... in a list that has the same two pieces somewhere ... */
  lemma QueuedElsewhere<K>(nodes: seq<Node>, live: seq<int>, r: seq<Node>, rest: seq<int>, want: Eval<K>,
                           q: seq<Candidate<K>>, j: int, j': int)
    requires Linked(nodes, live) && Linked(r, rest) && Queued(nodes, live, want, q, j)
    requires 0 <= j < |live| - 1 && 0 <= j' < |rest| - 1 && rest[j'] == live[j] && rest[j' + 1] == live[j + 1]
    requires r[live[j]].runes == nodes[live[j]].runes && r[live[j + 1]].runes == nodes[live[j + 1]].runes
    ensures Queued(r, rest, want, q, j')
  {
    if want(nodes[live[j]].runes, nodes[live[j + 1]].runes).Some? {
      var i :| 0 <= i < |q| && q[i].a == live[j] && q[i].b == live[j + 1] && Fresh(nodes, q[i]);
      assert Fresh(r, q[i]);
    }
  }

  /** The other pieces keep their runes and their order. */
  lemma MergedElsewhere(nodes: seq<Node>, live: seq<int>, k: nat, l: nat)
    requires Linked(nodes, live) && k + 1 < |live| && l < |live| && l != k && l != k + 1
    ensures Merged(nodes, live[k], live[k + 1])[live[l]].runes == nodes[live[l]].runes
    ensures var rest, l' := Without(live, k + 1), if l < k then l else l - 1; l' < |rest| && rest[l'] == live[l]
  {
    AfterNext(nodes, live, k + 1);
    MergedNode(nodes, live[k], live[k + 1], live[l]);
    WithoutAt(live, k + 1);
  }

  /** ... and so after a merge that does not touch it. */
  lemma QueuedAfterMerge<K>(nodes: seq<Node>, live: seq<int>, want: Eval<K>, q: seq<Candidate<K>>, k: nat, j: int)
    requires Linked(nodes, live) && k + 1 < |live|
    requires Queued(nodes, live, want, q, j) && (j < k - 1 || j > k + 1)
    ensures var r, rest := Merged(nodes, live[k], live[k + 1]), Without(live, k + 1);
            Linked(r, rest) && Queued(r, rest, want, q, if j < k then j else j - 1)
  {
    MergedLinked(nodes, live, k);
    var r, rest := Merged(nodes, live[k], live[k + 1]), Without(live, k + 1);
    if 0 <= j < |live| - 1 {
      var j' := if j < k then j else j - 1;
      MergedElsewhere(nodes, live, k, j);
      MergedElsewhere(nodes, live, k, j + 1);
      QueuedElsewhere(nodes, live, r, rest, want, q, j, j');
    }
  }

  ghost predicate AllQueued<K>(nodes: seq<Node>, live: seq<int>, want: Eval<K>, q: seq<Candidate<K>>)
    requires Linked(nodes, live)
  {
    forall k | 0 <= k < |live| :: Queued(nodes, live, want, q, k)
  }

  /** The list and its queue in a consistent state: candidates are honest about eval, and every pair that is
      wanted, which may be fewer than eval knows, is queued. */
  ghost predicate Consistent<K>(nodes: seq<Node>, live: seq<int>, eval: Eval<K>, want: Eval<K>, q: seq<Candidate<K>>) {
    Linked(nodes, live) && Listed(nodes, live) && AllHonest(nodes, eval, q) && AllQueued(nodes, live, want, q)
  }

  /** Discarding a candidate that is stale or not wanted keeps the state consistent. */
  lemma Discard<K>(nodes: seq<Node>, live: seq<int>, eval: Eval<K>, want: Eval<K>, q: seq<Candidate<K>>, at: nat)
    requires Consistent(nodes, live, eval, want, q) && at < |q| && Unwanted(nodes, want, q[at])
    ensures Consistent(nodes, live, eval, want, q[..at] + q[at + 1..])
  {
    var rest := q[..at] + q[at + 1..];
    forall k | 0 <= k < |live|
      ensures Queued(nodes, live, want, rest, k)
    {
      QueuedAfterPop(nodes, live, want, q, at, k);
    }
  }

  /** The position in the list of a fresh candidate's pair. */
  lemma FreshPair<K>(nodes: seq<Node>, live: seq<int>, eval: Eval<K>, want: Eval<K>, q: seq<Candidate<K>>, at: nat)
    returns (k: nat)
    requires Consistent(nodes, live, eval, want, q) && at < |q| && Fresh(nodes, q[at])
    ensures k + 1 < |live| && live[k] == q[at].a && live[k + 1] == q[at].b
    ensures eval(nodes[live[k]].runes, nodes[live[k + 1]].runes) == Some(q[at].key)
  {
    var c := q[at];
    assert Honest(nodes, eval, c);
    k :| 0 <= k < |live| && live[k] == c.a;
    AfterNext(nodes, live, k);
  }

  /** Taking a fresh candidate, merging its pair and queueing the two new neighbours keeps the state consistent. */
  lemma MergeFresh<K>(nodes: seq<Node>, live: seq<int>, eval: Eval<K>, want: Eval<K>, q: seq<Candidate<K>>, at: nat,
                      k: nat)
    requires Within(want, eval) && Consistent(nodes, live, eval, want, q) && at < |q| && Fresh(nodes, q[at])
    requires k + 1 < |live| && live[k] == q[at].a && live[k + 1] == q[at].b
    ensures var a, r, rest := live[k], Merged(nodes, live[k], live[k + 1]), Without(live, k + 1);
            && r[a].p < |r| && 0 <= r[a].n
            && Consistent(r, rest, eval, want,
                 Push(Push(q[..at] + q[at + 1..], Pairwise(r, eval, r[a].p, a)), Pairwise(r, eval, a, r[a].n)))
  {
    var a, r, rest := live[k], Merged(nodes, live[k], live[k + 1]), Without(live, k + 1);
    var q0 := q[..at] + q[at + 1..];
    MergedLinked(nodes, live, k);
    MergedListed(nodes, live, k);
    WithoutAt(live, k + 1);
    AfterNext(r, rest, k);
    MergedAllHonest(nodes, live, eval, q, at, k);
    forall j | 0 <= j < |rest| && j != k - 1 && j != k
      ensures Queued(r, rest, want, q0, j)
    {
      var j' := if j < k then j else j + 1;
      QueuedAfterPop(nodes, live, want, q, at, j');
      QueuedAfterMerge(nodes, live, want, q0, k, j');
    }
    PushNeighbours(r, rest, eval, want, q0, k);
  }

  /** Queueing the pairs on both sides of piece k completes a queue that lacks at most those. */
  lemma PushNeighbours<K>(r: seq<Node>, rest: seq<int>, eval: Eval<K>, want: Eval<K>, q0: seq<Candidate<K>>, k: nat)
    requires Linked(r, rest) && k < |rest| && AllHonest(r, eval, q0) && Within(want, eval)
    requires QueuedApart(r, rest, want, q0, k)
    ensures var a := rest[k];
            && r[a].p < |r| && 0 <= r[a].n
            && var q2 := Push(Push(q0, Pairwise(r, eval, r[a].p, a)), Pairwise(r, eval, a, r[a].n));
            AllHonest(r, eval, q2) && AllQueued(r, rest, want, q2)
  {
    var a := rest[k];
    AfterNext(r, rest, k);
    var q1 := Push(q0, Pairwise(r, eval, r[a].p, a));
    var q2 := Push(q1, Pairwise(r, eval, a, r[a].n));
    PushLeft(r, rest, eval, want, q0, k);
    PushRight(r, rest, eval, want, q1, k);
    AllQueuedMore(r, rest, want, q0, q1, q2, k);
  }

  /** Every pair but the two that piece k is in is represented. */
  ghost predicate QueuedApart<K>(r: seq<Node>, rest: seq<int>, want: Eval<K>, q: seq<Candidate<K>>, k: nat)
    requires Linked(r, rest)
  {
    forall j | 0 <= j < |rest| && j != k - 1 && j != k :: Queued(r, rest, want, q, j)
  }

  lemma PushLeft<K>(r: seq<Node>, rest: seq<int>, eval: Eval<K>, want: Eval<K>, q: seq<Candidate<K>>, k: nat)
    requires Linked(r, rest) && k < |rest| && AllHonest(r, eval, q) && Within(want, eval)
    ensures r[rest[k]].p < |r|
    ensures var q' := Push(q, Pairwise(r, eval, r[rest[k]].p, rest[k]));
            AllHonest(r, eval, q') && q <= q' && (k > 0 ==> Queued(r, rest, want, q', k - 1))
  {
    PieceBefore(r, rest, k);
    if k > 0 {
      PushPair(r, rest, eval, want, q, k - 1);
    } else {
      assert Push(q, Pairwise(r, eval, r[rest[k]].p, rest[k])) == q;
    }
  }

  lemma PieceBefore(r: seq<Node>, rest: seq<int>, k: nat)
    requires Linked(r, rest) && k < |rest|
    ensures r[rest[k]].p == if k == 0 then -1 else rest[k - 1]
    ensures r[rest[k]].p < |r|
  {
    AfterNext(r, rest, k);
  }

  lemma PushRight<K>(r: seq<Node>, rest: seq<int>, eval: Eval<K>, want: Eval<K>, q: seq<Candidate<K>>, k: nat)
    requires Linked(r, rest) && k < |rest| && AllHonest(r, eval, q) && Within(want, eval)
    ensures 0 <= r[rest[k]].n
    ensures var q' := Push(q, Pairwise(r, eval, rest[k], r[rest[k]].n));
            AllHonest(r, eval, q') && q <= q' && Queued(r, rest, want, q', k)
  {
    AfterNext(r, rest, k);
    if k + 1 < |rest| {
      PushPair(r, rest, eval, want, q, k);
    }
  }

  lemma AllQueuedMore<K>(r: seq<Node>, rest: seq<int>, want: Eval<K>, q0: seq<Candidate<K>>, q1: seq<Candidate<K>>,
                         q2: seq<Candidate<K>>, k: nat)
    requires Linked(r, rest) && k < |rest| && QueuedApart(r, rest, want, q0, k) && q0 <= q1 <= q2
    requires (k > 0 ==> Queued(r, rest, want, q1, k - 1)) && Queued(r, rest, want, q2, k)
    ensures AllQueued(r, rest, want, q2)
  {
    forall j | 0 <= j < |rest|
      ensures Queued(r, rest, want, q2, j)
    {
      if j == k - 1 {
        QueuedMore(r, rest, want, q1, q2, j);
      } else if j != k {
        QueuedMore(r, rest, want, q0, q2, j);
      }
    }
  }

  lemma MergedAllHonest<K>(nodes: seq<Node>, live: seq<int>, eval: Eval<K>, q: seq<Candidate<K>>, at: nat, k: nat)
    requires Linked(nodes, live) && k + 1 < |live| && AllHonest(nodes, eval, q) && at < |q|
    ensures AllHonest(Merged(nodes, live[k], live[k + 1]), eval, q[..at] + q[at + 1..])
  {
    var q0 := q[..at] + q[at + 1..];
    forall i | 0 <= i < |q0|
      ensures Honest(Merged(nodes, live[k], live[k + 1]), eval, q0[i])
    {
      assert q0[i] == q[if i < at then i else i + 1];
      MergedHonest(nodes, live, eval, k, q0[i]);
    }
  }

  lemma QueuedMore<K>(nodes: seq<Node>, live: seq<int>, want: Eval<K>, q: seq<Candidate<K>>, q': seq<Candidate<K>>,
                      k: int)
    requires Linked(nodes, live) && q <= q' && Queued(nodes, live, want, q, k)
    ensures Queued(nodes, live, want, q', k)
  {
    if 0 <= k < |live| - 1 && want(nodes[live[k]].runes, nodes[live[k + 1]].runes).Some? {
      var i :| 0 <= i < |q| && q[i].a == live[k] && q[i].b == live[k + 1] && Fresh(nodes, q[i]);
      assert q'[i] == q[i];
    }
  }

  // ----- Filling the queue -----

  /** The first n pairs, where wanted, are represented. */
  ghost predicate PairsQueued<K>(nodes: seq<Node>, live: seq<int>, want: Eval<K>, q: seq<Candidate<K>>, n: int)
    requires Linked(nodes, live)
  {
    forall k | 0 <= k < n :: Queued(nodes, live, want, q, k)
  }

  lemma PairsQueuedMore<K>(nodes: seq<Node>, live: seq<int>, want: Eval<K>, q: seq<Candidate<K>>,
                           q': seq<Candidate<K>>, n: int)
    requires Linked(nodes, live) && q <= q' && PairsQueued(nodes, live, want, q, n)
    ensures PairsQueued(nodes, live, want, q', n)
  {
    forall k | 0 <= k < n
      ensures Queued(nodes, live, want, q', k)
    {
      QueuedMore(nodes, live, want, q, q', k);
    }
  }

  /** Queueing the next pair. */
  lemma PairsQueuedNext<K>(nodes: seq<Node>, live: seq<int>, eval: Eval<K>, want: Eval<K>, q: seq<Candidate<K>>, i: nat)
    requires Linked(nodes, live) && i + 1 < |live| && AllHonest(nodes, eval, q) && Within(want, eval)
    requires PairsQueued(nodes, live, want, q, i)
    ensures var q' := Push(q, Pairwise(nodes, eval, live[i], live[i + 1]));
            AllHonest(nodes, eval, q') && PairsQueued(nodes, live, want, q', i + 1)
  {
    PushPair(nodes, live, eval, want, q, i);
    PairsQueuedMore(nodes, live, want, q, Push(q, Pairwise(nodes, eval, live[i], live[i + 1])), i);
  }

  /** With all pairs queued the state is consistent. */
  lemma PairsQueuedAll<K>(nodes: seq<Node>, live: seq<int>, eval: Eval<K>, want: Eval<K>, q: seq<Candidate<K>>, n: int)
    requires Linked(nodes, live) && Listed(nodes, live) && AllHonest(nodes, eval, q)
    requires PairsQueued(nodes, live, want, q, n) && n >= |live| - 1
    ensures Consistent(nodes, live, eval, want, q)
  {
    forall k | 0 <= k < |live|
      ensures Queued(nodes, live, want, q, k)
    {
      assert k < n ==> Queued(nodes, live, want, q, k);
    }
  }

  lemma NodeAt(nodes: seq<Node>, live: seq<int>, i: nat)
    requires live == Indices(|nodes|) && i + 1 < |nodes|
    ensures live[i] == i && live[i + 1] == i + 1
  {
  }

  // ----- Building, updating and reading the list -----

  function Singles(runes: seq<char>): (r: seq<seq<char>>)
    ensures |r| == |runes|
  {
    seq(|runes|, i requires 0 <= i < |runes| => [runes[i]])
  }

  lemma {:induction false} FlattenSingles(runes: seq<char>)
    ensures Flatten(Singles(runes)) == runes
  {
    if runes != [] {
      assert Singles(runes)[1..] == Singles(runes[1..]);
      FlattenSingles(runes[1..]);
    }
  }

  function Chain(runes: seq<char>): (r: seq<Node>)
    ensures |r| == |runes|
  {
    seq(|runes|, i requires 0 <= i < |runes| => Node(i - 1, i + 1, [runes[i]]))
  }

  ghost function Indices(n: nat): seq<int> {
    seq(n, i => i)
  }

  lemma ChainLinked(runes: seq<char>)
    ensures Linked(Chain(runes), Indices(|runes|)) && Listed(Chain(runes), Indices(|runes|))
    ensures Pieces(Chain(runes), Indices(|runes|)) == Singles(runes)
  {
    var nodes, live := Chain(runes), Indices(|runes|);
    forall i | 0 <= i < |runes|
      ensures i in live
    {
      assert live[i] == i;
    }
  }

  /** Merges the piece at b into the piece at a, its predecessor, in place. */
  method MergeInPlace(merges: array<Node>, a: int, b: int)
    requires 0 <= a < b < merges.Length && b < merges[b].n
    modifies merges
    ensures merges[..] == Merged(old(merges[..]), a, b)
  {
    var left, right := merges[a], merges[b];
    merges[a] := merges[a].(runes := left.runes + right.runes);
    merges[b] := merges[b].(runes := []);
    merges[a] := merges[a].(n := right.n);
    if right.n < merges.Length {
      merges[right.n] := merges[right.n].(p := a);
    }
  }

  /** The pieces that are left, in array order. */
  method Collect(nodes: seq<Node>, ghost live: seq<int>) returns (pieces: seq<seq<char>>)
    requires Linked(nodes, live) && Listed(nodes, live)
    ensures pieces == Pieces(nodes, live)
  {
    pieces := [];
    ghost var m := 0;
    for i := 0 to |nodes|
      invariant 0 <= m <= |live| && pieces == Pieces(nodes, live)[..m]
      invariant forall k | 0 <= k < m :: live[k] < i
      invariant forall k | m <= k < |live| :: live[k] >= i
    {
      if nodes[i].runes != [] {
        ghost var k :| 0 <= k < |live| && live[k] == i;
        assert m < |live| && forall l | m < l < |live| :: live[m] < live[l];
        pieces := pieces + [nodes[i].runes];
        m := m + 1;
      } else {
        forall k | m <= k < |live|
          ensures live[k] != i
        {
          AfterNext(nodes, live, k);
        }
      }
    }
  }
}
