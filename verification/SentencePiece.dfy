/** SentencePiece tokenization of one fragment of text: a priority queue of merge candidates over an
    in-place linked list, against the naive algorithm that rescans all pairs after each merge. */
module SentencePiece {
  import opened Prelude
  import opened MergeList
  import opened Vocabulary

  /** What merging two pieces is worth: the score of the token they form. */
  function Score(v: Vocab): Eval<real>
    requires v.Valid()
  {
    (l, r) => if v.Encode(l + r) >= 0 then Some(v.scores[v.Encode(l + r)]) else None
  }

  // ----- The naive algorithm -----

  /** Among the first n pairs, the leftmost one with the highest score. */
  function BestIn(eval: Eval<real>, pieces: seq<seq<char>>, n: nat): (r: Option<nat>)
    requires n < |pieces| || n == 0
    ensures r.Some? ==> r.value < n && eval(pieces[r.value], pieces[r.value + 1]).Some?
  {
    if n == 0 then None else Improved(eval, pieces, n - 1, BestIn(eval, pieces, n - 1))
  }

  /** The better of pair n and the best pair to its left. */
  function Improved(eval: Eval<real>, pieces: seq<seq<char>>, n: nat, best: Option<nat>): Option<nat>
    requires n + 1 < |pieces|
    requires best.Some? ==> best.value < n && eval(pieces[best.value], pieces[best.value + 1]).Some?
  {
    match eval(pieces[n], pieces[n + 1])
    case None => best
    case Some(x) =>
      if best.None? || x > eval(pieces[best.value], pieces[best.value + 1]).value then Some(n) else best
  }

  function PairCount(pieces: seq<seq<char>>): nat {
    if pieces == [] then 0 else |pieces| - 1
  }

  /** Merge the best pair again and again until no pair forms a token. */
  function Naive(eval: Eval<real>, pieces: seq<seq<char>>): seq<seq<char>>
    decreases |pieces|
  {
    match BestIn(eval, pieces, PairCount(pieces))
    case None => pieces
    case Some(k) => Naive(eval, MergeAt(pieces, k))
  }

  /** Pair k beats every pair to its left and is not beaten by any pair to its right. */
  ghost predicate IsBest(eval: Eval<real>, pieces: seq<seq<char>>, k: nat) {
    && k + 1 < |pieces| && eval(pieces[k], pieces[k + 1]).Some?
    && forall j | 0 <= j < |pieces| - 1 && eval(pieces[j], pieces[j + 1]).Some? ::
         var x, y := eval(pieces[k], pieces[k + 1]).value, eval(pieces[j], pieces[j + 1]).value;
         y < x || (y == x && k <= j)
  }

  lemma {:induction false} BestInFinds(eval: Eval<real>, pieces: seq<seq<char>>, k: nat, n: nat)
    requires IsBest(eval, pieces, k) && n < |pieces|
    ensures n > k ==> BestIn(eval, pieces, n) == Some(k)
  {
    if n > 0 {
      BestInFinds(eval, pieces, k, n - 1);
    }
  }

  lemma {:induction false} BestInNone(eval: Eval<real>, pieces: seq<seq<char>>, n: nat)
    requires n < |pieces| || n == 0
    requires forall j | 0 <= j < |pieces| - 1 :: eval(pieces[j], pieces[j + 1]).None?
    ensures BestIn(eval, pieces, n).None?
  {
    if n > 0 {
      BestInNone(eval, pieces, n - 1);
    }
  }

  lemma NaiveMerges(eval: Eval<real>, pieces: seq<seq<char>>, k: nat)
    requires IsBest(eval, pieces, k)
    ensures Naive(eval, pieces) == Naive(eval, MergeAt(pieces, k))
  {
    BestInFinds(eval, pieces, k, |pieces| - 1);
  }

  // ----- Which merges are made, by the token texts and their scores -----

  /** Pair k forms token id. */
  ghost predicate Forms(v: Vocab, pieces: seq<seq<char>>, k: nat, id: int) {
    k + 1 < |pieces| && IsLast(v.values, pieces[k] + pieces[k + 1], id)
  }

  /** Pair k forms a token, no pair forms one with a higher score, and none to its left one with the same. */
  ghost predicate Merges(v: Vocab, pieces: seq<seq<char>>, k: nat)
    requires v.Valid()
  {
    exists id :: Forms(v, pieces, k, id) && forall j: nat, other | Forms(v, pieces, j, other) ::
      v.scores[other] < v.scores[id] || (v.scores[other] == v.scores[id] && k <= j)
  }

  ghost predicate Finished(v: Vocab, pieces: seq<seq<char>>) {
    forall k: nat, id :: !Forms(v, pieces, k, id)
  }

  /** `to` comes from `from` by such merges, until no pair forms a token. */
  ghost predicate Reaches(v: Vocab, from: seq<seq<char>>, to: seq<seq<char>>)
    requires v.Valid()
    decreases |from|
  {
    if Finished(v, from) then to == from
    else exists k: nat | k + 1 < |from| && Merges(v, from, k) :: Reaches(v, MergeAt(from, k), to)
  }

  lemma ScoreForms(v: Vocab, pieces: seq<seq<char>>, k: nat)
    requires v.Valid() && k + 1 < |pieces|
    ensures var x := Score(v)(pieces[k], pieces[k + 1]);
            && (x.Some? <==> exists id :: Forms(v, pieces, k, id))
            && forall id | Forms(v, pieces, k, id) :: x == Some(v.scores[id])
  {
    var text := pieces[k] + pieces[k + 1];
    v.EncodeFinds(text);
    if v.Encode(text) >= 0 {
      assert Forms(v, pieces, k, v.Encode(text));
    }
  }

  lemma BestMerges(v: Vocab, pieces: seq<seq<char>>, k: nat)
    requires v.Valid() && IsBest(Score(v), pieces, k)
    ensures Merges(v, pieces, k)
  {
    ScoreForms(v, pieces, k);
    var id :| Forms(v, pieces, k, id);
    forall j: nat, other | Forms(v, pieces, j, other)
      ensures v.scores[other] < v.scores[id] || (v.scores[other] == v.scores[id] && k <= j)
    {
      ScoreForms(v, pieces, j);
    }
  }

  ghost predicate NoneAmong(eval: Eval<real>, pieces: seq<seq<char>>, n: nat)
    requires n < |pieces| || n == 0
  {
    forall j | 0 <= j < n :: eval(pieces[j], pieces[j + 1]).None?
  }

  ghost predicate BestAmong(eval: Eval<real>, pieces: seq<seq<char>>, n: nat, k: nat) {
    && k < n < |pieces| && eval(pieces[k], pieces[k + 1]).Some?
    && forall j | 0 <= j < n && eval(pieces[j], pieces[j + 1]).Some? ::
         var x, y := eval(pieces[k], pieces[k + 1]).value, eval(pieces[j], pieces[j + 1]).value;
         y < x || (y == x && k <= j)
  }

  /** What the scan has found among the first n pairs. */
  ghost predicate Scanned(eval: Eval<real>, pieces: seq<seq<char>>, n: nat, best: Option<nat>)
    requires n < |pieces| || n == 0
  {
    if best.None? then NoneAmong(eval, pieces, n) else BestAmong(eval, pieces, n, best.value)
  }

  lemma {:induction false} BestInBest(eval: Eval<real>, pieces: seq<seq<char>>, n: nat)
    requires n < |pieces| || n == 0
    ensures Scanned(eval, pieces, n, BestIn(eval, pieces, n))
  {
    if n > 0 {
      BestInBest(eval, pieces, n - 1);
      ScannedNext(eval, pieces, n - 1, BestIn(eval, pieces, n - 1));
    }
  }

  lemma ScannedNext(eval: Eval<real>, pieces: seq<seq<char>>, n: nat, best: Option<nat>)
    requires n + 1 < |pieces| && Scanned(eval, pieces, n, best)
    ensures Scanned(eval, pieces, n + 1, Improved(eval, pieces, n, best))
  {
  }

  lemma AllPairs(eval: Eval<real>, pieces: seq<seq<char>>, k: nat)
    requires BestAmong(eval, pieces, PairCount(pieces), k)
    ensures IsBest(eval, pieces, k)
  {
  }

  lemma NoneForms(v: Vocab, pieces: seq<seq<char>>)
    requires v.Valid() && NoneAmong(Score(v), pieces, PairCount(pieces))
    ensures Finished(v, pieces)
  {
    forall k: nat, id | Forms(v, pieces, k, id)
      ensures false
    {
      ScoreForms(v, pieces, k);
    }
  }

  lemma SomeForms(v: Vocab, pieces: seq<seq<char>>, k: nat)
    requires v.Valid() && BestAmong(Score(v), pieces, PairCount(pieces), k)
    ensures !Finished(v, pieces)
  {
    ScoreForms(v, pieces, k);
  }

  lemma BestFound(v: Vocab, pieces: seq<seq<char>>)
    requires v.Valid() && BestIn(Score(v), pieces, PairCount(pieces)).Some?
    ensures Merges(v, pieces, BestIn(Score(v), pieces, PairCount(pieces)).value)
  {
    var k := BestIn(Score(v), pieces, PairCount(pieces)).value;
    BestInBest(Score(v), pieces, PairCount(pieces));
    AllPairs(Score(v), pieces, k);
    BestMerges(v, pieces, k);
  }

  /** The naive algorithm makes those merges. */
  lemma {:induction false} NaiveReaches(v: Vocab, pieces: seq<seq<char>>)
    requires v.Valid()
    ensures Reaches(v, pieces, Naive(Score(v), pieces))
    decreases |pieces|
  {
    var best := BestIn(Score(v), pieces, PairCount(pieces));
    BestInBest(Score(v), pieces, PairCount(pieces));
    if best.Some? {
      SomeForms(v, pieces, best.value);
      BestFound(v, pieces);
      NaiveReaches(v, MergeAt(pieces, best.value));
    } else {
      NoneForms(v, pieces);
    }
  }

  /** There is only one such result. */
  lemma {:induction false} ReachesOnce(v: Vocab, from: seq<seq<char>>, to: seq<seq<char>>, to': seq<seq<char>>)
    requires v.Valid() && Reaches(v, from, to) && Reaches(v, from, to')
    ensures to == to'
    decreases |from|
  {
    if !Finished(v, from) {
      var k: nat :| k + 1 < |from| && Merges(v, from, k) && Reaches(v, MergeAt(from, k), to);
      var l: nat :| l + 1 < |from| && Merges(v, from, l) && Reaches(v, MergeAt(from, l), to');
      MergesOnce(v, from, k, l);
      ReachesOnce(v, MergeAt(from, k), to, to');
    }
  }

  lemma MergesOnce(v: Vocab, pieces: seq<seq<char>>, k: nat, l: nat)
    requires v.Valid() && Merges(v, pieces, k) && Merges(v, pieces, l)
    ensures k == l
  {
  }

  // ----- The queue -----

  /** c comes out of the queue before d: higher score, then further left. */
  predicate Less(c: Candidate<real>, d: Candidate<real>) {
    c.key > d.key || (c.key == d.key && c.a < d.a)
  }

  ghost predicate Front(q: seq<Candidate<real>>, at: nat) {
    at < |q| && forall i | 0 <= i < |q| :: !Less(q[i], q[at])
  }

  lemma {:induction false} SomeFront(q: seq<Candidate<real>>) returns (at: nat)
    requires q != []
    ensures Front(q, at)
  {
    at := 0;
    if |q| > 1 {
      var n := |q| - 1;
      at := SomeFront(q[..n]);
      assert forall i | 0 <= i < n :: q[..n][i] == q[i];
      if Less(q[n], q[at]) {
        at := n;
      }
    }
  }

  /** Pop: any candidate that no other precedes. Ties may come out in either order. */
  method Pop(q: seq<Candidate<real>>) returns (at: nat)
    requires q != []
    ensures Front(q, at)
  {
    ghost var some := SomeFront(q);
    at :| at < |q| && forall i | 0 <= i < |q| :: !Less(q[i], q[at]);
  }

  /** If the front of the queue is fresh, its pair is the one the naive algorithm merges. */
  lemma FrontIsBest(nodes: seq<Node>, live: seq<int>, eval: Eval<real>, q: seq<Candidate<real>>, at: nat, k: nat)
    requires Consistent(nodes, live, eval, eval, q) && Front(q, at) && Fresh(nodes, q[at])
    requires k + 1 < |live| && live[k] == q[at].a && live[k + 1] == q[at].b
    requires eval(nodes[live[k]].runes, nodes[live[k + 1]].runes) == Some(q[at].key)
    ensures IsBest(eval, Pieces(nodes, live), k)
  {
    var pieces := Pieces(nodes, live);
    forall j | 0 <= j < |pieces| - 1 && eval(pieces[j], pieces[j + 1]).Some?
      ensures var x, y := eval(pieces[k], pieces[k + 1]).value, eval(pieces[j], pieces[j + 1]).value;
              y < x || (y == x && k <= j)
    {
      assert Queued(nodes, live, eval, q, j);
      var i :| 0 <= i < |q| && q[i].a == live[j] && q[i].b == live[j + 1] && Fresh(nodes, q[i]);
      assert Honest(nodes, eval, q[i]) && !Less(q[i], q[at]);
      if j < k {
        assert live[j] < live[k];
      }
    }
  }

  lemma EmptyQueueDone(nodes: seq<Node>, live: seq<int>, eval: Eval<real>)
    requires Consistent(nodes, live, eval, eval, [])
    ensures Naive(eval, Pieces(nodes, live)) == Pieces(nodes, live)
  {
    var pieces := Pieces(nodes, live);
    forall j | 0 <= j < |pieces| - 1
      ensures eval(pieces[j], pieces[j + 1]).None?
    {
      assert Queued(nodes, live, eval, [], j);
    }
    BestInNone(eval, pieces, PairCount(pieces));
  }

  // ----- The algorithm -----

  /** Queues every adjacent pair of the fresh list that forms a token. */
  method InitialQueue(v: Vocab, nodes: seq<Node>, ghost live: seq<int>) returns (q: seq<Candidate<real>>)
    requires v.Valid() && Linked(nodes, live) && Listed(nodes, live) && live == Indices(|nodes|)
    ensures Consistent(nodes, live, Score(v), Score(v), q)
  {
    q := [];
    var i := 0;
    while i < |nodes| - 1
      invariant 0 <= i <= Max(0, |nodes| - 1)
      invariant AllHonest(nodes, Score(v), q) && PairsQueued(nodes, live, Score(v), q, i)
    {
      PairsQueuedNext(nodes, live, Score(v), Score(v), q, i);
      NodeAt(nodes, live, i);
      q := Push(q, Pairwise(nodes, Score(v), i, i + 1));
      i := i + 1;
    }
    PairsQueuedAll(nodes, live, Score(v), Score(v), q, i);
  }

  /** What merging the fresh front of the queue does to a consistent state. */
  lemma TakeFront(eval: Eval<real>, nodes: seq<Node>, live: seq<int>, q: seq<Candidate<real>>, at: nat)
    returns (rest: seq<int>)
    requires Consistent(nodes, live, eval, eval, q) && Front(q, at) && Fresh(nodes, q[at])
    ensures var a, b := q[at].a, q[at].b;
            && 0 <= a < b < |nodes| && b < nodes[b].n
            && var r := Merged(nodes, a, b);
            && r[a].p < |r| && 0 <= r[a].n && |rest| == |live| - 1
            && Consistent(r, rest, eval, eval,
                 Push(Push(q[..at] + q[at + 1..], Pairwise(r, eval, r[a].p, a)), Pairwise(r, eval, a, r[a].n)))
            && Naive(eval, Pieces(r, rest)) == Naive(eval, Pieces(nodes, live))
  {
    var k := FreshPair(nodes, live, eval, eval, q, at);
    FrontIsBest(nodes, live, eval, q, at, k);
    NaiveMerges(eval, Pieces(nodes, live), k);
    MergedPieces(nodes, live, k);
    MergeFresh(nodes, live, eval, eval, q, at, k);
    AfterNext(nodes, live, k + 1);
    rest := Without(live, k + 1);
  }

  /** Merges the pair at the front of the queue and queues its two new neighbours. */
  method TakePair(v: Vocab, merges: array<Node>, q: seq<Candidate<real>>, at: nat, ghost live: seq<int>)
    returns (q': seq<Candidate<real>>, ghost rest: seq<int>)
    requires v.Valid() && Consistent(merges[..], live, Score(v), Score(v), q) && Front(q, at)
    requires Fresh(merges[..], q[at])
    modifies merges
    ensures Consistent(merges[..], rest, Score(v), Score(v), q') && |rest| == |live| - 1
    ensures Naive(Score(v), Pieces(merges[..], rest)) == Naive(Score(v), Pieces(old(merges[..]), live))
  {
    var pair := q[at];
    rest := TakeFront(Score(v), merges[..], live, q, at);
    MergeInPlace(merges, pair.a, pair.b);
    var merged := merges[pair.a];
    q' := q[..at] + q[at + 1..];
    q' := Push(q', Pairwise(merges[..], Score(v), merged.p, pair.a));
    q' := Push(q', Pairwise(merges[..], Score(v), pair.a, merged.n));
  }

  /** The heap-and-list merge makes exactly the merges of highest score, leftmost on ties, until no pair forms a token:
      those of the naive algorithm, whatever stale candidates the queue holds and however it orders ties. */
  method MergePieces(v: Vocab, runes: seq<char>) returns (pieces: seq<seq<char>>)
    requires v.Valid()
    ensures Reaches(v, Singles(runes), pieces)
    ensures pieces == Naive(Score(v), Singles(runes))
  {
    var merges := new Node[|runes|](i requires 0 <= i < |runes| => Node(i - 1, i + 1, [runes[i]]));
    ghost var live := Indices(|runes|);
    assert merges[..] == Chain(runes);
    ChainLinked(runes);
    var q := InitialQueue(v, merges[..], live);
    while q != []
      invariant Consistent(merges[..], live, Score(v), Score(v), q)
      invariant Naive(Score(v), Pieces(merges[..], live)) == Naive(Score(v), Singles(runes))
      decreases |live|, |q|
    {
      var at := Pop(q);
      var pair := q[at];
      assert Honest(merges[..], Score(v), pair);
      var left, right := merges[pair.a], merges[pair.b];
      if left.runes == [] || right.runes == [] || ByteLen(left.runes) + ByteLen(right.runes) != pair.size {
        Discard(merges[..], live, Score(v), Score(v), q, at);
        q := q[..at] + q[at + 1..];
      } else {
        q, live := TakePair(v, merges, q, at, live);
      }
    }
    EmptyQueueDone(merges[..], live, Score(v));
    NaiveReaches(v, Singles(runes));
    pieces := Collect(merges[..], live);
  }
}
