/** Byte-pair encoding of one part of text, and byte-level decoding. */
module BytePair {
  import opened Prelude
  import opened Bytes
  import opened MergeList
  import opened Vocabulary

  /** A queued pair: the rank of its merge rule and the text it forms. */
  datatype Pair = Pair(a: int, b: int, rank: nat, value: seq<char>)

  /** The rank of the rule that merges two pieces. */
  function Rank(v: Vocab): Eval<int> {
    (l, r) => if v.Merge(l, r) >= 0 then Some(v.Merge(l, r)) else None
  }

  /** The same, for pairs whose text is a token. */
  function TokenRank(v: Vocab): Eval<int> {
    (l, r) => if v.Merge(l, r) >= 0 && v.Encode(l + r) >= 0 then Some(v.Merge(l, r)) else None
  }

  // ----- Which results are right -----

  /** Pair k has a rule of this rank and forms a token. */
  ghost predicate Joins(v: Vocab, pieces: seq<seq<char>>, k: nat, rank: int) {
    && k + 1 < |pieces| && IsLast(v.merges, pieces[k] + " " + pieces[k + 1], rank)
    && pieces[k] + pieces[k + 1] in v.values
  }

  /** Pair k forms a token, and no pair that forms a token has a rule of lower rank. */
  ghost predicate IsLowest(v: Vocab, pieces: seq<seq<char>>, k: nat) {
    exists rank :: Joins(v, pieces, k, rank) && forall j: nat, other | Joins(v, pieces, j, other) :: rank <= other
  }

  ghost predicate Finished(v: Vocab, pieces: seq<seq<char>>) {
    forall j: nat, rank :: !Joins(v, pieces, j, rank)
  }

  lemma RankJoins(v: Vocab, pieces: seq<seq<char>>, k: nat)
    requires k + 1 < |pieces|
    ensures forall rank :: Joins(v, pieces, k, rank) <==> TokenRank(v)(pieces[k], pieces[k + 1]) == Some(rank)
  {
    v.EncodeFinds(pieces[k] + pieces[k + 1]);
    v.MergeFinds(pieces[k], pieces[k + 1]);
  }

  /** `to` comes from `from` by merging pairs of lowest rank until no pair can be merged. */
  ghost predicate Reaches(v: Vocab, from: seq<seq<char>>, to: seq<seq<char>>)
    decreases |from|
  {
    if Finished(v, from) then to == from
    else exists k: nat | k + 1 < |from| && IsLowest(v, from, k) :: Reaches(v, MergeAt(from, k), to)
  }

  ghost predicate AllTokens(v: Vocab, pieces: seq<seq<char>>) {
    forall k | 0 <= k < |pieces| :: v.Encode(pieces[k]) >= 0
  }

  lemma MergeAtTokens(v: Vocab, pieces: seq<seq<char>>, k: nat)
    requires AllTokens(v, pieces) && k + 1 < |pieces| && IsLowest(v, pieces, k)
    ensures AllTokens(v, MergeAt(pieces, k))
  {
    var r := MergeAt(pieces, k);
    forall j | 0 <= j < |r|
      ensures v.Encode(r[j]) >= 0
    {
      assert r[j] == if j < k then pieces[j] else if j == k then pieces[k] + pieces[k + 1] else pieces[j + 1];
      v.EncodeFinds(pieces[k] + pieces[k + 1]);
    }
  }

  /** Merging loses no text, and makes only tokens out of tokens. */
  lemma {:induction false} ReachesKeeps(v: Vocab, from: seq<seq<char>>, to: seq<seq<char>>)
    requires Reaches(v, from, to)
    ensures Flatten(to) == Flatten(from)
    ensures AllTokens(v, from) ==> AllTokens(v, to)
    ensures Finished(v, to)
    decreases |from|
  {
    if !Finished(v, from) {
      var k: nat :| k + 1 < |from| && IsLowest(v, from, k) && Reaches(v, MergeAt(from, k), to);
      MergeAtFlatten(from, k);
      if AllTokens(v, from) {
        MergeAtTokens(v, from, k);
      }
      ReachesKeeps(v, MergeAt(from, k), to);
    }
  }

  // ----- The queue -----

  function AsCandidate(p: Pair): Candidate<int> {
    Candidate(p.a, p.b, p.rank, ByteLen(p.value))
  }

  function AsCandidates(q: seq<Pair>): (r: seq<Candidate<int>>)
    ensures |r| == |q|
  {
    seq(|q|, i requires 0 <= i < |q| => AsCandidate(q[i]))
  }

  /** A fresh pair still spells the text it was queued with. */
  ghost predicate Spelled(nodes: seq<Node>, p: Pair) {
    Fresh(nodes, AsCandidate(p)) ==> p.value == nodes[p.a].runes + nodes[p.b].runes
  }

  ghost predicate State(nodes: seq<Node>, live: seq<int>, v: Vocab, q: seq<Pair>) {
    && Consistent(nodes, live, Rank(v), TokenRank(v), AsCandidates(q))
    && AllSpelled(nodes, q)
  }

  ghost predicate AllSpelled(nodes: seq<Node>, q: seq<Pair>) {
    forall i | 0 <= i < |q| :: Spelled(nodes, q[i])
  }

  function Pairwise(nodes: seq<Node>, v: Vocab, a: int, b: int): Option<Pair>
    requires a < |nodes| && 0 <= b
  {
    if a < 0 || b >= |nodes| then None
    else
      var left, right := nodes[a].runes, nodes[b].runes;
      var rank := v.Merge(left, right);
      if rank < 0 then None else Some(Pair(a, b, rank, left + right))
  }

  function Push(q: seq<Pair>, p: Option<Pair>): seq<Pair> {
    if p.Some? then q + [p.value] else q
  }

  lemma PushAsCandidates(nodes: seq<Node>, v: Vocab, q: seq<Pair>, a: int, b: int)
    requires a < |nodes| && 0 <= b
    ensures AsCandidates(Push(q, Pairwise(nodes, v, a, b))) ==
            MergeList.Push(AsCandidates(q), MergeList.Pairwise(nodes, Rank(v), a, b))
  {
    var p := Pairwise(nodes, v, a, b);
    if p.Some? {
      ByteLenConcat(nodes[a].runes, nodes[b].runes);
      AsCandidatesNext(q, p.value);
    }
  }

  lemma AsCandidatesNext(q: seq<Pair>, p: Pair)
    ensures AsCandidates(q + [p]) == AsCandidates(q) + [AsCandidate(p)]
  {
  }

  ghost predicate Front(q: seq<Pair>, at: nat) {
    at < |q| && forall i | 0 <= i < |q| :: q[at].rank <= q[i].rank
  }

  lemma {:induction false} SomeFront(q: seq<Pair>) returns (at: nat)
    requires q != []
    ensures Front(q, at)
  {
    at := 0;
    if |q| > 1 {
      var n := |q| - 1;
      at := SomeFront(q[..n]);
      assert forall i | 0 <= i < n :: q[..n][i] == q[i];
      if q[n].rank < q[at].rank {
        at := n;
      }
    }
  }

  /** Pop: any pair of lowest rank. */
  method Pop(q: seq<Pair>) returns (at: nat)
    requires q != []
    ensures Front(q, at)
  {
    ghost var some := SomeFront(q);
    at :| at < |q| && forall i | 0 <= i < |q| :: q[at].rank <= q[i].rank;
  }

  /** A fresh pair carries the rank of the rule for its pieces. */
  lemma FreshRank(nodes: seq<Node>, live: seq<int>, v: Vocab, q: seq<Pair>, i: nat)
    requires State(nodes, live, v, q) && i < |q| && Fresh(nodes, AsCandidate(q[i]))
    ensures q[i].rank == v.Merge(nodes[q[i].a].runes, nodes[q[i].b].runes)
    ensures q[i].value == nodes[q[i].a].runes + nodes[q[i].b].runes
  {
    assert Honest(nodes, Rank(v), AsCandidates(q)[i]);
    assert Spelled(nodes, q[i]);
  }

  lemma QueuedRank(nodes: seq<Node>, live: seq<int>, v: Vocab, q: seq<Pair>, j: nat) returns (i: nat)
    requires State(nodes, live, v, q) && j + 1 < |live|
    requires TokenRank(v)(nodes[live[j]].runes, nodes[live[j + 1]].runes).Some?
    ensures i < |q| && q[i].rank == v.Merge(nodes[live[j]].runes, nodes[live[j + 1]].runes)
  {
    var cs := AsCandidates(q);
    assert Queued(nodes, live, TokenRank(v), cs, j);
    i :| 0 <= i < |cs| && cs[i].a == live[j] && cs[i].b == live[j + 1] && Fresh(nodes, cs[i]);
    FreshRank(nodes, live, v, q, i);
  }

  lemma FrontIsLowest(nodes: seq<Node>, live: seq<int>, v: Vocab, q: seq<Pair>, at: nat, k: nat)
    requires State(nodes, live, v, q) && Front(q, at) && Fresh(nodes, AsCandidate(q[at]))
    requires v.Encode(q[at].value) >= 0
    requires k + 1 < |live| && live[k] == q[at].a && live[k + 1] == q[at].b
    ensures IsLowest(v, Pieces(nodes, live), k)
  {
    var pieces := Pieces(nodes, live);
    FreshRank(nodes, live, v, q, at);
    assert forall j | 0 <= j < |live| :: pieces[j] == nodes[live[j]].runes;
    RankJoins(v, pieces, k);
    assert Joins(v, pieces, k, q[at].rank);
    forall j: nat, other | Joins(v, pieces, j, other)
      ensures q[at].rank <= other
    {
      RankJoins(v, pieces, j);
      FrontAtMost(nodes, live, v, q, at, j);
    }
  }

  lemma FrontAtMost(nodes: seq<Node>, live: seq<int>, v: Vocab, q: seq<Pair>, at: nat, j: nat)
    requires State(nodes, live, v, q) && Front(q, at) && j + 1 < |live|
    requires TokenRank(v)(nodes[live[j]].runes, nodes[live[j + 1]].runes).Some?
    ensures q[at].rank <= v.Merge(nodes[live[j]].runes, nodes[live[j + 1]].runes)
  {
    var i := QueuedRank(nodes, live, v, q, j);
  }

  /** Fresh pairs elsewhere keep their spelling through a merge; the others stay stale. */
  lemma MergedSpelled(nodes: seq<Node>, live: seq<int>, v: Vocab, k: nat, p: Pair)
    requires Linked(nodes, live) && k + 1 < |live| && Honest(nodes, Rank(v), AsCandidate(p)) && Spelled(nodes, p)
    ensures Spelled(Merged(nodes, live[k], live[k + 1]), p)
  {
    AfterNext(nodes, live, k);
    AfterNext(nodes, live, k + 1);
    var a, b := live[k], live[k + 1];
    var r := Merged(nodes, a, b);
    MergedNodes(nodes, a, b);
    if Fresh(r, AsCandidate(p)) {
      ByteLenConcat(nodes[a].runes, nodes[b].runes);
      NonEmptyLen(nodes[b].runes);
      assert Alive(nodes, AsCandidate(p));
      assert p.a != a && p.b != a;
    }
  }

  /** What merging the front of the queue, fresh and a token, does to the state. */
  lemma TakeFront(nodes: seq<Node>, live: seq<int>, v: Vocab, q: seq<Pair>, at: nat) returns (k: nat)
    requires State(nodes, live, v, q) && Front(q, at) && Fresh(nodes, AsCandidate(q[at]))
    requires v.Encode(q[at].value) >= 0
    ensures k + 1 < |live| && IsLowest(v, Pieces(nodes, live), k)
    ensures var a, b := q[at].a, q[at].b;
            && 0 <= a < b < |nodes| && b < nodes[b].n
            && var r, rest := Merged(nodes, a, b), Without(live, k + 1);
            && r[a].p < |r| && 0 <= r[a].n && |rest| == |live| - 1
            && Linked(r, rest) && Pieces(r, rest) == MergeAt(Pieces(nodes, live), k)
            && State(r, rest, v,
                     Push(Push(q[..at] + q[at + 1..], Pairwise(r, v, r[a].p, a)), Pairwise(r, v, a, r[a].n)))
  {
    var cs := AsCandidates(q);
    k := FreshPair(nodes, live, Rank(v), TokenRank(v), cs, at);
    FrontIsLowest(nodes, live, v, q, at, k);
    MergedPieces(nodes, live, k);
    MergeFresh(nodes, live, Rank(v), TokenRank(v), cs, at, k);
    AfterNext(nodes, live, k + 1);
    PushedState(nodes, live, v, q, at, k);
  }

  lemma MergedAllSpelled(nodes: seq<Node>, live: seq<int>, v: Vocab, q: seq<Pair>, at: nat, k: nat)
    requires State(nodes, live, v, q) && at < |q| && k + 1 < |live|
    ensures var r, q0 := Merged(nodes, live[k], live[k + 1]), q[..at] + q[at + 1..];
            AllSpelled(r, q0)
  {
    var q0 := q[..at] + q[at + 1..];
    forall i | 0 <= i < |q0|
      ensures Spelled(Merged(nodes, live[k], live[k + 1]), q0[i])
    {
      var j := if i < at then i else i + 1;
      assert q0[i] == q[j];
      assert Honest(nodes, Rank(v), AsCandidates(q)[j]);
      MergedSpelled(nodes, live, v, k, q0[i]);
    }
  }

  lemma PushSpelled(nodes: seq<Node>, v: Vocab, q: seq<Pair>, a: int, b: int)
    requires a < |nodes| && 0 <= b && AllSpelled(nodes, q)
    ensures AllSpelled(nodes, Push(q, Pairwise(nodes, v, a, b)))
  {
  }

  lemma AsCandidatesWithout(q: seq<Pair>, at: nat)
    requires at < |q|
    ensures AsCandidates(q[..at] + q[at + 1..]) == AsCandidates(q)[..at] + AsCandidates(q)[at + 1..]
  {
  }

  lemma PushedState(nodes: seq<Node>, live: seq<int>, v: Vocab, q: seq<Pair>, at: nat, k: nat)
    requires State(nodes, live, v, q) && at < |q| && k + 1 < |live| && live[k] == q[at].a && live[k + 1] == q[at].b
    requires Fresh(nodes, AsCandidate(q[at]))
    ensures var a, r, rest := live[k], Merged(nodes, live[k], live[k + 1]), Without(live, k + 1);
            && r[a].p < |r| && 0 <= r[a].n
            && State(r, rest, v,
                     Push(Push(q[..at] + q[at + 1..], Pairwise(r, v, r[a].p, a)), Pairwise(r, v, a, r[a].n)))
  {
    var a, r, q0 := live[k], Merged(nodes, live[k], live[k + 1]), q[..at] + q[at + 1..];
    MergeFresh(nodes, live, Rank(v), TokenRank(v), AsCandidates(q), at, k);
    AsCandidatesWithout(q, at);
    MergedAllSpelled(nodes, live, v, q, at, k);
    var q1 := Push(q0, Pairwise(r, v, r[a].p, a));
    PushSpelled(r, v, q0, r[a].p, a);
    PushSpelled(r, v, q1, a, r[a].n);
    PushAsCandidates(r, v, q0, r[a].p, a);
    PushAsCandidates(r, v, q1, a, r[a].n);
  }

  // ----- The algorithm -----

  /** Everything reachable from `next` is reachable from `first`. */
  ghost predicate Leads(v: Vocab, first: seq<seq<char>>, next: seq<seq<char>>) {
    forall to :: Reaches(v, next, to) ==> Reaches(v, first, to)
  }

  lemma LeadsOn(v: Vocab, first: seq<seq<char>>, pieces: seq<seq<char>>, k: nat)
    requires Leads(v, first, pieces) && k + 1 < |pieces| && IsLowest(v, pieces, k)
    ensures Leads(v, first, MergeAt(pieces, k))
  {
    forall to | Reaches(v, MergeAt(pieces, k), to)
      ensures Reaches(v, first, to)
    {
      assert Reaches(v, pieces, to);
    }
  }

  lemma EmptyQueueFinished(nodes: seq<Node>, live: seq<int>, v: Vocab)
    requires State(nodes, live, v, [])
    ensures Finished(v, Pieces(nodes, live))
  {
    var pieces := Pieces(nodes, live);
    assert forall j | 0 <= j < |live| :: pieces[j] == nodes[live[j]].runes;
    forall j: nat, rank
      ensures !Joins(v, pieces, j, rank)
    {
      if j + 1 < |pieces| {
        RankJoins(v, pieces, j);
        NoneQueued(nodes, live, TokenRank(v), j);
      }
    }
  }

  /** A pair that an empty queue represents is not wanted. */
  lemma NoneQueued(nodes: seq<Node>, live: seq<int>, want: Eval<int>, j: nat)
    requires Linked(nodes, live) && j + 1 < |live| && AllQueued(nodes, live, want, [])
    ensures want(nodes[live[j]].runes, nodes[live[j + 1]].runes).None?
  {
    assert Queued(nodes, live, want, [], j);
  }

  ghost predicate QueuedBelow(nodes: seq<Node>, live: seq<int>, v: Vocab, q: seq<Pair>, n: int)
    requires Linked(nodes, live)
  {
    && AllHonest(nodes, Rank(v), AsCandidates(q))
    && AllSpelled(nodes, q)
    && PairsQueued(nodes, live, TokenRank(v), AsCandidates(q), n)
  }

  lemma QueueNext(nodes: seq<Node>, live: seq<int>, v: Vocab, q: seq<Pair>, i: nat)
    requires Linked(nodes, live) && i + 1 < |live| && QueuedBelow(nodes, live, v, q, i)
    ensures QueuedBelow(nodes, live, v, Push(q, Pairwise(nodes, v, live[i], live[i + 1])), i + 1)
  {
    var cs := AsCandidates(q);
    PushAsCandidates(nodes, v, q, live[i], live[i + 1]);
    PushSpelled(nodes, v, q, live[i], live[i + 1]);
    PairsQueuedNext(nodes, live, Rank(v), TokenRank(v), cs, i);
  }

  /** Queues every adjacent pair of the fresh list that has a merge rule. */
  method InitialQueue(v: Vocab, nodes: seq<Node>, ghost live: seq<int>) returns (q: seq<Pair>)
    requires Linked(nodes, live) && Listed(nodes, live) && live == Indices(|nodes|)
    ensures State(nodes, live, v, q)
  {
    q := [];
    var i := 0;
    NothingQueued(nodes, live, v);
    while i < |nodes| - 1
      invariant 0 <= i <= Max(0, |nodes| - 1)
      invariant QueuedBelow(nodes, live, v, q, i)
    {
      QueueNext(nodes, live, v, q, i);
      NodeAt(nodes, live, i);
      q := Push(q, Pairwise(nodes, v, i, i + 1));
      i := i + 1;
    }
    AllPairsQueued(nodes, live, v, q, i);
  }

  lemma NothingQueued(nodes: seq<Node>, live: seq<int>, v: Vocab)
    requires Linked(nodes, live)
    ensures QueuedBelow(nodes, live, v, [], 0)
  {
  }

  lemma AllPairsQueued(nodes: seq<Node>, live: seq<int>, v: Vocab, q: seq<Pair>, n: int)
    requires Linked(nodes, live) && Listed(nodes, live) && QueuedBelow(nodes, live, v, q, n) && n >= |live| - 1
    ensures State(nodes, live, v, q)
  {
    PairsQueuedAll(nodes, live, Rank(v), TokenRank(v), AsCandidates(q), n);
  }

  /** Discards the front pair: it is stale, or what it spells is not a token. */
  lemma DiscardPair(nodes: seq<Node>, live: seq<int>, v: Vocab, q: seq<Pair>, at: nat)
    requires State(nodes, live, v, q) && at < |q|
    requires Fresh(nodes, AsCandidate(q[at])) ==> v.Encode(q[at].value) < 0
    ensures State(nodes, live, v, q[..at] + q[at + 1..])
  {
    var rest := q[..at] + q[at + 1..];
    if Fresh(nodes, AsCandidate(q[at])) {
      FreshRank(nodes, live, v, q, at);
    }
    Discard(nodes, live, Rank(v), TokenRank(v), AsCandidates(q), at);
    AsCandidatesWithout(q, at);
    assert forall i | 0 <= i < |rest| :: rest[i] == q[if i < at then i else i + 1];
  }

  /** Merges the pair at the front of the queue and queues its two new neighbours. */
  method TakePair(v: Vocab, merges: array<Node>, q: seq<Pair>, at: nat, ghost live: seq<int>,
                  ghost first: seq<seq<char>>)
    returns (q': seq<Pair>, ghost rest: seq<int>)
    requires State(merges[..], live, v, q) && Front(q, at) && Fresh(merges[..], AsCandidate(q[at]))
    requires v.Encode(q[at].value) >= 0 && Leads(v, first, Pieces(merges[..], live))
    modifies merges
    ensures State(merges[..], rest, v, q') && |rest| == |live| - 1
    ensures Leads(v, first, Pieces(merges[..], rest))
  {
    var pair := q[at];
    ghost var k := TakeFront(merges[..], live, v, q, at);
    LeadsOn(v, first, Pieces(merges[..], live), k);
    MergeInPlace(merges, pair.a, pair.b);
    var merged := merges[pair.a];
    q' := q[..at] + q[at + 1..];
    q' := Push(q', Pairwise(merges[..], v, merged.p, pair.a));
    q' := Push(q', Pairwise(merges[..], v, pair.a, merged.n));
    rest := Without(live, k + 1);
  }

  /** Whether both pieces are there and still spell the queued text. */
  method IsFresh(v: Vocab, nodes: seq<Node>, q: seq<Pair>, at: nat, ghost live: seq<int>) returns (current: bool)
    requires State(nodes, live, v, q) && at < |q|
    ensures current <==> Fresh(nodes, AsCandidate(q[at]))
  {
    var pair := q[at];
    assert Honest(nodes, Rank(v), AsCandidates(q)[at]);
    var left, right := nodes[pair.a], nodes[pair.b];
    current := |left.runes| != 0 && |right.runes| != 0 && left.runes + right.runes == pair.value;
    ByteLenConcat(left.runes, right.runes);
    assert Spelled(nodes, pair);
  }

  /** The merge loop ends, and every merge it makes is one of lowest rank among the pairs that form a token. */
  method MergePieces(v: Vocab, runes: seq<char>) returns (pieces: seq<seq<char>>)
    ensures Reaches(v, Singles(runes), pieces)
  {
    var merges := new Node[|runes|](i requires 0 <= i < |runes| => Node(i - 1, i + 1, [runes[i]]));
    ghost var live := Indices(|runes|);
    assert merges[..] == Chain(runes);
    ChainLinked(runes);
    var q := InitialQueue(v, merges[..], live);
    while q != []
      invariant State(merges[..], live, v, q)
      invariant Leads(v, Singles(runes), Pieces(merges[..], live))
      decreases |live|, |q|
    {
      var at := Pop(q);
      var current := IsFresh(v, merges[..], q, at, live);
      if !current || v.Encode(q[at].value) < 0 {
        DiscardPair(merges[..], live, v, q, at);
        q := q[..at] + q[at + 1..];
      } else {
        q, live := TakePair(v, merges, q, at, live, Singles(runes));
      }
    }
    EmptyQueueFinished(merges[..], live, v);
    pieces := Collect(merges[..], live);
    assert Reaches(v, pieces, pieces);
  }

  // ----- Byte-level text -----

  /** The printable rune that stands for a byte. */
  function ByteRune(b: Byte): char {
    var r := b as int;
    if r == 0xad then 0x143 as char
    else if r <= 0x20 then (r + 0x100) as char
    else if 0x7f <= r <= 0xa0 then (r + 0xa2) as char
    else r as char
  }

  /** Bytes that are shown as they are. */
  predicate Printable(r: int) {
    0x21 <= r <= 0x7e || 0xa1 <= r <= 0xac || 0xae <= r <= 0xff
  }

  /** The bytes below n that are not. */
  function Unprintable(n: nat): nat {
    if n == 0 then 0 else Unprintable(n - 1) + if Printable(n - 1) then 0 else 1
  }

  /** Printable bytes stand for themselves; the others, in order, for the runes from 0x100 on. */
  lemma ByteRuneTable(b: Byte)
    ensures ByteRune(b) as int == if Printable(b as int) then b as int else 0x100 + Unprintable(b as int)
  {
    UnprintableBelow(b as nat);
  }

  lemma {:induction false} UnprintableBelow(n: nat)
    requires n <= 0x100
    ensures Unprintable(n) == if n <= 0x21 then n else if n <= 0x7e then 0x21 else if n <= 0xa1 then n - 0x5e
                              else if n <= 0xad then 0x43 else 0x44
  {
    if n > 0 {
      UnprintableBelow(n - 1);
    }
  }

  function ByteRunes(bytes: seq<Byte>): (r: seq<char>)
    ensures |r| == |bytes|
  {
    seq(|bytes|, i requires 0 <= i < |bytes| => ByteRune(bytes[i]))
  }

  /** The bytes that a rune of a token stands for. */
  function RuneBytes(c: char): seq<Byte> {
    var r := c as int;
    if r == 0x100 then []
    else if r == 0x143 then [0xad]
    else if 0x100 < r <= 0x120 then [(r - 0x100) as Byte]
    else if 0x120 < r <= 0x142 then [(r - 0xa2) as Byte]
    else if r == 0x2581 then [0x20]
    else if r > 0x143 then Utf8(c)
    else [r as Byte]
  }

  /** Each byte's rune stands for that byte, except that NUL is lost. */
  lemma RuneBytesInverse(b: Byte)
    ensures RuneBytes(ByteRune(b)) == if b == 0 then [] else [b]
  {
  }

  /** What every rune stands for: NUL's for nothing, those up to 0xff for their number, those that stand for a byte for
      it, the mark for spaces for a space, and the others for their UTF-8 bytes. */
  lemma RuneBytesTable(c: char)
    ensures var r := c as int;
            if r == 0x100 then RuneBytes(c) == []
            else if r < 0x100 then RuneBytes(c) == [r as Byte]
            else if r <= 0x143 then exists b: Byte :: ByteRune(b) == c && RuneBytes(c) == [b]
            else if r == 0x2581 then RuneBytes(c) == [0x20]
            else Utf8Value(RuneBytes(c)) == r
  {
    var r := c as int;
    if 0x100 < r <= 0x143 {
      var b := (if r == 0x143 then 0xad else if r <= 0x120 then r - 0x100 else r - 0xa2) as Byte;
      assert ByteRune(b) == c;
    } else if r > 0x143 {
      Utf8Stands(c);
    }
  }

  function RunesBytes(runes: seq<char>): seq<Byte> {
    if runes == [] then [] else RuneBytes(runes[0]) + RunesBytes(runes[1..])
  }

  function WithoutNul(bytes: seq<Byte>): seq<Byte> {
    if bytes == [] then [] else (if bytes[0] == 0 then [] else [bytes[0]]) + WithoutNul(bytes[1..])
  }

  lemma {:induction false} RunesBytesInverse(bytes: seq<Byte>)
    ensures RunesBytes(ByteRunes(bytes)) == WithoutNul(bytes)
  {
    if bytes != [] {
      assert ByteRunes(bytes)[1..] == ByteRunes(bytes[1..]);
      RuneBytesInverse(bytes[0]);
      RunesBytesInverse(bytes[1..]);
    }
  }

  lemma {:induction false} RunesBytesConcat(x: seq<char>, y: seq<char>)
    ensures RunesBytes(x + y) == RunesBytes(x) + RunesBytes(y)
  {
    if x == [] {
      assert x + y == y;
    } else {
      assert (x + y)[1..] == x[1..] + y;
      RunesBytesConcat(x[1..], y);
    }
  }

  /** The texts of the tokens, one after the other. */
  function Texts(v: Vocab, ids: seq<int>): seq<char>
    requires forall i | 0 <= i < |ids| :: 0 <= ids[i] < |v.values|
  {
    if ids == [] then [] else Texts(v, ids[..|ids| - 1]) + v.Decode(ids[|ids| - 1])
  }

  /** The identifiers of the pieces that are tokens, in order; a piece that is no token is dropped. */
  ghost predicate Coded(v: Vocab, pieces: seq<seq<char>>, ids: seq<int>) {
    if pieces == [] then ids == []
    else
      var k, n := |pieces| - 1, |ids| - 1;
      if pieces[k] in v.values then n >= 0 && IsLast(v.values, pieces[k], ids[n]) && Coded(v, pieces[..k], ids[..n])
      else Coded(v, pieces[..k], ids)
  }

  /** The one token of a part, or those of the pieces that merging leaves of it. */
  ghost predicate PartCoded(v: Vocab, part: seq<char>, ids: seq<int>) {
    if part in v.values then |ids| == 1 && IsLast(v.values, part, ids[0])
    else exists pieces :: Reaches(v, Singles(part), pieces) && Coded(v, pieces, ids)
  }

  /** Encodes a part of the text. */
  method EncodePart(v: Vocab, bytes: seq<Byte>) returns (ids: seq<int>)
    ensures forall i | 0 <= i < |ids| :: 0 <= ids[i] < |v.values|
    ensures PartCoded(v, ByteRunes(bytes), ids)
    ensures (forall b: Byte :: v.Encode([ByteRune(b)]) >= 0) ==> Texts(v, ids) == ByteRunes(bytes)
  {
    var normalized := Normalize(bytes);
    var id := v.Encode(normalized);
    v.EncodeFinds(normalized);
    if id >= 0 {
      ids := [id];
      assert ids[..0] == [] && Texts(v, []) == [];
      assert Texts(v, ids) == [] + v.Decode(id);
      return;
    }
    var pieces := MergePieces(v, normalized);
    ids := PieceIds(v, pieces);
    if forall b: Byte :: v.Encode([ByteRune(b)]) >= 0 {
      SinglesTokens(v, bytes);
      ReachesKeeps(v, Singles(normalized), pieces);
      FlattenSingles(normalized);
    }
  }

  lemma SinglesTokens(v: Vocab, bytes: seq<Byte>)
    requires forall b: Byte :: v.Encode([ByteRune(b)]) >= 0
    ensures AllTokens(v, Singles(ByteRunes(bytes)))
  {
    var singles := Singles(ByteRunes(bytes));
    forall k | 0 <= k < |singles|
      ensures v.Encode(singles[k]) >= 0
    {
      assert singles[k] == [ByteRune(bytes[k])];
    }
  }

  method Normalize(bytes: seq<Byte>) returns (r: seq<char>)
    ensures r == ByteRunes(bytes)
  {
    r := [];
    for i := 0 to |bytes|
      invariant r == ByteRunes(bytes)[..i]
    {
      r := r + [ByteRune(bytes[i])];
    }
  }

  lemma TextsNext(v: Vocab, ids: seq<int>, id: int)
    requires 0 <= id < |v.values| && forall i | 0 <= i < |ids| :: 0 <= ids[i] < |v.values|
    ensures (ids + [id])[..|ids|] == ids && Texts(v, ids + [id]) == Texts(v, ids) + v.values[id]
  {
  }

  method PieceIds(v: Vocab, pieces: seq<seq<char>>) returns (ids: seq<int>)
    ensures forall i | 0 <= i < |ids| :: 0 <= ids[i] < |v.values|
    ensures Coded(v, pieces, ids)
    ensures AllTokens(v, pieces) ==> Texts(v, ids) == Flatten(pieces)
  {
    ids := [];
    for i := 0 to |pieces|
      invariant forall k | 0 <= k < |ids| :: 0 <= ids[k] < |v.values|
      invariant Coded(v, pieces[..i], ids)
      invariant AllTokens(v, pieces) ==> Texts(v, ids) == Flatten(pieces[..i])
    {
      assert pieces[..i + 1][..i] == pieces[..i];
      var id := v.Encode(pieces[i]);
      v.EncodeFinds(pieces[i]);
      FlattenNext(pieces, i);
      if id >= 0 {
        TextsNext(v, ids, id);
        ids := ids + [id];
      }
    }
    assert pieces[..|pieces|] == pieces;
  }

  method AppendText(bytes: seq<Byte>, data: seq<char>) returns (r: seq<Byte>)
    ensures r == bytes + RunesBytes(data)
  {
    r := bytes;
    for j := 0 to |data|
      invariant r == bytes + RunesBytes(data[..j])
    {
      AppendNext(bytes, data, j);
      r := r + RuneBytes(data[j]);
    }
    assert data[..|data|] == data;
  }

  lemma AppendNext(bytes: seq<Byte>, data: seq<char>, j: nat)
    requires j < |data|
    ensures bytes + RunesBytes(data[..j + 1]) == bytes + RunesBytes(data[..j]) + RuneBytes(data[j])
  {
    RunesBytesNext(data, j);
    var x, y := RunesBytes(data[..j]), RuneBytes(data[j]);
    assert bytes + (x + y) == bytes + x + y;
  }

  lemma RunesBytesNext(data: seq<char>, j: nat)
    requires j < |data|
    ensures RunesBytes(data[..j + 1]) == RunesBytes(data[..j]) + RuneBytes(data[j])
  {
    assert data[..j + 1] == data[..j] + [data[j]];
    RunesBytesConcat(data[..j], [data[j]]);
    assert [data[j]][1..] == [];
  }

  /** Byte-level decoding: the bytes that the runes of the token texts stand for. */
  method Decode(v: Vocab, ids: seq<int>) returns (bytes: seq<Byte>)
    requires forall i | 0 <= i < |ids| :: 0 <= ids[i] < |v.values|
    ensures bytes == RunesBytes(Texts(v, ids))
  {
    bytes := [];
    for i := 0 to |ids|
      invariant bytes == RunesBytes(Texts(v, ids[..i]))
    {
      var data := v.Decode(ids[i]);
      bytes := AppendText(bytes, data);
      assert ids[..i + 1][..i] == ids[..i];
      RunesBytesConcat(Texts(v, ids[..i]), data);
    }
    assert ids[..|ids|] == ids;
  }

  /** Encoding a part and decoding the tokens gives its bytes back, without NULs, when every byte has a token. */
  method RoundTrip(v: Vocab, part: seq<Byte>) returns (ids: seq<int>, bytes: seq<Byte>)
    requires forall b: Byte :: v.Encode([ByteRune(b)]) >= 0
    ensures bytes == WithoutNul(part)
  {
    ids := EncodePart(v, part);
    bytes := Decode(v, ids);
    RunesBytesInverse(part);
  }
}
