/** What a cache shows that is only appended to: the positions themselves, without the cache that never forgets. */
module CausalAppend {
  import opened Prelude
  import opened KvCells
  import opened Causal
  import opened CausalRuns

  /** The tokens of s among the first n of a batch. */
  function TokensIn(batch: Batch, s: int, n: nat): nat
    requires batch.Valid() && n <= batch.Size()
  {
    if n == 0 then 0 else TokensIn(batch, s, n - 1) + if batch.sequences[n - 1] == s then 1 else 0
  }

  /** The tokens of s that the first k calls have stored. */
  ghost function Stored(run: Run, k: nat, s: int): nat
    requires ValidRun(run) && Batches(run) && k <= |run.events|
  {
    if k == 0 then 0
    else
      var batch := run.events[k - 1].batch;
      Stored(run, k - 1, s) +
      if Fits(run.states[k - 1], batch, run.config.memory) then TokensIn(batch, s, batch.Size()) else 0
  }

  ghost predicate Batches(run: Run) {
    forall k | 0 <= k < |run.events| :: run.events[k].Forward? && run.events[k].batch.Valid()
  }

  /** Only batches, whose tokens have the next positions of their sequences in turn. */
  ghost predicate AppendRun(run: Run) {
    && ValidRun(run) && Batches(run)
    && forall k | 0 <= k < |run.events| :: Appends(run, k)
  }

  ghost predicate Appends(run: Run, k: nat)
    requires ValidRun(run) && Batches(run) && k < |run.events|
  {
    var batch := run.events[k].batch;
    forall t | 0 <= t < batch.Size() ::
      batch.positions[t] == Stored(run, k, batch.sequences[t]) + TokensIn(batch, batch.sequences[t], t)
  }

  /** The positions from first up to end. */
  ghost predicate Spans(ps: set<int>, first: int, end: int) {
    forall q :: q in ps <==> first <= q < end
  }

  lemma {:induction false} TokensGrow(batch: Batch, s: int, m: nat, n: nat)
    requires batch.Valid() && m <= n <= batch.Size()
    ensures TokensIn(batch, s, m) <= TokensIn(batch, s, n)
    ensures m < n && batch.sequences[m] == s ==> TokensIn(batch, s, m) < TokensIn(batch, s, n)
  {
    if m < n {
      TokensGrow(batch, s, m, n - 1);
    }
  }

  /** Every number below the count is the place of one of the tokens. */
  lemma {:induction false} TokenAt(batch: Batch, s: int, n: nat, c: nat) returns (t: nat)
    requires batch.Valid() && n <= batch.Size() && c < TokensIn(batch, s, n)
    ensures t < n && batch.sequences[t] == s && TokensIn(batch, s, t) == c
  {
    if c < TokensIn(batch, s, n - 1) {
      t := TokenAt(batch, s, n - 1, c);
    } else {
      t := n - 1;
    }
  }

  /** After appending a batch at position stored, s continues behind it. */
  ghost predicate AppendsAt(batch: Batch, s: int, stored: nat)
    requires batch.Valid()
  {
    forall t | 0 <= t < batch.Size() :: TokenAppends(batch, s, stored, t)
  }

  ghost predicate TokenAppends(batch: Batch, s: int, stored: nat, t: nat)
    requires batch.Valid() && t < batch.Size()
  {
    batch.sequences[t] == s ==> batch.positions[t] == stored + TokensIn(batch, s, t)
  }

  lemma AppendedPositions(batch: Batch, s: int, stored: nat)
    requires batch.Valid() && AppendsAt(batch, s, stored)
    ensures Spans(BatchPositions(batch, s), stored, stored + TokensIn(batch, s, batch.Size()))
  {
    var n := batch.Size();
    forall q | stored <= q < stored + TokensIn(batch, s, n)
      ensures q in BatchPositions(batch, s)
    {
      var t := TokenAt(batch, s, n, q - stored);
      assert TokenAppends(batch, s, stored, t);
    }
    forall t | 0 <= t < n && batch.sequences[t] == s
      ensures stored <= batch.positions[t] < stored + TokensIn(batch, s, n)
    {
      assert TokenAppends(batch, s, stored, t);
      TokensGrow(batch, s, t, n);
    }
  }

  lemma {:induction false} AppendedNext(batch: Batch, s: int, stored: nat, n: nat)
    requires batch.Valid() && AppendsAt(batch, s, stored) && n <= batch.Size()
    ensures After(batch, s, n, stored) == stored + TokensIn(batch, s, n)
  {
    if n > 0 {
      AppendedNext(batch, s, stored, n - 1);
      assert TokenAppends(batch, s, stored, n - 1);
      AfterOne(batch, s, stored, n - 1);
    }
  }

  lemma AfterOne(batch: Batch, s: int, stored: nat, t: nat)
    requires batch.Valid() && t < batch.Size() && After(batch, s, t, stored) == stored + TokensIn(batch, s, t)
    requires TokenAppends(batch, s, stored, t)
    ensures After(batch, s, t + 1, stored) == stored + TokensIn(batch, s, t + 1)
  {
  }

  lemma AppendedLowest(batch: Batch, s: int, stored: nat)
    requires batch.Valid() && AppendsAt(batch, s, stored) && batch.Lowest(s).Some?
    ensures batch.Lowest(s).value == stored
  {
    batch.LowestInMeaning(s, batch.Size());
    var t :| 0 <= t < batch.Size() && batch.sequences[t] == s;
    TokensGrow(batch, s, t, batch.Size());
    var first := TokenAt(batch, s, batch.Size(), 0);
    assert TokenAppends(batch, s, stored, first);
    forall i | 0 <= i < batch.Size() && batch.sequences[i] == s
      ensures batch.positions[i] >= stored
    {
      assert TokenAppends(batch, s, stored, i);
    }
  }

  lemma AppendedApart(run: Run, k: nat, i: nat, j: nat)
    requires AppendRun(run) && k < |run.events| && i < j < run.events[k].batch.Size()
    requires run.events[k].batch.sequences[i] == run.events[k].batch.sequences[j]
    ensures run.events[k].batch.positions[i] != run.events[k].batch.positions[j]
  {
    assert Appends(run, k);
    TokensGrow(run.events[k].batch, run.events[k].batch.sequences[i], i, j);
  }

  /** What a cache that never forgets holds after k calls, and where each sequence goes on. */
  lemma {:induction false} AppendHeld(run: Run, k: nat, s: int)
    requires AppendRun(run) && k <= |run.events|
    ensures HeldAt(run, k, s)
  {
    if k > 0 {
      AppendHeld(run, k - 1, s);
      AppendedHeld(run, k - 1, s);
    } else {
      HeldAtStart(run, s);
    }
  }

  lemma HeldAtStart(run: Run, s: int)
    requires AppendRun(run)
    ensures HeldAt(run, 0, s)
  {
  }

  ghost predicate HeldAt(run: Run, k: nat, s: int)
    requires ValidRun(run) && Batches(run) && k <= |run.events|
  {
    && Spans(Held(run, k, s), 0, Stored(run, k, s)) && NextPos(run, k, s) == Stored(run, k, s) && Ready(run, k, s)
  }

  lemma AppendedHeld(run: Run, k: nat, s: int)
    requires AppendRun(run) && k < |run.events| && HeldAt(run, k, s)
    ensures HeldAt(run, k + 1, s)
  {
    var batch, stored := run.events[k].batch, Stored(run, k, s);
    assert Appends(run, k);
    assert Step(run.config, run.states[k], run.events[k], run.states[k + 1]);
    AppendedPositions(batch, s, stored);
    AppendedNext(batch, s, stored, batch.Size());
    if Fits(run.states[k], batch, run.config.memory) {
      assert Held(run, k + 1, s) == Held(run, k, s) + BatchPositions(batch, s);
      assert NextPos(run, k + 1, s) == After(batch, s, batch.Size(), stored);
    } else {
      assert Held(run, k + 1, s) == Held(run, k, s);
    }
  }

  lemma AppendLegal(run: Run)
    requires AppendRun(run)
    ensures LegalRun(run)
  {
    forall k | 0 <= k < |run.events|
      ensures LegalBatch(run, k, run.events[k].batch)
    {
      var batch := run.events[k].batch;
      forall s: int | batch.Lowest(s).Some?
        ensures Ready(run, k, s) && batch.Lowest(s).value == NextPos(run, k, s)
      {
        AppendHeld(run, k, s);
        assert Appends(run, k);
        AppendedLowest(batch, s, Stored(run, k, s));
      }
      forall i, j | 0 <= i < j < batch.Size() && batch.sequences[i] == batch.sequences[j]
        ensures batch.positions[i] != batch.positions[j]
      {
        AppendedApart(run, k, i, j);
      }
    }
  }

  /** The positions that the cells attended to hold. */
  ghost function Seen(cells: seq<Cell>, s: int, p: int, causal: bool, chunkSize: int, window: int): set<int> {
    set j | 0 <= j < |cells| && Attends(cells[j], s, p, causal, chunkSize, window) :: cells[j].pos
  }

  /** The first position shown to a token at p: the start of its window or of its chunk, whichever is later. */
  function FirstSeen(p: int, chunkSize: int, window: int): int {
    Max(Max(0, p - window), if chunkSize > 0 then p - p % chunkSize else 0)
  }

  /** In every run that only appends, each token of a stored batch is shown exactly the positions from the start of its
      window or chunk to its own, or to the end of the sequence if it is excepted from causality. A cache without
      window and chunk shows it everything up to its own. */
  lemma AppendShows(run: Run, k: nat, t: nat, causal: bool)
    requires AppendRun(run) && k < |run.events|
    requires t < run.events[k].batch.Size() && Fits(run.states[k], run.events[k].batch, run.config.memory)
    ensures var (config, batch, cells) := (run.config, run.events[k].batch, run.states[k + 1]);
            var (s, p) := (batch.sequences[t], batch.positions[t]);
            var end := if causal then p + 1 else Stored(run, k + 1, s);
            var seen := Seen(cells, s, p, causal, config.chunkSize, config.window);
            && Spans(seen, FirstSeen(p, config.chunkSize, config.window), end)
            && (causal && config.window == MAX_INT32 && config.chunkSize <= 0 ==> Spans(seen, 0, p + 1))
  {
    var config, batch, cells := run.config, run.events[k].batch, run.states[k + 1];
    var s, p := batch.sequences[t], batch.positions[t];
    AppendLegal(run);
    WindowRefinesUnbounded(run, k, t, causal);
    AppendHeld(run, k + 1, s);
    assert Appends(run, k);
    TokensGrow(batch, s, t, batch.Size());
  }
}
