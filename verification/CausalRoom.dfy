/** A windowed cache of the size Init gives it never runs out of room. */
module CausalRoom {
  import opened Prelude
  import opened KvCells
  import opened KvLayout
  import opened Causal
  import opened CausalRuns

  // ----- Counting occupied cells -----

  /** The locations held by a sequence of ss. */
  function HeldBy(cells: seq<Cell>, ss: set<int>): set<int> {
    set i | 0 <= i < |cells| && cells[i].sequences * ss != {}
  }

  lemma {:induction false} FreeCountIsRest(cells: seq<Cell>, ss: set<int>)
    requires forall i | 0 <= i < |cells| :: cells[i].sequences <= ss
    ensures FreeCount(cells) + |HeldBy(cells, ss)| == |cells|
  {
    if cells == [] {
      assert HeldBy(cells, ss) == {};
    } else {
      var n := |cells| - 1;
      var shorter := cells[..n];
      FreeCountIsRest(shorter, ss);
      assert cells[n].sequences * ss == cells[n].sequences;
      if cells[n].Free() {
        assert HeldBy(cells, ss) == HeldBy(shorter, ss);
      } else {
        assert HeldBy(cells, ss) == HeldBy(shorter, ss) + {n};
      }
    }
  }

  /** Distinct locations with distinct positions in a window of m positions: at most m of them. */
  lemma {:induction false} WindowHolds(cells: seq<Cell>, at: set<int>, low: int, m: nat)
    requires forall i | i in at :: 0 <= i < |cells| && low <= cells[i].pos < low + m
    requires forall i, j | i in at && j in at && i != j :: cells[i].pos != cells[j].pos
    ensures |at| <= m
  {
    if m == 0 {
      assert forall i :: i !in at;
      assert at == {};
    } else if i :| i in at && cells[i].pos == low + m - 1 {
      WindowHolds(cells, at - {i}, low, m - 1);
    } else {
      WindowHolds(cells, at, low, m - 1);
    }
  }

  lemma SequenceHolds(cells: seq<Cell>, s: int, low: int, m: nat)
    requires OneCellPerPosition(cells)
    requires forall p | p in Positions(cells, s) :: low <= p < low + m
    ensures |HeldBy(cells, {s})| <= m
  {
    var at := HeldBy(cells, {s});
    forall i | i in at
      ensures cells[i].Holds(s) && low <= cells[i].pos < low + m
    {
      assert cells[i].Holds(s);
      assert cells[i].pos in Positions(cells, s);
    }
    forall i, j | i in at && j in at && i != j
      ensures cells[i].pos != cells[j].pos
    {
      assert cells[Min(i, j)].Holds(s) && cells[Max(i, j)].Holds(s);
    }
    WindowHolds(cells, at, low, m);
  }

  lemma TimesNext(n: nat, m: nat)
    ensures (n + 1) * m == n * m + m
  {
  }

  lemma TimesGrows(n: nat, k: nat, m: nat)
    requires n <= k
    ensures n * m <= k * m
  {
    assert k * m - n * m == (k - n) * m;
  }

  lemma {:induction false} SequencesHold(cells: seq<Cell>, ss: set<int>, m: nat)
    requires forall s | s in ss :: |HeldBy(cells, {s})| <= m
    ensures |HeldBy(cells, ss)| <= |ss| * m
  {
    if ss == {} {
      assert HeldBy(cells, ss) == {};
    } else {
      var s := SomeMember(ss);
      var rest := ss - {s};
      SequencesHold(cells, rest, m);
      HeldByMore(cells, rest, s);
      assert rest + {s} == ss;
      TimesNext(|rest|, m);
    }
  }

  lemma HeldByMore(cells: seq<Cell>, rest: set<int>, s: int)
    ensures |HeldBy(cells, rest + {s})| <= |HeldBy(cells, rest)| + |HeldBy(cells, {s})|
  {
    var all, one := HeldBy(cells, rest) + HeldBy(cells, {s}), HeldBy(cells, {s});
    assert HeldBy(cells, rest + {s}) <= all;
    SubsetSize(HeldBy(cells, rest + {s}), all);
  }

  lemma SomeMember(ss: set<int>) returns (s: int)
    requires ss != {}
    ensures s in ss
  {
    assert (forall t :: t !in ss) ==> ss == {};
    s :| s in ss;
  }

  // ----- Eviction leaves room -----

  /** After eviction every sequence holds at most memory positions, whether the batch touches it or not. */
  lemma EvictedWindow(cells: seq<Cell>, batch: Batch, memory: int, s: int)
    requires batch.Valid() && 1 <= memory < MAX_INT32 && NonNegative(cells) && Ahead(cells, batch)
    ensures forall p | p in Positions(Evict(cells, batch, memory), s) ::
      var low := LowestNeeded(cells, batch, s) - memory; low <= p < low + memory
  {
    EvictPositions(cells, batch, memory, s);
    batch.LowestInMeaning(s, batch.Size());
    LastPosMeaning(cells, s, |cells|);
  }

  lemma EvictedHolds(cells: seq<Cell>, batch: Batch, memory: int, s: int)
    requires batch.Valid() && 1 <= memory < MAX_INT32 && CellsInv(cells) && Ahead(cells, batch)
    ensures |HeldBy(Evict(cells, batch, memory), {s})| <= memory
  {
    var kept := Evict(cells, batch, memory);
    FewerHoldersOneCell(cells, kept);
    EvictedWindow(cells, batch, memory, s);
    SequenceHolds(kept, s, LowestNeeded(cells, batch, s) - memory, memory);
  }

  lemma EvictionLeavesRoom(cells: seq<Cell>, batch: Batch, memory: int, ss: set<int>, maxSequences: nat, maxBatch: nat)
    requires batch.Valid() && 1 <= memory < MAX_INT32 && CellsInv(cells) && Ahead(cells, batch)
    requires forall i | 0 <= i < |cells| :: cells[i].sequences <= ss
    requires |ss| <= maxSequences && |cells| >= maxSequences * memory + maxBatch
    ensures FreeCount(Evict(cells, batch, memory)) >= maxBatch
  {
    var kept := Evict(cells, batch, memory);
    forall s | s in ss
      ensures |HeldBy(kept, {s})| <= memory
    {
      EvictedHolds(cells, batch, memory, s);
    }
    SequencesHold(kept, ss, memory);
    FreeCountIsRest(kept, ss);
    TimesGrows(|ss|, maxSequences, memory);
  }

  // ----- Over whole runs -----

  predicate EventWithin(e: Event, ss: set<int>, maxBatch: nat) {
    match e
    case Forward(batch) => batch.Size() <= maxBatch && forall i | 0 <= i < |batch.sequences| :: batch.sequences[i] in ss
    case Share(src, dst, len) => dst in ss
    case Rollback(s, pos) => true
    case Excise(s, begin, end) => true
  }

  ghost predicate RunWithin(run: Run, ss: set<int>, maxBatch: nat) {
    forall k | 0 <= k < |run.events| :: EventWithin(run.events[k], ss, maxBatch)
  }

  ghost predicate OnlyHolds(cells: seq<Cell>, ss: set<int>) {
    forall i | 0 <= i < |cells| :: cells[i].sequences <= ss
  }

  lemma StepOnlyHolds(config: Config, before: seq<Cell>, e: Event, after: seq<Cell>, ss: set<int>, maxBatch: nat)
    requires Step(config, before, e, after) && EventWithin(e, ss, maxBatch) && OnlyHolds(before, ss)
    ensures |after| == |before| && OnlyHolds(after, ss)
  {
    match e
    case Forward(batch) =>
      var loc :| Forwarded(before, batch, config.memory, Fits(before, batch, config.memory), loc, after);
      var kept := Evict(before, batch, config.memory);
      var placed := Placed(kept, batch.Size());
      assert OnlyHolds(kept, ss);
      PlacedKeeps(kept, batch.Size());
      forall i | 0 <= i < |placed|
        ensures placed[i].sequences <= ss
      {
        if !placed[i].Free() {
          var j := SameOccupiedFind(placed, kept, i);
        }
      }
      if Fits(before, batch, config.memory) {
        forall i | 0 <= i < |after|
          ensures after[i].sequences <= ss
        {
          WrittenAt(placed, loc, batch, i);
        }
      }
    case Share(src, dst, len) =>
    case Rollback(s, pos) =>
    case Excise(s, begin, end) =>
  }

  lemma {:induction false} RunOnlyHolds(run: Run, k: nat, ss: set<int>, maxBatch: nat)
    requires ValidRun(run) && k <= |run.events| && RunWithin(run, ss, maxBatch)
    ensures |run.states[k]| == |run.states[0]| && OnlyHolds(run.states[k], ss)
  {
    if k > 0 {
      RunOnlyHolds(run, k - 1, ss, maxBatch);
      StepOnlyHolds(run.config, run.states[k - 1], run.events[k - 1], run.states[k], ss, maxBatch);
    }
  }

  /** No false "cache full": in a windowed cache with room for maxSequences windows and one batch, used
      by at most maxSequences sequences that only append, share prefixes, roll back and cut out positions, no
      batch of up to maxBatch tokens is ever refused. */
  lemma NeverFull(run: Run, k: nat, ss: set<int>, maxSequences: nat, maxBatch: nat)
    requires LegalRun(run) && run.config.memory < MAX_INT32
    requires RunWithin(run, ss, maxBatch) && |ss| <= maxSequences && maxBatch >= 1
    requires |run.states[0]| >= maxSequences * run.config.memory + maxBatch
    requires k < |run.events| && run.events[k].Forward?
    ensures Fits(run.states[k], run.events[k].batch, run.config.memory)
  {
    var batch, cells := run.events[k].batch, run.states[k];
    RunInv(run, k);
    RunOnlyHolds(run, k, ss, maxBatch);
    assert EventWithin(run.events[k], ss, maxBatch);
    RunAhead(run, k);
    EvictionLeavesRoom(cells, batch, run.config.memory, ss, maxSequences, maxBatch);
  }
}
