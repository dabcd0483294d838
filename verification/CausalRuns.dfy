/** Whole runs of the causal cache against a cache that never forgets. */
module CausalRuns {
  import opened Prelude
  import opened KvCells
  import opened KvLayout
  import opened Causal

  datatype Config = Config(window: int, memory: int, chunkSize: int) {
    predicate Valid() {
      1 <= window <= memory <= MAX_INT32
    }
  }

  /** Calls on the cache. Rollback is Remove with an open end; Excise is one that cuts out the middle and succeeds. */
  datatype Event =
    | Forward(batch: Batch)
    | Share(src: int, dst: int, len: int)
    | Rollback(s: int, pos: int)
    | Excise(s: int, begin: int, end: int)

  /** Calls and the cell arrays before, between and after them. */
  datatype Run = Run(config: Config, events: seq<Event>, states: seq<seq<Cell>>)

  /** What the methods of the cache promise of one call. */
  ghost predicate Step(config: Config, before: seq<Cell>, e: Event, after: seq<Cell>) {
    match e
    case Forward(batch) =>
      batch.Valid() && exists loc ::
        Forwarded(before, batch, config.memory, Fits(before, batch, config.memory), loc, after)
    case Share(src, dst, len) => after == SharedAll(before, src, dst, len)
    case Rollback(s, pos) => 0 <= pos < MAX_INT32 && after == RemovedAll(before, s, pos, MAX_INT32)
    case Excise(s, begin, end) =>
      0 <= begin <= end < MAX_INT32 && !SharedTail(before, s, end) && after == RemovedAll(before, s, begin, end)
  }

  ghost predicate ValidRun(run: Run) {
    && run.config.Valid()
    && |run.states| == |run.events| + 1
    && (forall i | 0 <= i < |run.states[0]| :: run.states[0][i] == EMPTY_CELL)
    && forall k | 0 <= k < |run.events| :: Step(run.config, run.states[k], run.events[k], run.states[k + 1])
  }

  // ----- The cache that never forgets -----

  function BatchPositions(batch: Batch, s: int): set<int>
    requires batch.Valid()
  {
    set i | 0 <= i < batch.Size() && batch.sequences[i] == s :: batch.positions[i]
  }

  function Below(ps: set<int>, n: int): set<int> {
    set p | p in ps && p < n
  }

  /** The positions s holds after k calls when nothing is ever evicted. */
  ghost function Held(run: Run, k: nat, s: int): set<int>
    requires ValidRun(run) && k <= |run.events|
  {
    if k == 0 then {}
    else
      var e := run.events[k - 1];
      assert Step(run.config, run.states[k - 1], e, run.states[k]);
      match e
      case Forward(batch) =>
        if Fits(run.states[k - 1], batch, run.config.memory) then Held(run, k - 1, s) + BatchPositions(batch, s)
        else Held(run, k - 1, s)
      case Share(src, dst, len) =>
        if s != dst then Held(run, k - 1, s)
        else if src == dst then {}
        else Below(Held(run, k - 1, src), len)
      case Rollback(t, pos) =>
        if s != t then Held(run, k - 1, s) else Below(Held(run, k - 1, s), pos)
      case Excise(t, begin, end) =>
        if s != t then Held(run, k - 1, s) else Closed(Held(run, k - 1, s), begin, end)
  }

  /** The positions left when [begin, end) is cut out and the tail moves down. */
  function Closed(ps: set<int>, begin: int, end: int): set<int> {
    set p | p in ps && !(begin <= p < end) :: if p >= end then p + begin - end else p
  }

  /** Where a sequence continues after the cut. */
  function ClosedNext(next: int, begin: int, end: int): int {
    if next < begin then next else if next < end then begin else next + begin - end
  }

  /** No position that slides back into the window has been evicted. */
  ghost predicate WindowKept(config: Config, held: set<int>, kept: set<int>, begin: int, next: int) {
    forall q | q in held && next - config.window <= q < begin :: q in kept
  }

  /** One more than the largest of floor - 1 and the positions of s among the first n tokens. */
  function After(batch: Batch, s: int, n: nat, floor: int): int
    requires batch.Valid() && n <= batch.Size()
  {
    if n == 0 then floor
    else if batch.sequences[n - 1] == s then Max(After(batch, s, n - 1, floor), batch.positions[n - 1] + 1)
    else After(batch, s, n - 1, floor)
  }

  /** The position at which s continues after k calls. */
  ghost function NextPos(run: Run, k: nat, s: int): int
    requires ValidRun(run) && k <= |run.events|
  {
    if k == 0 then 0
    else
      var e := run.events[k - 1];
      assert Step(run.config, run.states[k - 1], e, run.states[k]);
      match e
      case Forward(batch) =>
        if Fits(run.states[k - 1], batch, run.config.memory) then After(batch, s, batch.Size(), NextPos(run, k - 1, s))
        else NextPos(run, k - 1, s)
      case Share(src, dst, len) => if s == dst then len else NextPos(run, k - 1, s)
      case Rollback(t, pos) => if s == t then pos else NextPos(run, k - 1, s)
      case Excise(t, begin, end) =>
        if s == t then ClosedNext(NextPos(run, k - 1, s), begin, end) else NextPos(run, k - 1, s)
  }

  /** Whether s may be continued: a shared prefix has to be rolled back first, a rollback counts only to the
      start or to where CanResume said yes, and a cut must not bring evicted positions into the window. */
  ghost predicate Ready(run: Run, k: nat, s: int)
    requires ValidRun(run) && k <= |run.events|
  {
    k == 0 ||
    match run.events[k - 1]
    case Forward(_) => Ready(run, k - 1, s)
    case Share(_, dst, _) => s != dst && Ready(run, k - 1, s)
    case Rollback(t, pos) =>
      if s == t then pos == 0 || Resumable(run.states[k - 1], run.config.window, run.config.memory, s, pos)
      else Ready(run, k - 1, s)
    case Excise(t, begin, end) =>
      && Ready(run, k - 1, s)
      && (s == t ==> WindowKept(run.config, Held(run, k - 1, s), Positions(run.states[k - 1], s), begin,
                                ClosedNext(NextPos(run, k - 1, s), begin, end)))
  }

  ghost predicate LegalBatch(run: Run, k: nat, batch: Batch)
    requires ValidRun(run) && k <= |run.events| && batch.Valid()
  {
    && (forall s: int | batch.Lowest(s).Some? :: Ready(run, k, s) && batch.Lowest(s).value == NextPos(run, k, s))
    && (forall i, j | 0 <= i < j < batch.Size() && batch.sequences[i] == batch.sequences[j] ::
          batch.positions[i] != batch.positions[j])
  }

  /** Batches only append, at the next position, to sequences that are ready. */
  ghost predicate LegalRun(run: Run) {
    && ValidRun(run)
    && forall k | 0 <= k < |run.events| && run.events[k].Forward? ::
         run.events[k].batch.Valid() && LegalBatch(run, k, run.events[k].batch)
  }

  // ----- What each call does to the positions of a sequence -----

  lemma EvictPositions(cells: seq<Cell>, batch: Batch, memory: int, s: int)
    requires batch.Valid() && memory != MAX_INT32
    ensures Positions(Evict(cells, batch, memory), s) ==
            set p | p in Positions(cells, s) && p >= LowestNeeded(cells, batch, s) - memory
  {
    var kept := Evict(cells, batch, memory);
    forall p | p in Positions(cells, s) && p >= LowestNeeded(cells, batch, s) - memory
      ensures p in Positions(kept, s)
    {
      var i :| 0 <= i < |cells| && cells[i].Holds(s) && cells[i].pos == p;
      assert kept[i].Holds(s);
    }
    forall p | p in Positions(kept, s)
      ensures p in Positions(cells, s) && p >= LowestNeeded(cells, batch, s) - memory
    {
      var i :| 0 <= i < |kept| && kept[i].Holds(s) && kept[i].pos == p;
      assert cells[i].Holds(s);
    }
  }

  lemma WritePositions(cells: seq<Cell>, loc: nat, batch: Batch, s: int)
    requires batch.Valid() && FreeBlock(cells, loc, batch.Size())
    ensures Positions(WriteAt(cells, loc, BatchCells(batch)), s) == Positions(cells, s) + BatchPositions(batch, s)
  {
    var after := WriteAt(cells, loc, BatchCells(batch));
    forall p | p in Positions(cells, s)
      ensures p in Positions(after, s)
    {
      var i :| 0 <= i < |cells| && cells[i].Holds(s) && cells[i].pos == p;
      assert after[i] == cells[i];
    }
    forall p | p in BatchPositions(batch, s)
      ensures p in Positions(after, s)
    {
      var t :| 0 <= t < batch.Size() && batch.sequences[t] == s && batch.positions[t] == p;
      assert after[loc + t] == BatchCells(batch)[t];
      assert after[loc + t].Holds(s) && after[loc + t].pos == p;
    }
    forall p | p in Positions(after, s)
      ensures p in Positions(cells, s) || p in BatchPositions(batch, s)
    {
      var i :| 0 <= i < |after| && after[i].Holds(s) && after[i].pos == p;
      if loc <= i < loc + batch.Size() {
        assert after[i] == BatchCells(batch)[i - loc];
      } else {
        assert after[i] == cells[i];
      }
    }
  }

  lemma ForwardPositions(config: Config, before: seq<Cell>, batch: Batch, after: seq<Cell>, s: int)
    requires batch.Valid() && Step(config, before, Forward(batch), after)
    ensures Positions(after, s) == Positions(Evict(before, batch, config.memory), s) +
                                   if Fits(before, batch, config.memory) then BatchPositions(batch, s) else {}
  {
    var kept := Evict(before, batch, config.memory);
    var loc :| Forwarded(before, batch, config.memory, Fits(before, batch, config.memory), loc, after);
    var placed := Placed(kept, batch.Size());
    PlacedKeeps(kept, batch.Size());
    SameOccupiedSamePositions(kept, placed, s);
    if Fits(before, batch, config.memory) {
      WritePositions(placed, loc, batch, s);
    }
  }

  lemma SharePositions(cells: seq<Cell>, src: int, dst: int, len: int, s: int)
    ensures Positions(SharedAll(cells, src, dst, len), s) ==
            if s != dst then Positions(cells, s)
            else if src == dst then {} else Below(Positions(cells, src), len)
  {
    var after := SharedAll(cells, src, dst, len);
    assert forall i | 0 <= i < |cells| :: after[i].pos == cells[i].pos;
    assert forall i | 0 <= i < |cells| :: after[i].Holds(s) <==>
      if s != dst then cells[i].Holds(s) else src != dst && cells[i].Holds(src) && cells[i].pos < len;
  }

  lemma RollbackPositions(cells: seq<Cell>, t: int, pos: int, s: int)
    requires NonNegative(cells) && 0 <= pos < MAX_INT32
    ensures Positions(RemovedAll(cells, t, pos, MAX_INT32), s) ==
            if s != t then Positions(cells, s) else Below(Positions(cells, s), pos)
  {
    var after := RemovedAll(cells, t, pos, MAX_INT32);
    assert forall i | 0 <= i < |cells| :: after[i].pos == cells[i].pos;
    assert forall i | 0 <= i < |cells| :: after[i].Holds(s) <==>
      if s != t then cells[i].Holds(s) else cells[i].Holds(s) && cells[i].pos < pos;
  }

  // ----- One cell per position -----

  lemma SameOccupiedOneCell(a: seq<Cell>, b: seq<Cell>)
    requires SameOccupied(a, b) && OneCellPerPosition(a)
    ensures OneCellPerPosition(b)
  {
    forall i, j, s | 0 <= i < j < |b| && b[i].Holds(s) && b[j].Holds(s)
      ensures b[i].pos != b[j].pos
    {
      if b[i] == b[j] {
        assert multiset(b)[b[i]] >= 2 by { TwiceInMultiset(b, i, j); }
        var x, y := TwiceInSeq(a, b[i]);
        assert false;
      }
      var x := SameOccupiedFind(b, a, i);
      var y := SameOccupiedFind(b, a, j);
    }
  }

  lemma TwiceInMultiset(b: seq<Cell>, i: nat, j: nat)
    requires i < j < |b| && b[i] == b[j]
    ensures multiset(b)[b[i]] >= 2
  {
    assert b == b[..j] + b[j..];
    assert b[i] in b[..j] && b[j] in b[j..];
  }

  lemma TwiceInSeq(a: seq<Cell>, c: Cell) returns (x: nat, y: nat)
    requires multiset(a)[c] >= 2
    ensures x < y < |a| && a[x] == c && a[y] == c
  {
    assert c in a;
    x :| x < |a| && a[x] == c;
    assert a == a[..x] + [c] + a[x + 1..];
    if c in a[..x] {
      var z :| 0 <= z < x && a[..x][z] == c;
      x, y := z, x;
    } else {
      assert c in a[x + 1..];
      var z :| 0 <= z < |a[x + 1..]| && a[x + 1..][z] == c;
      y := x + 1 + z;
    }
  }

  lemma FewerHoldersOneCell(a: seq<Cell>, b: seq<Cell>)
    requires |a| == |b| && OneCellPerPosition(a)
    requires forall i | 0 <= i < |a| :: b[i].pos == a[i].pos && b[i].sequences <= a[i].sequences
    ensures OneCellPerPosition(b)
  {
    forall i, j, s | 0 <= i < j < |b| && b[i].Holds(s) && b[j].Holds(s)
      ensures b[i].pos != b[j].pos
    {
      assert a[i].Holds(s) && a[j].Holds(s);
    }
  }

  lemma ShareOneCell(cells: seq<Cell>, src: int, dst: int, len: int)
    requires OneCellPerPosition(cells)
    ensures OneCellPerPosition(SharedAll(cells, src, dst, len))
  {
    var after := SharedAll(cells, src, dst, len);
    forall i, j, s | 0 <= i < j < |after| && after[i].Holds(s) && after[j].Holds(s)
      ensures after[i].pos != after[j].pos
    {
      var t := if s == dst then src else s;
      assert cells[i].Holds(t) && cells[j].Holds(t);
    }
  }

  lemma WriteOneCell(cells: seq<Cell>, loc: nat, batch: Batch)
    requires batch.Valid() && FreeBlock(cells, loc, batch.Size()) && OneCellPerPosition(cells)
    requires forall i, t | 0 <= i < |cells| && 0 <= t < batch.Size() && cells[i].Holds(batch.sequences[t]) ::
      cells[i].pos < batch.positions[t]
    requires forall i, j | 0 <= i < j < batch.Size() && batch.sequences[i] == batch.sequences[j] ::
      batch.positions[i] != batch.positions[j]
    ensures OneCellPerPosition(WriteAt(cells, loc, BatchCells(batch)))
  {
    var n := batch.Size();
    var after := WriteAt(cells, loc, BatchCells(batch));
    forall i, j, s | 0 <= i < j < |after| && after[i].Holds(s) && after[j].Holds(s)
      ensures after[i].pos != after[j].pos
    {
      WrittenAt(cells, loc, batch, i);
      WrittenAt(cells, loc, batch, j);
    }
  }

  lemma WrittenAt(cells: seq<Cell>, loc: nat, batch: Batch, i: nat)
    requires batch.Valid() && loc + batch.Size() <= |cells| && i < |cells|
    ensures WriteAt(cells, loc, BatchCells(batch))[i] ==
            if loc <= i < loc + batch.Size() then Cell(batch.positions[i - loc], {batch.sequences[i - loc]})
            else cells[i]
  {
  }

  // ----- The invariant of legal runs -----

  /** What s still holds is the upper part of what it would hold had nothing been evicted; while s is
      ready, that part contains the whole attention window before its next position. */
  ghost predicate SeqInv(config: Config, held: set<int>, next: int, ready: bool, kept: set<int>) {
    && kept <= held
    && (forall p, q | p in kept && q in held :: p <= q ==> q in kept)
    && (forall q | q in held :: 0 <= q < next)
    && (ready ==> forall q | q in held :: q >= next - config.window ==> q in kept)
    && (config.memory == MAX_INT32 ==> kept == held)
  }

  ghost predicate CellsInv(cells: seq<Cell>) {
    NonNegative(cells) && OneCellPerPosition(cells)
  }

  ghost predicate Inv(run: Run, k: nat)
    requires ValidRun(run) && k <= |run.events|
  {
    && CellsInv(run.states[k])
    && forall s: int ::
         SeqInv(run.config, Held(run, k, s), NextPos(run, k, s), Ready(run, k, s), Positions(run.states[k], s))
  }

  lemma {:induction false} AfterBounds(batch: Batch, s: int, n: nat, floor: int)
    requires batch.Valid() && n <= batch.Size()
    ensures After(batch, s, n, floor) >= floor
    ensures forall i | 0 <= i < n && batch.sequences[i] == s :: batch.positions[i] < After(batch, s, n, floor)
  {
    if n > 0 {
      AfterBounds(batch, s, n - 1, floor);
    }
  }

  /** Eviction alone keeps the invariant, and what it keeps still contains the window before the
      lowest position of the batch. */
  lemma EvictKeeps(config: Config, cells: seq<Cell>, batch: Batch, s: int, held: set<int>, next: int, ready: bool)
    requires config.Valid() && batch.Valid()
    requires SeqInv(config, held, next, ready, Positions(cells, s))
    requires batch.Lowest(s).Some? ==> ready && batch.Lowest(s).value == next
    ensures SeqInv(config, held, next, ready, Positions(Evict(cells, batch, config.memory), s))
    ensures forall i, q | 0 <= i < batch.Size() && batch.sequences[i] == s && q in held
            && q >= batch.positions[i] - config.window ::
      q in Positions(Evict(cells, batch, config.memory), s)
  {
    if config.memory != MAX_INT32 {
      EvictPositions(cells, batch, config.memory, s);
      batch.LowestInMeaning(s, batch.Size());
      LastPosMeaning(cells, s, |cells|);
      var low := LowestNeeded(cells, batch, s);
      var kept := Positions(cells, s);
      if batch.Lowest(s).None? {
        assert LastPos(cells, s) != 0 ==> LastPos(cells, s) in kept;
        forall q | ready && q in held && q >= next - config.window
          ensures q >= low - config.memory
        {
          assert q in kept;
        }
      }
    }
  }

  lemma ForwardSeqInv(config: Config, cells: seq<Cell>, batch: Batch, after: seq<Cell>, s: int,
                      held: set<int>, next: int, ready: bool)
    requires config.Valid() && batch.Valid() && Step(config, cells, Forward(batch), after)
    requires SeqInv(config, held, next, ready, Positions(cells, s))
    requires batch.Lowest(s).Some? ==> ready && batch.Lowest(s).value == next
    ensures Fits(cells, batch, config.memory) ==>
              SeqInv(config, held + BatchPositions(batch, s), After(batch, s, batch.Size(), next), ready,
                     Positions(after, s))
    ensures !Fits(cells, batch, config.memory) ==> SeqInv(config, held, next, ready, Positions(after, s))
  {
    EvictKeeps(config, cells, batch, s, held, next, ready);
    batch.LowestInMeaning(s, batch.Size());
    ForwardPositions(config, cells, batch, after, s);
    AfterBounds(batch, s, batch.Size(), next);
  }

  /** Every position held now lies below every batch position of the same sequence. */
  ghost predicate Ahead(cells: seq<Cell>, batch: Batch)
    requires batch.Valid()
  {
    forall i, t | 0 <= i < |cells| && 0 <= t < batch.Size() && cells[i].Holds(batch.sequences[t]) ::
      cells[i].pos < batch.positions[t]
  }

  lemma PlacedAhead(cells: seq<Cell>, batch: Batch, memory: int)
    requires batch.Valid() && Ahead(cells, batch) && CellsInv(cells)
    ensures var placed := Placed(Evict(cells, batch, memory), batch.Size());
            CellsInv(placed) && Ahead(placed, batch)
  {
    var kept := Evict(cells, batch, memory);
    var placed := Placed(kept, batch.Size());
    FewerHoldersOneCell(cells, kept);
    PlacedKeeps(kept, batch.Size());
    SameOccupiedOneCell(kept, placed);
    DefragNonNegative(kept, Moves(kept, 0, |kept| - 1));
    forall i, t | 0 <= i < |placed| && 0 <= t < batch.Size() && placed[i].Holds(batch.sequences[t])
      ensures placed[i].pos < batch.positions[t]
    {
      var j := SameOccupiedFind(placed, kept, i);
      assert cells[j].Holds(batch.sequences[t]);
    }
  }

  lemma ForwardCellsInv(config: Config, cells: seq<Cell>, batch: Batch, after: seq<Cell>)
    requires config.Valid() && batch.Valid() && CellsInv(cells) && Ahead(cells, batch)
    requires Step(config, cells, Forward(batch), after)
    requires forall i, j | 0 <= i < j < batch.Size() && batch.sequences[i] == batch.sequences[j] ::
      batch.positions[i] != batch.positions[j]
    ensures CellsInv(after)
  {
    var loc :| Forwarded(cells, batch, config.memory, Fits(cells, batch, config.memory), loc, after);
    PlacedAhead(cells, batch, config.memory);
    var placed := Placed(Evict(cells, batch, config.memory), batch.Size());
    if Fits(cells, batch, config.memory) {
      WriteCellsInv(placed, loc, batch);
    }
  }

  lemma WriteCellsInv(cells: seq<Cell>, loc: nat, batch: Batch)
    requires batch.Valid() && FreeBlock(cells, loc, batch.Size()) && CellsInv(cells) && Ahead(cells, batch)
    requires forall i, j | 0 <= i < j < batch.Size() && batch.sequences[i] == batch.sequences[j] ::
      batch.positions[i] != batch.positions[j]
    ensures CellsInv(WriteAt(cells, loc, BatchCells(batch)))
  {
    WriteOneCell(cells, loc, batch);
    var after := WriteAt(cells, loc, BatchCells(batch));
    forall i | 0 <= i < |after|
      ensures 0 <= after[i].pos < MAX_INT32
    {
      WrittenAt(cells, loc, batch, i);
    }
  }

  lemma RollbackSeqInv(config: Config, cells: seq<Cell>, s: int, pos: int, held: set<int>, next: int, ready: bool)
    requires config.Valid() && NonNegative(cells) && 0 <= pos < MAX_INT32
    requires SeqInv(config, held, next, ready, Positions(cells, s))
    ensures SeqInv(config, Below(held, pos), pos, pos == 0 || Resumable(cells, config.window, config.memory, s, pos),
                   Positions(RemovedAll(cells, s, pos, MAX_INT32), s))
  {
    RollbackPositions(cells, s, pos, s);
  }

  lemma ShareSeqInv(config: Config, cells: seq<Cell>, src: int, dst: int, len: int, held: set<int>, next: int,
                    ready: bool)
    requires SeqInv(config, held, next, ready, Positions(cells, src))
    ensures SeqInv(config, if src == dst then {} else Below(held, len), len, false,
                   Positions(SharedAll(cells, src, dst, len), dst))
  {
    SharePositions(cells, src, dst, len, dst);
  }

  /** A legal batch lies above everything its sequences hold. */
  lemma RunAhead(run: Run, k: nat)
    requires LegalRun(run) && k < |run.events| && Inv(run, k) && run.events[k].Forward?
    ensures Ahead(run.states[k], run.events[k].batch)
  {
    var cells, batch := run.states[k], run.events[k].batch;
    forall i, t | 0 <= i < |cells| && 0 <= t < batch.Size() && cells[i].Holds(batch.sequences[t])
      ensures cells[i].pos < batch.positions[t]
    {
      var s := batch.sequences[t];
      assert cells[i].pos in Positions(cells, s);
      batch.LowestInMeaning(s, batch.Size());
      assert SeqInv(run.config, Held(run, k, s), NextPos(run, k, s), Ready(run, k, s), Positions(cells, s));
    }
  }

  lemma StepInv(run: Run, k: nat)
    requires LegalRun(run) && k < |run.events| && Inv(run, k)
    ensures Inv(run, k + 1)
  {
    var config, cells, after := run.config, run.states[k], run.states[k + 1];
    assert Step(config, cells, run.events[k], after);
    match run.events[k]
    case Forward(batch) =>
      RunAhead(run, k);
      ForwardCellsInv(config, cells, batch, after);
      forall s: int
        ensures SeqInv(config, Held(run, k + 1, s), NextPos(run, k + 1, s), Ready(run, k + 1, s), Positions(after, s))
      {
        ForwardSeqInv(config, cells, batch, after, s, Held(run, k, s), NextPos(run, k, s), Ready(run, k, s));
      }
    case Share(src, dst, len) =>
      ShareOneCell(cells, src, dst, len);
      forall s: int
        ensures SeqInv(config, Held(run, k + 1, s), NextPos(run, k + 1, s), Ready(run, k + 1, s), Positions(after, s))
      {
        if s == dst {
          ShareSeqInv(config, cells, src, dst, len, Held(run, k, src), NextPos(run, k, src), Ready(run, k, src));
        } else {
          SharePositions(cells, src, dst, len, s);
        }
      }
    case Rollback(t, pos) =>
      FewerHoldersOneCell(cells, after);
      forall s: int
        ensures SeqInv(config, Held(run, k + 1, s), NextPos(run, k + 1, s), Ready(run, k + 1, s), Positions(after, s))
      {
        if s == t {
          RollbackSeqInv(config, cells, s, pos, Held(run, k, s), NextPos(run, k, s), Ready(run, k, s));
        } else {
          RollbackPositions(cells, t, pos, s);
        }
      }
    case Excise(t, begin, end) =>
      ExciseCellsInv(cells, t, begin, end);
      forall s: int
        ensures SeqInv(config, Held(run, k + 1, s), NextPos(run, k + 1, s), Ready(run, k + 1, s), Positions(after, s))
      {
        if s == t {
          RemovedPositions(cells, s, begin, end);
          ClosedSeqInv(config, Held(run, k, s), Positions(cells, s), begin, end, NextPos(run, k, s), Ready(run, k, s));
        } else {
          ExciseOthers(cells, t, begin, end, s);
        }
      }
  }

  lemma {:induction false} RunInv(run: Run, k: nat)
    requires LegalRun(run) && k <= |run.events|
    ensures Inv(run, k)
  {
    if k > 0 {
      RunInv(run, k - 1);
      StepInv(run, k - 1);
    } else {
      forall s: int
        ensures Positions(run.states[0], s) == {}
      {
      }
    }
  }

  /** Sliding-window refinement: in every legal run, whatever was evicted, shared, rolled back or cut out
      before, each token of a stored batch is shown exactly the positions that a cache which never
      evicts would show it, and each of them through exactly one cell. */
  lemma WindowRefinesUnbounded(run: Run, k: nat, t: nat, causal: bool)
    requires LegalRun(run) && k < |run.events| && run.events[k].Forward?
    requires t < run.events[k].batch.Size() && Fits(run.states[k], run.events[k].batch, run.config.memory)
    ensures var batch, cells := run.events[k].batch, run.states[k + 1];
            var s, p := batch.sequences[t], batch.positions[t];
            && (set j | 0 <= j < |cells| && Attends(cells[j], s, p, causal, run.config.chunkSize, run.config.window)
                :: cells[j].pos)
               == (set q | q in Held(run, k + 1, s) && Shown(q, p, causal, run.config.chunkSize, run.config.window))
            && forall i, j | 0 <= i < j < |cells| && cells[i].Holds(s) && cells[j].Holds(s) ::
                 cells[i].pos != cells[j].pos
  {
    var config, batch, cells := run.config, run.events[k].batch, run.states[k + 1];
    var s, p := batch.sequences[t], batch.positions[t];
    RunInv(run, k);
    RunInv(run, k + 1);
    assert Step(config, run.states[k], run.events[k], cells);
    batch.LowestInMeaning(s, batch.Size());
    EvictKeeps(config, run.states[k], batch, s, Held(run, k, s), NextPos(run, k, s), Ready(run, k, s));
    ForwardPositions(config, run.states[k], batch, cells, s);
    forall q | q in Held(run, k + 1, s) && Shown(q, p, causal, config.chunkSize, config.window)
      ensures q in set j | 0 <= j < |cells| && Attends(cells[j], s, p, causal, config.chunkSize, config.window)
                     :: cells[j].pos
    {
      assert q in Positions(cells, s);
      var j :| 0 <= j < |cells| && cells[j].Holds(s) && cells[j].pos == q;
      assert Attends(cells[j], s, p, causal, config.chunkSize, config.window);
    }
    forall j | 0 <= j < |cells| && Attends(cells[j], s, p, causal, config.chunkSize, config.window)
      ensures cells[j].pos in Held(run, k + 1, s)
    {
      assert cells[j].pos in Positions(cells, s);
      assert SeqInv(config, Held(run, k + 1, s), NextPos(run, k + 1, s), Ready(run, k + 1, s), Positions(cells, s));
    }
  }

  // ----- Removing from the middle -----

  lemma RemovedPositions(cells: seq<Cell>, s: int, begin: int, end: int)
    requires begin <= end < MAX_INT32
    ensures Positions(RemovedAll(cells, s, begin, end), s) == Closed(Positions(cells, s), begin, end)
  {
    var after := RemovedAll(cells, s, begin, end);
    forall q | q in Positions(after, s)
      ensures q in Closed(Positions(cells, s), begin, end)
    {
      var i :| 0 <= i < |after| && after[i].Holds(s) && after[i].pos == q;
      assert cells[i].pos in Positions(cells, s);
    }
    forall q | q in Closed(Positions(cells, s), begin, end)
      ensures q in Positions(after, s)
    {
      var p :| p in Positions(cells, s) && !(begin <= p < end) && q == if p >= end then p + begin - end else p;
      var i :| 0 <= i < |cells| && cells[i].Holds(s) && cells[i].pos == p;
      assert after[i].Holds(s) && after[i].pos == q;
    }
  }

  lemma ExciseOthers(cells: seq<Cell>, s: int, begin: int, end: int, t: int)
    requires t != s && !SharedTail(cells, s, end)
    ensures Positions(RemovedAll(cells, s, begin, end), t) == Positions(cells, t)
  {
    var after := RemovedAll(cells, s, begin, end);
    forall i | 0 <= i < |cells|
      ensures after[i].Holds(t) <==> cells[i].Holds(t)
      ensures cells[i].Holds(t) ==> after[i].pos == cells[i].pos
    {
      assert cells[i].Holds(s) && cells[i].pos >= end ==> cells[i].sequences == {s};
    }
  }

  /** After the cut every position of a sequence is still in one cell. */
  lemma ExciseCellsInv(cells: seq<Cell>, s: int, begin: int, end: int)
    requires CellsInv(cells) && 0 <= begin <= end < MAX_INT32 && !SharedTail(cells, s, end)
    ensures CellsInv(RemovedAll(cells, s, begin, end))
  {
    var after := RemovedAll(cells, s, begin, end);
    forall i, j, t | 0 <= i < j < |after| && after[i].Holds(t) && after[j].Holds(t)
      ensures after[i].pos != after[j].pos
    {
      assert cells[i].Holds(t) && cells[j].Holds(t) && cells[i].pos != cells[j].pos;
      assert t != s ==> after[i].pos == cells[i].pos && after[j].pos == cells[j].pos;
    }
  }

  /** Cutting [begin, end) out of the middle of a ready sequence leaves it ready exactly when no position
      that slides back into the window has been evicted. */
  lemma MiddleRemovalReady(config: Config, cells: seq<Cell>, s: int, begin: int, end: int, held: set<int>, next: int)
    requires 0 <= begin <= end <= next && end < MAX_INT32
    requires SeqInv(config, held, next, true, Positions(cells, s))
    ensures var next' := ClosedNext(next, begin, end);
            SeqInv(config, Closed(held, begin, end), next', true, Positions(RemovedAll(cells, s, begin, end), s)) <==>
            WindowKept(config, held, Positions(cells, s), begin, next')
  {
    RemovedPositions(cells, s, begin, end);
    ClosedReady(config, held, Positions(cells, s), begin, end, next);
  }

  /** Where a position was before the tail moved down. */
  function Before(q: int, begin: int, end: int): int {
    if q < begin then q else q + end - begin
  }

  lemma ClosedHas(ps: set<int>, begin: int, end: int, q: int)
    requires begin <= end
    ensures q in Closed(ps, begin, end) <==> Before(q, begin, end) in ps
  {
    if q >= begin && q + end - begin in ps {
      var p := q + end - begin;
      assert !(begin <= p < end) && q == if p >= end then p + begin - end else p;
    }
  }

  /** Cutting keeps the invariant; the sequence stays ready if the window is kept. */
  lemma ClosedSeqInv(config: Config, held: set<int>, kept: set<int>, begin: int, end: int, next: int, ready: bool)
    requires 0 <= begin <= end && SeqInv(config, held, next, ready, kept)
    ensures var next' := ClosedNext(next, begin, end);
            SeqInv(config, Closed(held, begin, end), next', ready && WindowKept(config, held, kept, begin, next'),
                   Closed(kept, begin, end))
  {
    var held', kept', next' := Closed(held, begin, end), Closed(kept, begin, end), ClosedNext(next, begin, end);
    forall q | q in held'
      ensures 0 <= q < next'
      ensures ready && WindowKept(config, held, kept, begin, next') && q >= next' - config.window ==> q in kept'
    {
      ClosedHas(held, begin, end, q);
      ClosedHas(kept, begin, end, q);
    }
    forall p, q | p in kept' && q in held' && p <= q
      ensures q in kept'
    {
      ClosedHas(kept, begin, end, p);
      ClosedHas(held, begin, end, q);
      ClosedHas(kept, begin, end, q);
    }
  }

  lemma ClosedReady(config: Config, held: set<int>, kept: set<int>, begin: int, end: int, next: int)
    requires 0 <= begin <= end <= next && SeqInv(config, held, next, true, kept)
    ensures var next' := ClosedNext(next, begin, end);
            SeqInv(config, Closed(held, begin, end), next', true, Closed(kept, begin, end)) <==>
            WindowKept(config, held, kept, begin, next')
  {
    ClosedSeqInv(config, held, kept, begin, end, next, true);
    var next' := ClosedNext(next, begin, end);
    if !WindowKept(config, held, kept, begin, next') {
      var q :| q in held && next' - config.window <= q < begin && q !in kept;
      ClosedHas(held, begin, end, q);
      ClosedHas(kept, begin, end, q);
    }
  }

  /** Nine positions, window and memory 2, the first six evicted: cutting [1, 8) brings position 0 back into
      the window of the next token, and it is gone. */
  lemma MiddleRemovalLosesWindow()
    ensures var config := Config(2, 2, 0);
            var held := {0, 1, 2, 3, 4, 5, 6, 7, 8};
            var cells := [Cell(6, {0}), Cell(7, {0}), Cell(8, {0})];
            && SeqInv(config, held, 9, true, Positions(cells, 0))
            && !SeqInv(config, Closed(held, 1, 8), 2, true, Positions(RemovedAll(cells, 0, 1, 8), 0))
  {
    var config := Config(2, 2, 0);
    var held := {0, 1, 2, 3, 4, 5, 6, 7, 8};
    var cells := [Cell(6, {0}), Cell(7, {0}), Cell(8, {0})];
    assert cells[0].pos in Positions(cells, 0) && cells[1].pos in Positions(cells, 0)
           && cells[2].pos in Positions(cells, 0);
    assert Positions(cells, 0) == {6, 7, 8};
    MiddleRemovalReady(config, cells, 0, 1, 8, held, 9);
    assert 0 in held;
  }
}
