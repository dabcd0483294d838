/** The causal KV cache: a cell array shared by many sequences, with a range index per
    sequence, sliding-window eviction, first-fit placement, defragmentation and masks. */
module Causal {
  import opened Prelude
  import opened KvCells
  import opened KvLayout
  import opened Rounding
  import DefragRows

  datatype Error = KvCacheFull | NotSupported | SharedCells | ShiftFailed

  datatype Outcome = Ok | Err(error: Error)

  /** One row of the key tensor: what was stored, and the position its rotary embedding stands for. */
  datatype Row = Row(data: int, rotation: int)

  datatype LowestPosition = LowestPosition(pos: int, curBatch: bool)

  // ----- Sizing -----

  datatype Sizes = Sizes(window: int, memory: int, cells: int)

  /** 32-bit two's-complement wrap-around. */
  function Wrap32(x: int): int {
    (x + 0x8000_0000) % 0x1_0000_0000 - 0x8000_0000
  }

  /** A padding of 0 stands for none. */
  function OrOne(padding: int): (r: int)
    requires padding >= 0
    ensures r >= 1
  {
    if padding == 0 then 1 else padding
  }

  /** The windows and the number of cells that initialisation settles on; None is the panic about a
      memory smaller than the window. Sizes of 0 stand for "not given". */
  function InitSizes(windowSize: int, memorySize: int, maxSequences: int, capacity: int, maxBatch: int,
                     padding: int): (r: Option<Sizes>)
    requires 0 <= windowSize <= MAX_INT32 && 0 <= memorySize <= MAX_INT32 && padding >= 1
    ensures r.Some? ==> r.value.window <= r.value.memory <= MAX_INT32
    ensures r.Some? ==> r.value.memory < MAX_INT32 ==> 1 <= r.value.window && r.value.memory < capacity
  {
    var window := if windowSize == 0 then MAX_INT32 else windowSize;
    var given := if memorySize == 0 then window else memorySize;
    var grown := if given != MAX_INT32 && maxSequences > 1 then Max(given, Wrap32(window + 1)) else given;
    var memory := if grown >= capacity then MAX_INT32 else grown;
    if memory < window then None
    else
      var wanted := if memory == MAX_INT32 then maxSequences * capacity else maxSequences * memory + maxBatch;
      Some(Sizes(window, memory, RoundUp(wanted, padding)))
  }

  /** Memory for what was asked for, and for one more than the window if there are several sequences. */
  predicate Remembers(memory: int, window: int, asked: int, maxSequences: int) {
    memory >= asked && (maxSequences > 1 && asked < MAX_INT32 && window < MAX_INT32 ==> memory > window)
  }

  /** What a cache is to be given: the window asked for or none; the least memory that will do, or an unlimited one if
      that is no less than the capacity; and the least aligned number of cells for every sequence and one batch. */
  ghost predicate SizedFor(windowSize: int, memorySize: int, maxSequences: int, capacity: int, maxBatch: int,
                           padding: int, window: int, memory: int, cells: int)
    requires padding >= 1
  {
    var asked := if memorySize == 0 then window else memorySize;
    var wanted := if memory == MAX_INT32 then maxSequences * capacity else maxSequences * memory + maxBatch;
    && window == (if windowSize == 0 then MAX_INT32 else windowSize) && window <= memory <= MAX_INT32
    && (memory < MAX_INT32 ==> memory < capacity && Remembers(memory, window, asked, maxSequences))
    && (forall m | m < memory && m < capacity :: !Remembers(m, window, asked, maxSequences))
    && Multiple(cells, padding) && wanted <= cells < wanted + padding
  }

  /** Initialisation settles on those sizes, and panics exactly when a memory size was given that is smaller than the
      window and below the capacity. */
  lemma InitRoom(windowSize: int, memorySize: int, maxSequences: int, capacity: int, maxBatch: int, padding: int)
    requires 0 <= windowSize <= MAX_INT32 && 0 <= memorySize <= MAX_INT32 && padding >= 1
    requires maxSequences >= 1 && maxBatch >= 0
    ensures var r := InitSizes(windowSize, memorySize, maxSequences, capacity, maxBatch, padding);
            && (r.Some? ==> SizedFor(windowSize, memorySize, maxSequences, capacity, maxBatch, padding,
                                     r.value.window, r.value.memory, r.value.cells))
            && (r.None? <==> 0 < memorySize < capacity
                             && memorySize < (if windowSize == 0 then MAX_INT32 else windowSize)
                             && (maxSequences == 1 || windowSize == 0 || windowSize == MAX_INT32))
  {
    var r := InitSizes(windowSize, memorySize, maxSequences, capacity, maxBatch, padding);
    if r.Some? {
      var window, memory := r.value.window, r.value.memory;
      RoundUpBounds(if memory == MAX_INT32 then maxSequences * capacity else maxSequences * memory + maxBatch, padding);
      var asked := if memorySize == 0 then window else memorySize;
      assert Wrap32(window + 1) == if window == MAX_INT32 then -0x8000_0000 else window + 1;
      forall m | m < memory && m < capacity
        ensures !Remembers(m, window, asked, maxSequences)
      {
      }
    }
  }

  lemma InitPositive(windowSize: int, memorySize: int, maxSequences: int, capacity: int, maxBatch: int, padding: int)
    requires 0 <= windowSize <= MAX_INT32 && 0 <= memorySize <= MAX_INT32 && padding >= 1
    requires maxSequences >= 1 && capacity >= 1 && maxBatch >= 1
    requires InitSizes(windowSize, memorySize, maxSequences, capacity, maxBatch, padding).Some?
    ensures InitSizes(windowSize, memorySize, maxSequences, capacity, maxBatch, padding).value.cells >= 1
    ensures InitSizes(windowSize, memorySize, maxSequences, capacity, maxBatch, padding).value.window >= 1
  {
    InitRoom(windowSize, memorySize, maxSequences, capacity, maxBatch, padding);
    var sizes := InitSizes(windowSize, memorySize, maxSequences, capacity, maxBatch, padding).value;
    TimesPositive(maxSequences, capacity);
    if sizes.memory != MAX_INT32 {
      TimesPositive(maxSequences, sizes.memory);
    }
  }

  lemma TimesPositive(a: int, b: int)
    requires a >= 1 && b >= 1
    ensures a * b >= 1
  {
  }

  // ----- What a token may attend to -----

  /** Whether position q of a sequence is shown to a token at position p of the same sequence. */
  predicate Shown(q: int, p: int, causal: bool, chunkSize: int, window: int) {
    && (causal ==> q <= p)
    && (chunkSize > 0 ==> q >= p - p % chunkSize)
    && q >= p - window
  }

  /** Whether a token at position p of sequence s attends to a cell, judged on the cell alone. */
  predicate Attends(cell: Cell, s: int, p: int, causal: bool, chunkSize: int, window: int) {
    cell.Holds(s) && Shown(cell.pos, p, causal, chunkSize, window)
  }

  /** Every cell that some token of the batch could attend to lies in the range. */
  ghost predicate Covers(range: CellRange, cells: seq<Cell>, batch: Batch, window: int)
    requires batch.Valid()
  {
    forall t, i | 0 <= t < batch.Size() && 0 <= i < |cells| ::
      cells[i].Holds(batch.sequences[t]) && cells[i].pos >= batch.positions[t] - window ==> range.Has(i)
  }

  function DropBelow(c: Cell, s: int, cutoff: int): Cell {
    if c.pos < cutoff then c.(sequences := c.sequences - {s}) else c
  }

  /** Some key still to be visited: map iteration promises no order. */
  method Next(todo: set<int>) returns (s: int)
    requires todo != {}
    ensures s in todo
  {
    assert (forall t :: t !in todo) ==> todo == {};
    s :| s in todo;
  }

  // ----- Scans through the recorded range of one sequence -----

  /** The range contains every cell where s holds a position at or above the cutoff. */
  ghost predicate HasFrom(range: CellRange, cells: seq<Cell>, s: int, cutoff: int) {
    forall i | 0 <= i < |cells| && cells[i].Holds(s) && cells[i].pos >= cutoff :: range.Has(i)
  }

  ghost predicate InRange(cells: seq<Cell>, s: int, range: CellRange) {
    range.Proper(|cells|) && |cells| <= MAX_INT && forall i | 0 <= i < |cells| && cells[i].Holds(s) :: range.Has(i)
  }

  method LastPosition(cells: seq<Cell>, range: CellRange, s: int) returns (last: int)
    requires InRange(cells, s, range)
    ensures last == LastPos(cells, s)
  {
    last := 0;
    if range == NEW_RANGE {
      LastPosSkips(cells, s, 0, |cells|);
      return;
    }
    LastPosSkips(cells, s, 0, range.min);
    for i := range.min to range.max + 1
      invariant last == LastPosIn(cells, s, i)
    {
      if cells[i].Holds(s) {
        last := Max(last, cells[i].pos);
      }
    }
    LastPosSkips(cells, s, range.max + 1, |cells|);
  }

  method EvictScan(cells: seq<Cell>, range: CellRange, s: int, cutoff: int) returns (r: seq<Cell>, newRange: CellRange)
    requires InRange(cells, s, range)
    ensures |r| == |cells|
    ensures forall i | 0 <= i < |cells| :: r[i] == DropBelow(cells[i], s, cutoff)
    ensures InRange(r, s, newRange)
  {
    r, newRange := cells, NEW_RANGE;
    var i := range.min;
    while i <= range.max
      invariant range == NEW_RANGE || range.min <= i <= range.max + 1
      invariant |r| == |cells| && newRange.Proper(|cells|)
      invariant forall k | 0 <= k < |cells| && i <= k :: r[k] == cells[k]
      invariant forall k | 0 <= k < |cells| && k < i :: r[k] == DropBelow(cells[k], s, cutoff)
      invariant forall k | 0 <= k < |cells| && k < i && r[k].Holds(s) :: newRange.Has(k)
    {
      if r[i].Holds(s) {
        if r[i].pos < cutoff {
          r := r[i := r[i].(sequences := r[i].sequences - {s})];
        } else {
          newRange := newRange.Grow(i);
        }
      }
      i := i + 1;
    }
  }

  method CoverScan(cells: seq<Cell>, range: CellRange, s: int, cutoff: int, cur: CellRange) returns (r: CellRange)
    requires InRange(cells, s, range) && cur.Proper(|cells|)
    ensures r.Proper(|cells|) && HasFrom(r, cells, s, cutoff)
    ensures forall i :: cur.Has(i) ==> r.Has(i)
  {
    r := cur;
    var i := range.min;
    while i <= range.max
      invariant range == NEW_RANGE || range.min <= i <= range.max + 1
      invariant r.Proper(|cells|)
      invariant forall k | 0 <= k < |cells| && k < i && cells[k].Holds(s) && cells[k].pos >= cutoff :: r.Has(k)
      invariant forall k :: cur.Has(k) ==> r.Has(k)
    {
      if cells[i].Holds(s) && cells[i].pos >= cutoff {
        r := r.Grow(i);
      }
      i := i + 1;
    }
  }

  /** For each sequence of the batch, its lowest position there. */
  method BatchLowest(batch: Batch) returns (lowest: map<int, LowestPosition>)
    requires batch.Valid()
    ensures forall s :: s in lowest <==> batch.Lowest(s).Some?
    ensures forall s | s in lowest :: lowest[s] == LowestPosition(batch.Lowest(s).value, true)
  {
    lowest := map[];
    for i := 0 to batch.Size()
      invariant forall s :: s in lowest <==> batch.LowestIn(s, i).Some?
      invariant forall s | s in lowest :: lowest[s] == LowestPosition(batch.LowestIn(s, i).value, true)
    {
      var s := batch.sequences[i];
      if s !in lowest {
        lowest := lowest[s := LowestPosition(batch.positions[i], true)];
      } else if batch.positions[i] < lowest[s].pos {
        lowest := lowest[s := lowest[s].(pos := batch.positions[i])];
      }
    }
  }

  /** Adds the sequences that the batch does not touch, at the position after their last one. */
  method IdleLowest(cells: seq<Cell>, ranges: map<int, CellRange>, inBatch: map<int, LowestPosition>)
    returns (lowest: map<int, LowestPosition>)
    requires |cells| <= MAX_INT && Indexed(cells, ranges)
    ensures forall s :: s in lowest <==> s in inBatch || s in ranges
    ensures forall s | s in inBatch :: lowest[s] == inBatch[s]
    ensures forall s | s in ranges && s !in inBatch :: lowest[s] == LowestPosition(LastPos(cells, s) + 1, false)
  {
    lowest := inBatch;
    var todo := ranges.Keys;
    while todo != {}
      invariant todo <= ranges.Keys
      invariant forall s :: s in lowest <==> s in inBatch || (s in ranges && s !in todo)
      invariant forall s | s in inBatch :: lowest[s] == inBatch[s]
      invariant forall s | s in ranges && s !in inBatch && s !in todo ::
        lowest[s] == LowestPosition(LastPos(cells, s) + 1, false)
      decreases |todo|
    {
      var s := Next(todo);
      todo := todo - {s};
      if s !in lowest {
        var last := LastPosition(cells, ranges[s], s);
        lowest := lowest[s := LowestPosition(last + 1, false)];
      }
    }
  }

  // ----- Eviction of all sequences, one at a time -----

  /** The cell after the sequences of the table that are not in todo have been cut off. */
  function Cut(c: Cell, lowest: map<int, LowestPosition>, memory: int, todo: set<int>): Cell {
    c.(sequences := set s | s in c.sequences && (s in lowest && s !in todo ==> c.pos >= lowest[s].pos - memory))
  }

  function CutAll(cells: seq<Cell>, lowest: map<int, LowestPosition>, memory: int, todo: set<int>): (r: seq<Cell>)
    ensures |r| == |cells|
  {
    seq(|cells|, i requires 0 <= i < |cells| => Cut(cells[i], lowest, memory, todo))
  }

  lemma CutStep(c: Cell, lowest: map<int, LowestPosition>, memory: int, todo: set<int>, s: int)
    requires s in todo && s in lowest
    ensures Cut(c, lowest, memory, todo - {s}) == DropBelow(Cut(c, lowest, memory, todo), s, lowest[s].pos - memory)
  {
  }

  /** The range contains the window of every sequence of the batch that is not in todo. */
  ghost predicate Covered(range: CellRange, cells: seq<Cell>, lowest: map<int, LowestPosition>, window: int,
                          todo: set<int>) {
    forall s | s in lowest && s !in todo && lowest[s].curBatch :: HasFrom(range, cells, s, lowest[s].pos - window)
  }

  lemma CutAllStep(cells: seq<Cell>, lowest: map<int, LowestPosition>, memory: int, todo: set<int>, s: int,
                   before: seq<Cell>, after: seq<Cell>)
    requires s in todo && s in lowest
    requires before == CutAll(cells, lowest, memory, todo) && |after| == |before|
    requires forall i | 0 <= i < |after| :: after[i] == DropBelow(before[i], s, lowest[s].pos - memory)
    ensures after == CutAll(cells, lowest, memory, todo - {s})
  {
    forall i | 0 <= i < |after|
      ensures after[i] == CutAll(cells, lowest, memory, todo - {s})[i]
    {
      CutStep(cells[i], lowest, memory, todo, s);
    }
  }

  lemma CoveredStep(cells: seq<Cell>, before: seq<Cell>, lowest: map<int, LowestPosition>, memory: int, window: int,
                    todo: set<int>, s: int, was: CellRange, cur: CellRange)
    requires s in todo && s in lowest && before == CutAll(cells, lowest, memory, todo)
    requires Covered(was, cells, lowest, window, todo)
    requires forall i :: was.Has(i) ==> cur.Has(i)
    requires lowest[s].curBatch ==> HasFrom(cur, before, s, lowest[s].pos - window)
    ensures Covered(cur, cells, lowest, window, todo - {s})
  {
    forall t | t in lowest && t !in todo - {s} && lowest[t].curBatch
      ensures HasFrom(cur, cells, t, lowest[t].pos - window)
    {
      if t == s {
        forall i | 0 <= i < |cells| && cells[i].Holds(s) && cells[i].pos >= lowest[s].pos - window
          ensures cur.Has(i)
        {
          assert before[i].Holds(s);
        }
      } else {
        assert HasFrom(was, cells, t, lowest[t].pos - window);
      }
    }
  }

  /** Drops s from the cells beyond the memory window, records its new range, and, when the batch
      touches s, widens the batch's range to the attention window of s. */
  method EvictSequence(cells: seq<Cell>, ranges: map<int, CellRange>, s: int, lowest: LowestPosition, memory: int,
                       window: int, cur: CellRange)
    returns (r: seq<Cell>, newRanges: map<int, CellRange>, newCur: CellRange)
    requires |cells| <= MAX_INT && Indexed(cells, ranges) && cur.Proper(|cells|)
    ensures |r| == |cells| && forall i | 0 <= i < |cells| :: r[i] == DropBelow(cells[i], s, lowest.pos - memory)
    ensures Indexed(r, newRanges)
    ensures newCur.Proper(|cells|) && forall i :: cur.Has(i) ==> newCur.Has(i)
    ensures lowest.curBatch ==> HasFrom(newCur, cells, s, lowest.pos - window)
  {
    r, newRanges, newCur := cells, ranges, cur;
    if s !in ranges {
      assert forall i | 0 <= i < |cells| :: cells[i].sequences - {s} == cells[i].sequences;
      return;
    }
    var newRange;
    r, newRange := EvictScan(cells, ranges[s], s, lowest.pos - memory);
    if lowest.curBatch {
      newCur := CoverScan(cells, ranges[s], s, lowest.pos - window, cur);
    }
    newRanges := ranges[s := newRange];
  }

  method EvictSequences(cells: seq<Cell>, ranges: map<int, CellRange>, lowest: map<int, LowestPosition>, memory: int,
                        window: int)
    returns (r: seq<Cell>, newRanges: map<int, CellRange>, cur: CellRange)
    requires |cells| <= MAX_INT && Indexed(cells, ranges)
    ensures r == CutAll(cells, lowest, memory, {})
    ensures Indexed(r, newRanges)
    ensures cur.Proper(|cells|) && Covered(cur, cells, lowest, window, {})
  {
    r, newRanges, cur := cells, ranges, NEW_RANGE;
    var todo := lowest.Keys;
    forall i | 0 <= i < |cells|
      ensures r[i] == CutAll(cells, lowest, memory, todo)[i]
    {
      assert Cut(cells[i], lowest, memory, todo).sequences == cells[i].sequences;
    }
    while todo != {}
      invariant todo <= lowest.Keys
      invariant r == CutAll(cells, lowest, memory, todo)
      invariant Indexed(r, newRanges)
      invariant cur.Proper(|cells|) && Covered(cur, cells, lowest, window, todo)
      decreases |todo|
    {
      var s := Next(todo);
      ghost var before, was := r, cur;
      r, newRanges, cur := EvictSequence(r, newRanges, s, lowest[s], memory, window, cur);
      CutAllStep(cells, lowest, memory, todo, s, before, r);
      CoveredStep(cells, before, lowest, memory, window, todo, s, was, cur);
      todo := todo - {s};
    }
  }

  ghost predicate LowestTable(cells: seq<Cell>, batch: Batch, lowest: map<int, LowestPosition>)
    requires batch.Valid()
  {
    && (forall s | s in lowest :: lowest[s] == LowestPosition(LowestNeeded(cells, batch, s), batch.Lowest(s).Some?))
    && (forall s | batch.Lowest(s).Some? :: s in lowest)
    && (forall i, s | 0 <= i < |cells| && cells[i].Holds(s) :: s in lowest)
  }

  lemma CutIsEvict(cells: seq<Cell>, batch: Batch, lowest: map<int, LowestPosition>, memory: int)
    requires batch.Valid() && LowestTable(cells, batch, lowest) && memory != MAX_INT32
    ensures CutAll(cells, lowest, memory, {}) == Evict(cells, batch, memory)
  {
    forall i | 0 <= i < |cells|
      ensures CutAll(cells, lowest, memory, {})[i] == Evict(cells, batch, memory)[i]
    {
      assert Cut(cells[i], lowest, memory, {}).sequences == Kept(cells, batch, memory, i);
    }
  }

  lemma CoveredIsCovers(range: CellRange, cells: seq<Cell>, kept: seq<Cell>, batch: Batch,
                        lowest: map<int, LowestPosition>, window: int)
    requires batch.Valid() && LowestTable(cells, batch, lowest)
    requires Covered(range, cells, lowest, window, {})
    requires |kept| == |cells|
    requires forall i | 0 <= i < |cells| :: kept[i].pos == cells[i].pos && kept[i].sequences <= cells[i].sequences
    ensures Covers(range, kept, batch, window)
  {
    forall t, i | 0 <= t < batch.Size() && 0 <= i < |kept| &&
                  kept[i].Holds(batch.sequences[t]) && kept[i].pos >= batch.positions[t] - window
      ensures range.Has(i)
    {
      var s := batch.sequences[t];
      batch.LowestInMeaning(s, batch.Size());
      assert HasFrom(range, cells, s, lowest[s].pos - window);
    }
  }

  // ----- Placement -----

  /** No block of n free cells (of one free cell when n is 0) exists. */
  ghost predicate NoRoom(cells: seq<Cell>, n: nat) {
    forall start :: !FreeBlock(cells, start, Max(1, n))
  }

  ghost function Placed(cells: seq<Cell>, n: nat): (r: seq<Cell>)
    ensures |r| == |cells|
  {
    if NoRoom(cells, n) then Defragmented(cells) else cells
  }

  /** Placement finds room exactly when there are enough free cells, wherever they are. */
  lemma PlacedHasRoom(cells: seq<Cell>, n: nat)
    ensures NoRoom(Placed(cells, n), n) <==> FreeCount(cells) < Max(1, n)
  {
    var m := Max(1, n);
    var placed := Placed(cells, n);
    DefragPacks(cells);
    if FreeCount(cells) >= m {
      if NoRoom(cells, n) {
        PackedHasBlock(placed, m);
      }
    } else {
      forall start
        ensures !FreeBlock(placed, start, m)
      {
        if FreeBlock(placed, start, m) {
          BlockNeedsFree(placed, start, m);
        }
      }
    }
  }

  lemma PlacedKeeps(cells: seq<Cell>, n: nat)
    ensures SameOccupied(cells, Placed(cells, n))
  {
    DefragPacks(cells);
  }

  /** Eviction leaves enough free cells for the batch. */
  predicate Fits(cells: seq<Cell>, batch: Batch, memory: int)
    requires batch.Valid()
  {
    FreeCount(Evict(cells, batch, memory)) >= Max(1, batch.Size())
  }

  /** What a forward pass does to the cells: eviction, relocation if there is no block, then, on
      success, the batch written to the first free block. */
  ghost predicate Forwarded(before: seq<Cell>, batch: Batch, memory: int, ok: bool, loc: int, after: seq<Cell>)
    requires batch.Valid()
  {
    var placed := Placed(Evict(before, batch, memory), batch.Size());
    if ok then
      && FreeBlock(placed, loc, batch.Size())
      && (forall k | 0 <= k < loc :: !FreeBlock(placed, k, Max(1, batch.Size())))
      && after == WriteAt(placed, loc, BatchCells(batch))
    else after == placed
  }

  ghost function RowsAfter(rows: seq<Row>, kept: seq<Cell>, n: nat): seq<Row> {
    if NoRoom(kept, n) then RunMoves(rows, Moves(kept, 0, |kept| - 1), NO_RUN) else rows
  }

  function Rotation(r: Row): int {
    r.rotation
  }

  /** Room is made without moving rows away from their cells: nothing is moved, or no two consecutive moves
      are neighbours. */
  ghost predicate RowsStay(kept: seq<Cell>, n: nat) {
    NoRoom(kept, n) ==> !DefragRows.Neighbours(Moves(kept, 0, |kept| - 1))
  }

  lemma EvictKeepsTurned(cells: seq<Cell>, rows: seq<Row>, batch: Batch, memory: int)
    requires batch.Valid() && DefragRows.Turned(cells, rows, Rotation)
    ensures DefragRows.Turned(Evict(cells, batch, memory), rows, Rotation)
  {
    var kept := Evict(cells, batch, memory);
    forall i | 0 <= i < |kept| && !kept[i].Free()
      ensures Rotation(rows[i]) == kept[i].pos
    {
      assert kept[i].pos == cells[i].pos && !cells[i].Free();
    }
  }

  /** The rows of a batch are in the block at loc; keys carry the rotation of their position. */
  ghost predicate Stored(rows: seq<Row>, loc: int, data: seq<int>, batch: Batch)
    requires batch.Valid()
  {
    && |data| == batch.Size() && 0 <= loc && loc + |data| <= |rows|
    && forall i | 0 <= i < |data| :: rows[loc + i] == Row(data[i], batch.positions[i])
  }

  /** Rows outside the block are as they were. */
  ghost predicate Elsewhere(before: seq<Row>, after: seq<Row>, loc: int, n: nat) {
    |after| == |before| && forall i | 0 <= i < |after| && !(loc <= i < loc + n) :: after[i] == before[i]
  }

  /** Writing a batch and its rows to the same block keeps key rotation equal to position. */
  lemma WriteKeepsTurned(cells: seq<Cell>, before: seq<Row>, after: seq<Row>, data: seq<int>, batch: Batch, loc: int)
    requires batch.Valid() && DefragRows.Turned(cells, before, Rotation) && FreeBlock(cells, loc, batch.Size())
    requires Stored(after, loc, data, batch) && Elsewhere(before, after, loc, |data|)
    ensures DefragRows.Turned(WriteAt(cells, loc, BatchCells(batch)), after, Rotation)
  {
    var c := WriteAt(cells, loc, BatchCells(batch));
    forall i | 0 <= i < |c| && !c[i].Free()
      ensures Rotation(after[i]) == c[i].pos
    {
      if loc <= i < loc + batch.Size() {
        assert c[i] == BatchCells(batch)[i - loc];
        assert after[loc + (i - loc)] == Row(data[i - loc], batch.positions[i - loc]);
      } else {
        assert c[i] == cells[i];
      }
    }
  }

  /** Making room moves nothing, or copies into each hole a row with the rotation of the cell moved there. */
  ghost predicate RowsTurned(kept: seq<Cell>, rows: seq<Row>, n: nat) {
    |rows| == |kept| && (NoRoom(kept, n) ==> DefragRows.HolesTurned(kept, rows, Rotation))
  }

  lemma RowsTurnedExactly(kept: seq<Cell>, rows: seq<Row>, n: nat)
    requires DefragRows.Turned(kept, rows, Rotation)
    ensures DefragRows.Turned(Placed(kept, n), RowsAfter(rows, kept, n), Rotation) <==> RowsTurned(kept, rows, n)
    ensures RowsStay(kept, n) ==> RowsTurned(kept, rows, n)
    ensures MovesDiffer(kept) ==> (RowsTurned(kept, rows, n) <==> RowsStay(kept, n))
  {
    if NoRoom(kept, n) {
      DefragRows.DefragTurnedExactly(kept, rows, Rotation);
      if RowsStay(kept, n) {
        DefragRows.DefragKeepsTurned(kept, rows, Rotation);
      } else if MovesDiffer(kept) {
        DefragRows.DefragTurnedByMoves(kept, rows, Rotation);
      }
    }
  }

  lemma PassKeepsTurned(cells: seq<Cell>, rows: seq<Row>, batch: Batch, memory: int, ok: bool, loc: int,
                        after: seq<Cell>, moved: seq<Row>, data: seq<int>, put: seq<Row>)
    requires batch.Valid() && Forwarded(cells, batch, memory, ok, loc, after)
    requires moved == RowsAfter(rows, Evict(cells, batch, memory), batch.Size()) && |rows| == |cells| == |put|
    requires if ok then Stored(put, loc, data, batch) && Elsewhere(moved, put, loc, |data|) else put == moved
    ensures var kept := Evict(cells, batch, memory);
            DefragRows.Turned(cells, rows, Rotation) ==>
              && (DefragRows.Turned(after, put, Rotation) <==> RowsTurned(kept, rows, batch.Size()))
              && (RowsStay(kept, batch.Size()) ==> DefragRows.Turned(after, put, Rotation))
              && (MovesDiffer(kept) ==> (DefragRows.Turned(after, put, Rotation) <==> RowsStay(kept, batch.Size())))
  {
    var kept := Evict(cells, batch, memory);
    var placed := Placed(kept, batch.Size());
    if DefragRows.Turned(cells, rows, Rotation) {
      EvictKeepsTurned(cells, rows, batch, memory);
      RowsTurnedExactly(kept, rows, batch.Size());
      if ok && DefragRows.Turned(placed, moved, Rotation) {
        WriteKeepsTurned(placed, moved, put, data, batch, loc);
      } else if ok {
        WriteKeepsTwisted(placed, moved, put, data, batch, loc);
      }
    }
  }

  /** The cells that defragmentation would move have pairwise different positions. */
  ghost predicate MovesDiffer(kept: seq<Cell>) {
    DefragRows.MovedDiffer(kept, Moves(kept, 0, |kept| - 1))
  }

  /** Writing to a free block does not mend a key whose rotation is wrong. */
  lemma WriteKeepsTwisted(cells: seq<Cell>, before: seq<Row>, after: seq<Row>, data: seq<int>, batch: Batch, loc: int)
    requires batch.Valid() && |before| == |cells| && !DefragRows.Turned(cells, before, Rotation)
    requires FreeBlock(cells, loc, batch.Size()) && Stored(after, loc, data, batch)
    requires Elsewhere(before, after, loc, |data|)
    ensures !DefragRows.Turned(WriteAt(cells, loc, BatchCells(batch)), after, Rotation)
  {
    var i :| 0 <= i < |cells| && !cells[i].Free() && Rotation(before[i]) != cells[i].pos;
    assert !(loc <= i < loc + batch.Size());
    assert WriteAt(cells, loc, BatchCells(batch))[i] == cells[i] && after[i] == before[i];
  }

  // ----- Removal -----

  function Offset(begin: int, end: int): int {
    if end != MAX_INT32 then begin - end else 0
  }

  function Removed(c: Cell, s: int, begin: int, end: int): Cell {
    if !c.Holds(s) then c
    else if begin <= c.pos < end then c.(sequences := c.sequences - {s})
    else if c.pos >= end then c.(pos := c.pos + Offset(begin, end))
    else c
  }

  function RemovedAll(cells: seq<Cell>, s: int, begin: int, end: int): (r: seq<Cell>)
    ensures |r| == |cells|
  {
    seq(|cells|, i requires 0 <= i < |cells| => Removed(cells[i], s, begin, end))
  }

  /** The cells when the first k of them have been treated. */
  function RemovedTo(cells: seq<Cell>, s: int, begin: int, end: int, k: int): (r: seq<Cell>)
    ensures |r| == |cells|
  {
    seq(|cells|, i requires 0 <= i < |cells| => if i < k then Removed(cells[i], s, begin, end) else cells[i])
  }

  predicate SharedAt(c: Cell, s: int, end: int) {
    c.Holds(s) && c.pos >= end && c.sequences != {s}
  }

  /** The first cell, at i or later, that would have to move and is shared; the number of cells if there is none. */
  function FirstShared(cells: seq<Cell>, s: int, end: int, i: nat): (k: nat)
    requires i <= |cells|
    ensures i <= k <= |cells|
    decreases |cells| - i
  {
    if i == |cells| || SharedAt(cells[i], s, end) then i else FirstShared(cells, s, end, i + 1)
  }

  lemma {:induction false} FirstSharedIs(cells: seq<Cell>, s: int, end: int, i: nat, k: nat)
    requires i <= k <= |cells| && (forall j | i <= j < k :: !SharedAt(cells[j], s, end))
    requires k < |cells| ==> SharedAt(cells[k], s, end)
    ensures FirstShared(cells, s, end, i) == k
    decreases k - i
  {
    if i < k {
      FirstSharedIs(cells, s, end, i + 1, k);
    }
  }

  /** A cell that would have to move is also held by another sequence. */
  ghost predicate SharedTail(cells: seq<Cell>, s: int, end: int) {
    exists i | 0 <= i < |cells| :: SharedAt(cells[i], s, end)
  }

  /** Nothing that a sequence other than s can see has changed. */
  ghost predicate OthersUntouched(a: seq<Cell>, b: seq<Cell>, s: int) {
    && |a| == |b|
    && forall i, t | 0 <= i < |a| && t != s ::
         (a[i].Holds(t) <==> b[i].Holds(t)) && (a[i].Holds(t) ==> a[i].pos == b[i].pos)
  }

  predicate InTail(c: Cell, s: int, begin: int) {
    c.Holds(s) && c.pos >= begin
  }

  function Turn(row: Row, offset: int): Row {
    row.(rotation := row.rotation + offset)
  }

  /** The rows in [lo, hi) whose cells belong to the moved tail of s are turned by offset, once. */
  function Rotated(rows: seq<Row>, cells: seq<Cell>, s: int, begin: int, offset: int, lo: int, hi: int): (r: seq<Row>)
    requires |rows| == |cells|
    ensures |r| == |rows|
  {
    seq(|rows|, i requires 0 <= i < |rows| =>
      if lo <= i < hi && InTail(cells[i], s, begin) then Turn(rows[i], offset) else rows[i])
  }

  // ----- Prefix sharing -----

  function Shared(c: Cell, src: int, dst: int, len: int): Cell {
    var rest := c.sequences - {dst};
    if src in rest && c.pos < len then c.(sequences := rest + {dst}) else c.(sequences := rest)
  }

  function SharedAll(cells: seq<Cell>, src: int, dst: int, len: int): (r: seq<Cell>)
    ensures |r| == |cells|
  {
    seq(|cells|, i requires 0 <= i < |cells| => Shared(cells[i], src, dst, len))
  }

  /** Whether the window before pos is still held for s, as a full scan. */
  ghost predicate Resumable(cells: seq<Cell>, window: int, memory: int, s: int, pos: int) {
    memory == MAX_INT32 ||
    (exists first, last :: first in Positions(cells, s) && last in Positions(cells, s) &&
                           first <= Max(0, pos - window) && pos <= last + 1)
  }

  // ----- Loops over the whole cache -----

  method MoveCells(rows: seq<Row>, run: CopyRun) returns (r: seq<Row>)
    requires 0 <= run.src && run.src + run.len <= |rows| && 0 <= run.dst && run.dst + run.len <= |rows|
    ensures r == CopyRows(rows, run)
  {
    r := rows[..run.dst] + rows[run.src..run.src + run.len] + rows[run.dst + run.len..];
  }

  /** Moves one cell, and either joins its row copy to the pending run or flushes that run. */
  method MoveOne(c: seq<Cell>, r: seq<Row>, dst: nat, src: int, pending: CopyRun)
    returns (c': seq<Cell>, r': seq<Row>, pending': CopyRun)
    requires dst < src < |c| == |r| && c[dst].Free() && !c[src].Free() && RunBelow(pending, dst, src, |r|)
    ensures |c'| == |r'| == |c| && RunBelow(pending', dst + 1, src, |r|)
    ensures ApplyMoves(c', Moves(c', dst + 1, src)) == ApplyMoves(c, Moves(c, dst, src))
    ensures RunMoves(r', Moves(c', dst + 1, src), pending') == RunMoves(r, Moves(c, dst, src), pending)
  {
    var m := Move(src, dst);
    MovesUnfold(c, dst, src);
    RunMovesUnfold(r, c, dst, src, pending);
    c' := ApplyMove(c, m);
    if Joins(pending, m) {
      r', pending' := r, Join(pending, m);
    } else {
      r' := Flush(r, pending);
      pending' := CopyRun(src, dst, 1);
    }
  }

  method Flush(r: seq<Row>, pending: CopyRun) returns (r': seq<Row>)
    requires pending.len > 0 ==> 0 <= pending.src && pending.src + pending.len <= |r| &&
                                 0 <= pending.dst && pending.dst + pending.len <= |r|
    ensures r' == CopyRows(r, pending)
  {
    if pending.len > 0 {
      r' := MoveCells(r, pending);
    } else {
      NothingToCopy(r, pending);
      r' := r;
    }
  }

  /** The pending run lies in bounds: it fills holes below dst with rows at or above src. */
  ghost predicate RunBelow(run: CopyRun, dst: int, src: int, n: int) {
    run.len > 0 ==> 0 <= run.dst && run.dst + run.len <= dst <= n && 0 <= src <= run.src && run.src + run.len <= n
  }

  /** What is left of the scan, with the pending copy, leads to the same cells and rows as the whole of it. */
  ghost predicate Scanning(cells: seq<Cell>, rows: seq<Row>, c: seq<Cell>, r: seq<Row>, dst: int, src: int,
                           pending: CopyRun) {
    && 0 <= dst && src < |c| == |cells| == |r| && RunBelow(pending, dst, src, |r|)
    && ApplyMoves(c, Moves(c, dst, src)) == Defragmented(cells)
    && RunMoves(r, Moves(c, dst, src), pending) == RunMoves(rows, Moves(cells, 0, |cells| - 1), NO_RUN)
  }

  /** The two-pointer defragmentation scan, with row copies held back while they look contiguous. */
  method DefragScan(cells: seq<Cell>, rows: seq<Row>) returns (c: seq<Cell>, r: seq<Row>)
    requires |cells| == |rows|
    ensures c == Defragmented(cells)
    ensures r == RunMoves(rows, Moves(cells, 0, |cells| - 1), NO_RUN)
  {
    c, r := cells, rows;
    var pending := NO_RUN;
    var src := |cells| - 1;
    var dst := 0;
    while dst < src
      invariant Scanning(cells, rows, c, r, dst, src, pending)
      decreases src - dst
    {
      if c[dst].Free() {
        src := SkipFree(c, dst, src);
        if src > dst {
          c, r, pending := MoveOne(c, r, dst, src, pending);
        }
      }
      dst := dst + 1;
    }
    r := Flush(r, pending);
  }

  /** The highest occupied location above dst at or below src, or dst itself. */
  method SkipFree(c: seq<Cell>, dst: nat, src: int) returns (top: int)
    requires dst < src < |c| && c[dst].Free()
    ensures dst <= top <= src && (top > dst ==> !c[top].Free())
    ensures Moves(c, dst, top) == Moves(c, dst, src)
  {
    top := src;
    while top > dst && c[top].Free()
      invariant dst <= top <= src
      invariant Moves(c, dst, top) == Moves(c, dst, src)
    {
      top := top - 1;
    }
  }

  lemma NothingToCopy(rows: seq<Row>, run: CopyRun)
    requires run.len == 0
    ensures CopyRows(rows, run) == rows
  {
  }

  lemma RunMovesUnfold(rows: seq<Row>, c: seq<Cell>, dst: nat, src: int, run: CopyRun)
    requires dst < src < |c| && c[dst].Free() && !c[src].Free()
    ensures var m := Move(src, dst);
            RunMoves(rows, Moves(c, dst, src), run) ==
            if Joins(run, m) then RunMoves(rows, Moves(ApplyMove(c, m), dst + 1, src), Join(run, m))
            else RunMoves(CopyRows(rows, run), Moves(ApplyMove(c, m), dst + 1, src), CopyRun(src, dst, 1))
  {
    MoveStep(c, dst, src);
    assert Moves(c, dst, src)[1..] == Moves(ApplyMove(c, Move(src, dst)), dst + 1, src);
  }

  method RangeOf(cells: seq<Cell>, s: int) returns (range: CellRange)
    requires |cells| <= MAX_INT
    ensures InRange(cells, s, range)
  {
    range := NEW_RANGE;
    for i := 0 to |cells|
      invariant range.Proper(|cells|)
      invariant forall k | 0 <= k < i && cells[k].Holds(s) :: range.Has(k)
    {
      if cells[i].Holds(s) {
        range := range.Grow(i);
      }
    }
  }

  method RebuildRanges(cells: seq<Cell>, ranges: map<int, CellRange>) returns (r: map<int, CellRange>)
    requires |cells| <= MAX_INT
    requires forall i, s | 0 <= i < |cells| && cells[i].Holds(s) :: s in ranges
    ensures Indexed(cells, r)
  {
    r := ranges;
    var todo := ranges.Keys;
    while todo != {}
      invariant forall s :: s in r <==> s in ranges
      invariant todo <= ranges.Keys
      invariant forall s | s in ranges && s !in todo :: InRange(cells, s, r[s])
      decreases |todo|
    {
      var s := Next(todo);
      var range := RangeOf(cells, s);
      r := r[s := range];
      todo := todo - {s};
    }
  }

  lemma WriteNext(cells: seq<Cell>, loc: nat, written: seq<Cell>, i: nat)
    requires i < |written| && loc + |written| <= |cells|
    ensures WriteAt(cells, loc, written[..i + 1]) == WriteAt(cells, loc, written[..i])[loc + i := written[i]]
  {
  }

  /** Writes the batch into a free block and extends the ranges of its sequences. */
  method WriteBatch(cells: seq<Cell>, ranges: map<int, CellRange>, cur: CellRange, loc: int, batch: Batch)
    returns (c: seq<Cell>, r: map<int, CellRange>, range: CellRange)
    requires batch.Valid() && |cells| <= MAX_INT && Indexed(cells, ranges) && cur.Proper(|cells|)
    requires FreeBlock(cells, loc, batch.Size())
    ensures c == WriteAt(cells, loc, BatchCells(batch))
    ensures Indexed(c, r) && range.Proper(|cells|)
    ensures forall i | cur.Has(i) :: range.Has(i)
    ensures forall i | loc <= i < loc + batch.Size() :: range.Has(i)
  {
    c, r, range := cells, ranges, cur;
    for i := 0 to batch.Size()
      invariant c == WriteAt(cells, loc, BatchCells(batch)[..i])
      invariant Indexed(c, r) && range.Proper(|cells|)
      invariant forall k | cur.Has(k) :: range.Has(k)
      invariant forall k | loc <= k < loc + i :: range.Has(k)
    {
      var s := batch.sequences[i];
      var at := loc + i;
      ghost var before := c;
      WriteNext(cells, loc, BatchCells(batch), i);
      c := c[at := Cell(batch.positions[i], {s})];
      var seqRange := if s in r then r[s] else NEW_RANGE;
      IndexedPut(before, r, at, Cell(batch.positions[i], {s}), s, seqRange);
      r := r[s := seqRange.Grow(at)];
      var grown := range.Grow(at);
      assert forall k | range.Has(k) :: grown.Has(k);
      range := grown;
    }
  }

  lemma IndexedPut(cells: seq<Cell>, ranges: map<int, CellRange>, at: nat, cell: Cell, s: int, range: CellRange)
    requires |cells| <= MAX_INT && Indexed(cells, ranges) && at < |cells| && cell.sequences == {s}
    requires range == if s in ranges then ranges[s] else NEW_RANGE
    ensures Indexed(cells[at := cell], ranges[s := range.Grow(at)])
  {
  }

  method BuildRow(cells: seq<Cell>, range: CellRange, s: int, p: int, causal: bool, chunkSize: int, window: int)
    returns (row: seq<bool>)
    requires 0 <= range.min <= range.max < |cells|
    ensures |row| == range.max - range.min + 1
    ensures forall j | range.Has(j) :: row[j - range.min] == Attends(cells[j], s, p, causal, chunkSize, window)
  {
    row := [];
    for j := range.min to range.max + 1
      invariant |row| == j - range.min
      invariant forall k | range.min <= k < j ::
        row[k - range.min] == Attends(cells[k], s, p, causal, chunkSize, window)
    {
      var masked :=
        !cells[j].Holds(s) ||
        (causal && cells[j].pos > p) ||
        (chunkSize > 0 && cells[j].pos < p - p % chunkSize) ||
        cells[j].pos < p - window;
      row := row + [!masked];
    }
  }

  method BuildRows(cells: seq<Cell>, batch: Batch, range: CellRange, except: seq<int>, chunkSize: int, window: int)
    returns (mask: seq<seq<bool>>)
    requires batch.Valid()
    requires batch.Size() > 0 ==> 0 <= range.min <= range.max < |cells|
    ensures |mask| == batch.Size()
    ensures forall t | 0 <= t < |mask| :: |mask[t]| == range.max - range.min + 1
    ensures forall t, j | 0 <= t < |mask| && range.Has(j) :: mask[t][j - range.min] ==
              Attends(cells[j], batch.sequences[t], batch.positions[t], t !in except, chunkSize, window)
  {
    mask := [];
    for t := 0 to batch.Size()
      invariant |mask| == t
      invariant forall u | 0 <= u < t :: |mask[u]| == range.max - range.min + 1
      invariant forall u, j | 0 <= u < t && range.Has(j) :: mask[u][j - range.min] ==
                  Attends(cells[j], batch.sequences[u], batch.positions[u], u !in except, chunkSize, window)
    {
      var row := BuildRow(cells, range, batch.sequences[t], batch.positions[t], t !in except, chunkSize, window);
      mask := mask + [row];
    }
  }

  lemma DefragKeepsHeld(cells: seq<Cell>, ranges: map<int, CellRange>)
    requires Indexed(cells, ranges) && NonNegative(cells)
    ensures NonNegative(Defragmented(cells))
    ensures forall i, s | 0 <= i < |cells| && Defragmented(cells)[i].Holds(s) :: s in ranges
  {
    var r := Defragmented(cells);
    DefragPacks(cells);
    forall i, s | 0 <= i < |cells| && r[i].Holds(s)
      ensures s in ranges
    {
      var j := SameOccupiedFind(r, cells, i);
    }
    DefragNonNegative(cells, Moves(cells, 0, |cells| - 1));
  }

  lemma {:induction false} DefragNonNegative(cells: seq<Cell>, moves: seq<Move>)
    requires NonNegative(cells)
    requires forall k | 0 <= k < |moves| :: 0 <= moves[k].src < |cells| && 0 <= moves[k].dst < |cells|
    ensures NonNegative(ApplyMoves(cells, moves))
    decreases |moves|
  {
    if moves != [] {
      DefragNonNegative(ApplyMove(cells, moves[0]), moves[1..]);
    }
  }

  // ----- The stages of a forward pass -----

  /** First-fit search for a block of batch size. */
  method FindStartLoc(cells: seq<Cell>, n: nat) returns (r: Outcome, loc: int)
    ensures r == Ok || r == Err(KvCacheFull)
    ensures r.Err? <==> NoRoom(cells, n)
    ensures r.Ok? ==> FreeBlock(cells, loc, n)
    ensures r.Ok? ==> forall k | 0 <= k < loc :: !FreeBlock(cells, k, Max(1, n))
  {
    var start, count := 0, 0;
    for i := 0 to |cells|
      invariant 0 <= count < Max(1, n) && start == i - count
      invariant FreeBlock(cells, start, count)
      invariant forall k | 0 <= k < start :: !FreeBlock(cells, k, Max(1, n))
    {
      if cells[i].Free() {
        count := count + 1;
        if count >= n {
          assert FreeBlock(cells, start, Max(1, n));
          return Ok, start;
        }
      } else {
        forall k | 0 <= k < i + 1
          ensures !FreeBlock(cells, k, Max(1, n))
        {
          assert k >= start ==> k <= i < k + Max(1, n);
        }
        start := i + 1;
        count := 0;
      }
    }
    return Err(KvCacheFull), 0;
  }

  ghost predicate Sound(cells: seq<Cell>, ranges: map<int, CellRange>) {
    |cells| <= MAX_INT && NonNegative(cells) && Indexed(cells, ranges)
  }

  /** Eviction through the range index is the full-scan eviction, and the range it leaves behind
      contains every old cell that a token of the batch can attend to. */
  method UpdateSlidingWindow(cells: seq<Cell>, ranges: map<int, CellRange>, batch: Batch, window: int, memory: int)
    returns (c: seq<Cell>, r: map<int, CellRange>, cur: CellRange)
    requires Sound(cells, ranges) && batch.Valid()
    ensures c == Evict(cells, batch, memory) && Sound(c, r)
    ensures cur.Proper(|c|) && Covers(cur, c, batch, window)
  {
    if memory == MAX_INT32 {
      c, r := cells, ranges;
      cur := UnwindowedRange(cells, ranges, batch, window);
      return;
    }
    var inBatch := BatchLowest(batch);
    var lowest := IdleLowest(cells, ranges, inBatch);
    c, r, cur := EvictSequences(cells, ranges, lowest, memory, window);
    assert LowestTable(cells, batch, lowest);
    CutIsEvict(cells, batch, lowest, memory);
    CoveredIsCovers(cur, cells, c, batch, lowest, window);
  }

  method UnwindowedRange(cells: seq<Cell>, ranges: map<int, CellRange>, batch: Batch, window: int)
    returns (cur: CellRange)
    requires Sound(cells, ranges) && batch.Valid()
    ensures cur.Proper(|cells|) && Covers(cur, cells, batch, window)
  {
    cur := NEW_RANGE;
    for t := 0 to batch.Size()
      invariant cur.Proper(|cells|)
      invariant forall u, i | 0 <= u < t && 0 <= i < |cells| && cells[i].Holds(batch.sequences[u]) :: cur.Has(i)
    {
      var s := batch.sequences[t];
      if s in ranges {
        var wider := CellRange(Min(cur.min, ranges[s].min), Max(cur.max, ranges[s].max));
        assert forall i | cur.Has(i) :: wider.Has(i);
        cur := wider;
      }
    }
  }

  /** Compacts the cells, rebuilds the index and evicts again; rows are copied in the batched runs. */
  method Defrag(cells: seq<Cell>, ranges: map<int, CellRange>, rows: seq<Row>, batch: Batch, window: int, memory: int)
    returns (c: seq<Cell>, r: map<int, CellRange>, rw: seq<Row>, cur: CellRange)
    requires Sound(cells, ranges) && batch.Valid() && |rows| == |cells|
    ensures c == Evict(Defragmented(cells), batch, memory) && Sound(c, r)
    ensures rw == RunMoves(rows, Moves(cells, 0, |cells| - 1), NO_RUN)
    ensures cur.Proper(|c|) && Covers(cur, c, batch, window)
  {
    c, rw := DefragScan(cells, rows);
    DefragKeepsHeld(cells, ranges);
    r := RebuildRanges(c, ranges);
    c, r, cur := UpdateSlidingWindow(c, r, batch, window, memory);
  }

  /** Evicts, looks for a block, and defragments once if there is none. */
  method MakeRoom(cells: seq<Cell>, ranges: map<int, CellRange>, rows: seq<Row>, batch: Batch, window: int, memory: int)
    returns (o: Outcome, loc: int, c: seq<Cell>, r: map<int, CellRange>, rw: seq<Row>, cur: CellRange)
    requires Sound(cells, ranges) && batch.Valid() && |rows| == |cells|
    ensures o == Ok || o == Err(KvCacheFull)
    ensures o.Ok? <==> Fits(cells, batch, memory)
    ensures c == Placed(Evict(cells, batch, memory), batch.Size()) && Sound(c, r)
    ensures rw == RowsAfter(rows, Evict(cells, batch, memory), batch.Size())
    ensures cur.Proper(|c|) && Covers(cur, c, batch, window)
    ensures o.Ok? ==> FreeBlock(c, loc, batch.Size())
    ensures o.Ok? ==> forall k | 0 <= k < loc :: !FreeBlock(c, k, Max(1, batch.Size()))
  {
    rw := rows;
    c, r, cur := UpdateSlidingWindow(cells, ranges, batch, window, memory);
    PlacedHasRoom(c, batch.Size());
    o, loc := FindStartLoc(c, batch.Size());
    if o == Err(KvCacheFull) {
      DefragPacks(c);
      EvictSettles(cells, Defragmented(c), batch, memory);
      c, r, rw, cur := Defrag(c, r, rows, batch, window, memory);
      o, loc := FindStartLoc(c, batch.Size());
    }
  }

  // ----- Prefix sharing, resumption and removal, as scans -----

  method CopyScan(cells: seq<Cell>, ranges: map<int, CellRange>, src: int, dst: int, len: int)
    returns (c: seq<Cell>, r: map<int, CellRange>)
    requires Sound(cells, ranges)
    ensures c == SharedAll(cells, src, dst, len) && Sound(c, r)
  {
    c := cells;
    var range := NEW_RANGE;
    for i := 0 to |cells|
      invariant |c| == |cells| && range.Proper(|cells|)
      invariant forall k | 0 <= k < i :: c[k] == Shared(cells[k], src, dst, len)
      invariant forall k | i <= k < |cells| :: c[k] == cells[k]
      invariant forall k | 0 <= k < i && c[k].Holds(dst) :: range.Has(k)
    {
      if c[i].Holds(dst) {
        c := c[i := c[i].(sequences := c[i].sequences - {dst})];
      }
      assert c[i].sequences == cells[i].sequences - {dst};
      if c[i].Holds(src) && c[i].pos < len {
        c := c[i := c[i].(sequences := c[i].sequences + {dst})];
        range := range.Grow(i);
      }
    }
    r := ranges[dst := range];
  }

  /** Smallest and largest position of s, or MAX_INT32 and -1, read off its recorded range. */
  method Extent(cells: seq<Cell>, range: CellRange, s: int) returns (first: int, last: int)
    requires InRange(cells, s, range) && NonNegative(cells)
    ensures last == -1 <==> Positions(cells, s) == {}
    ensures last != -1 ==> first in Positions(cells, s) && last in Positions(cells, s)
    ensures forall p | p in Positions(cells, s) :: first <= p <= last
  {
    first, last := MAX_INT32, -1;
    var i := range.min;
    while i <= range.max
      invariant range == NEW_RANGE || range.min <= i <= range.max + 1
      invariant last == -1 || (first in Positions(cells, s) && last in Positions(cells, s))
      invariant last >= -1 && (last == -1 ==> first == MAX_INT32)
      invariant forall k | 0 <= k < |cells| && k < i && cells[k].Holds(s) :: first <= cells[k].pos <= last
    {
      if cells[i].Holds(s) {
        assert cells[i].pos in Positions(cells, s);
        first := Min(first, cells[i].pos);
        last := Max(last, cells[i].pos);
      }
      i := i + 1;
    }
  }

  method RemoveScan(cells: seq<Cell>, s: int, begin: int, end: int) returns (o: Outcome, c: seq<Cell>, range: CellRange)
    requires NonNegative(cells) && |cells| <= MAX_INT && 0 <= begin <= end <= MAX_INT32
    ensures o == Ok || o == Err(SharedCells)
    ensures o.Err? <==> SharedTail(cells, s, end)
    ensures o.Ok? ==> c == RemovedAll(cells, s, begin, end) && InRange(c, s, range)
    ensures c == RemovedTo(cells, s, begin, end, FirstShared(cells, s, end, 0))
    ensures OthersUntouched(cells, c, s) && NonNegative(c)
    ensures forall i | 0 <= i < |c| :: c[i].sequences <= cells[i].sequences
  {
    c, range := cells, NEW_RANGE;
    for i := 0 to |cells|
      invariant |c| == |cells| && range.Proper(|cells|)
      invariant forall k | 0 <= k < i :: c[k] == Removed(cells[k], s, begin, end)
      invariant forall k | i <= k < |cells| :: c[k] == cells[k]
      invariant forall k | 0 <= k < i && c[k].Holds(s) :: range.Has(k)
      invariant forall k | 0 <= k < i :: !SharedAt(cells[k], s, end)
    {
      if c[i].Holds(s) {
        if begin <= c[i].pos < end {
          c := c[i := c[i].(sequences := c[i].sequences - {s})];
        } else {
          if c[i].pos >= end {
            if c[i].sequences - {s} != {} {
              FirstSharedIs(cells, s, end, 0, i);
              return Err(SharedCells), c, range;
            }
            c := c[i := c[i].(pos := c[i].pos + Offset(begin, end))];
          }
          range := range.Grow(i);
        }
      }
    }
    FirstSharedIs(cells, s, end, 0, |cells|);
    o := Ok;
  }

  /** Keeping old ranges, or recording the scanned one, leaves the index sound on either exit. */
  lemma RemoveSound(cells: seq<Cell>, c: seq<Cell>, ranges: map<int, CellRange>, s: int, range: CellRange, ok: bool)
    requires Sound(cells, ranges) && |c| == |cells| && NonNegative(c)
    requires forall i | 0 <= i < |c| :: c[i].sequences <= cells[i].sequences
    requires ok ==> InRange(c, s, range)
    ensures Sound(c, ranges)
    ensures ok ==> Sound(c, ranges[s := range])
    ensures ok && range == NEW_RANGE ==> Sound(c, ranges - {s})
  {
    assert Indexed(c, ranges);
  }

  lemma RemovedOthers(cells: seq<Cell>, s: int, begin: int, end: int)
    requires !SharedTail(cells, s, end) && 0 <= begin <= end
    ensures forall i | 0 <= i < |cells| && InTail(RemovedAll(cells, s, begin, end)[i], s, begin) ::
      cells[i].sequences == {s} && cells[i].pos >= end
  {
  }

  /** Rows of cells that another sequence holds are the same as before. */
  ghost predicate OthersRowsKept(cells: seq<Cell>, a: seq<Row>, b: seq<Row>, s: int) {
    |a| == |b| == |cells| && forall i, t | 0 <= i < |cells| && t != s && cells[i].Holds(t) :: a[i] == b[i]
  }

  /** Turns the moved keys of one batch of at most maxBatch cells. */
  method ShiftBatch(cells: seq<Cell>, rows: seq<Row>, s: int, begin: int, offset: int, start: nat, size: nat,
                    fails: bool)
    returns (o: Outcome, r: seq<Row>)
    requires |cells| == |rows| && start + size <= |cells|
    ensures o == Ok || (o == Err(ShiftFailed) && fails && r == rows)
    ensures o.Ok? ==> r == Rotated(rows, cells, s, begin, offset, start, start + size)
  {
    var offsets: seq<int> := [];
    var batchFirst, batchLast := -1, 0;
    for i := 0 to size
      invariant |offsets| == i
      invariant forall j | start <= j < start + i ::
        offsets[j - start] == if InTail(cells[j], s, begin) then offset else 0
      invariant -1 <= batchFirst <= batchLast && (batchFirst >= 0 ==> batchLast < i)
      invariant forall j | start <= j < start + i && InTail(cells[j], s, begin) ::
        0 <= batchFirst <= j - start <= batchLast
    {
      if cells[start + i].Holds(s) && cells[start + i].pos >= begin {
        offsets := offsets + [offset];
        if batchFirst < 0 {
          batchFirst := i;
        }
        batchLast := i;
      } else {
        offsets := offsets + [0];
      }
    }
    if batchFirst < 0 {
      r := rows;
      assert r == Rotated(rows, cells, s, begin, offset, start, start + size);
      return Ok, r;
    }
    if fails {
      return Err(ShiftFailed), rows;
    }
    var view := offsets[batchFirst..batchLast + 1];
    r := TurnView(rows, start + batchFirst, view);
    assert r == Rotated(rows, cells, s, begin, offset, start, start + size);
    o := Ok;
  }

  /** Applies the shift function to a view of the rows: row at + k is turned by offsets[k]. */
  method TurnView(rows: seq<Row>, at: nat, offsets: seq<int>) returns (r: seq<Row>)
    requires at + |offsets| <= |rows|
    ensures |r| == |rows|
    ensures forall i | 0 <= i < |rows| ::
      r[i] == if at <= i < at + |offsets| then Turn(rows[i], offsets[i - at]) else rows[i]
  {
    r := seq(|rows|, i requires 0 <= i < |rows| =>
      if at <= i < at + |offsets| then Turn(rows[i], offsets[i - at]) else rows[i]);
  }

  /** Turns the keys of the moved tail of s, maxBatch cells at a time within the range of s. */
  method ShiftRows(cells: seq<Cell>, rows: seq<Row>, range: CellRange, s: int, begin: int, offset: int, maxBatch: int,
                   shiftErrors: set<int>)
    returns (o: Outcome, r: seq<Row>)
    requires |cells| == |rows| && InRange(cells, s, range) && maxBatch >= 1
    ensures o == Ok || (o == Err(ShiftFailed) && shiftErrors != {})
    ensures o.Ok? ==> r == Rotated(rows, cells, s, begin, offset, 0, |rows|)
    ensures |r| == |rows| && forall i | 0 <= i < |rows| && !InTail(cells[i], s, begin) :: r[i] == rows[i]
    ensures o.Err? ==> exists n :: r == Rotated(rows, cells, s, begin, offset, 0, n)
  {
    r := rows;
    var start := range.min;
    assert r == Rotated(rows, cells, s, begin, offset, 0, start);
    while start <= range.max
      invariant start >= range.min
      invariant r == Rotated(rows, cells, s, begin, offset, 0, start)
      decreases range.max - start
    {
      var size := Min(range.max - start + 1, maxBatch);
      ghost var before := r;
      o, r := ShiftBatch(cells, r, s, begin, offset, start, size, start in shiftErrors);
      if o.Err? {
        return;
      }
      RotatedFurther(rows, cells, s, begin, offset, range, start, size, maxBatch);
      start := start + maxBatch;
    }
    assert r == Rotated(rows, cells, s, begin, offset, 0, |rows|);
    o := Ok;
  }

  lemma RotatedFurther(rows: seq<Row>, cells: seq<Cell>, s: int, begin: int, offset: int, range: CellRange,
                       start: nat, size: nat, maxBatch: int)
    requires |rows| == |cells| && InRange(cells, s, range) && range.min <= start <= range.max
    requires maxBatch >= 1 && size == Min(range.max - start + 1, maxBatch)
    ensures Rotated(Rotated(rows, cells, s, begin, offset, 0, start), cells, s, begin, offset, start, start + size) ==
            Rotated(rows, cells, s, begin, offset, 0, start + maxBatch)
  {
  }

  // ----- Masks over the whole cache -----

  /** The range is aligned at both ends, in bounds, and covers what the batch can attend to. */
  ghost predicate AlignedRange(range: CellRange, cells: seq<Cell>, batch: Batch, window: int, padding: int)
    requires batch.Valid() && padding >= 1
  {
    && Multiple(range.min, padding) && Multiple(range.max + 1, padding)
    && (batch.Size() > 0 ==> 0 <= range.min <= range.max < |cells|)
    && Covers(range, cells, batch, window)
  }

  ghost predicate ExactMask(mask: seq<seq<bool>>, range: CellRange, cells: seq<Cell>, batch: Batch, except: seq<int>,
                            chunkSize: int, window: int, padding: int)
    requires batch.Valid() && padding >= 1
  {
    var n := batch.Size();
    && |mask| == RoundUp(n, padding) >= n
    && (forall t | 0 <= t < |mask| :: |mask[t]| == range.max - range.min + 1)
    && (forall t, j | n <= t < |mask| && 0 <= j < |mask[t]| :: !mask[t][j])
    && (n > 0 ==> 0 <= range.min && range.max < |cells|)
    && (forall t, j | 0 <= t < n && 0 <= j < |cells| ::
          Attends(cells[j], batch.sequences[t], batch.positions[t], t !in except, chunkSize, window) <==>
          range.Has(j) && mask[t][j - range.min])
  }

  /** Rounds the range outwards to the padding. */
  method AlignRange(range: CellRange, cells: seq<Cell>, batch: Batch, window: int, padding: int) returns (r: CellRange)
    requires batch.Valid() && padding >= 1 && Multiple(|cells|, padding) && Covers(range, cells, batch, window)
    requires batch.Size() > 0 ==> 0 <= range.min <= range.max < |cells|
    ensures AlignedRange(r, cells, batch, window, padding)
    ensures AlignedRange(range, cells, batch, window, padding) ==> r == range
    ensures range.min - padding < r.min <= range.min && range.max <= r.max < range.max + padding
  {
    RoundDownBounds(range.min, padding);
    RoundUpBounds(range.max + 1, padding);
    if batch.Size() > 0 {
      RoundUpWithin(range.max + 1, |cells|, padding);
      RoundDownNat(range.min, padding);
    }
    r := CellRange(RoundDown(range.min, padding), RoundUp(range.max + 1, padding) - 1);
  }

  /** A row for each token, and empty rows up to the padding. */
  method MaskOver(range: CellRange, cells: seq<Cell>, batch: Batch, except: seq<int>, chunkSize: int, window: int,
                  cachePadding: int, maskPadding: int)
    returns (mask: seq<seq<bool>>)
    requires batch.Valid() && cachePadding >= 1 && maskPadding >= 1
    requires AlignedRange(range, cells, batch, window, cachePadding)
    ensures ExactMask(mask, range, cells, batch, except, chunkSize, window, maskPadding)
  {
    var n := batch.Size();
    var batchSize := RoundUp(n, maskPadding);
    RoundUpBounds(n, maskPadding);
    RoundUpZero(maskPadding);
    var length := range.max - range.min + 1;
    mask := BuildRows(cells, batch, range, except, chunkSize, window);
    if n > 0 {
      mask := mask + seq(batchSize - n, _ => seq(length, _ => false));
    }
  }

  // ----- Whole calls on values -----

  /** What a pass does to cells and rows: it fails exactly when eviction leaves too few free cells. */
  ghost predicate Stepped(cells: seq<Cell>, rows: seq<Row>, b: Batch, memory: int, o: Outcome, loc: int, c: seq<Cell>,
                          rw: seq<Row>)
    requires b.Valid()
  {
    && (o == Ok || o == Err(KvCacheFull)) && (o.Ok? <==> Fits(cells, b, memory))
    && Forwarded(cells, b, memory, o.Ok?, loc, c)
    && rw == RowsAfter(rows, Evict(cells, b, memory), b.Size())
  }

  /** Makes room and writes the batch there. */
  method PlaceBatch(cells: seq<Cell>, ranges: map<int, CellRange>, rows: seq<Row>, b: Batch, window: int, memory: int)
    returns (o: Outcome, loc: int, c: seq<Cell>, r: map<int, CellRange>, rw: seq<Row>, cur: CellRange)
    requires Sound(cells, ranges) && b.Valid() && |rows| == |cells| && window >= 1
    ensures Stepped(cells, rows, b, memory, o, loc, c, rw)
    ensures |c| == |cells| && |rw| == |rows| && Sound(c, r)
    ensures o.Ok? ==> Covers(cur, c, b, window)
    ensures o.Ok? && b.Size() > 0 ==> 0 <= cur.min <= cur.max < |c|
  {
    o, loc, c, r, rw, cur := MakeRoom(cells, ranges, rows, b, window, memory);
    if o.Ok? {
      c, r, cur := StoreBatch(c, r, cur, loc, b, window);
    }
  }

  method StoreBatch(cells: seq<Cell>, ranges: map<int, CellRange>, cur: CellRange, loc: int, b: Batch, window: int)
    returns (c: seq<Cell>, r: map<int, CellRange>, range: CellRange)
    requires Sound(cells, ranges) && b.Valid() && cur.Proper(|cells|) && Covers(cur, cells, b, window)
    requires FreeBlock(cells, loc, b.Size())
    ensures c == WriteAt(cells, loc, BatchCells(b)) && Sound(c, r) && Covers(range, c, b, window)
    ensures b.Size() > 0 ==> 0 <= range.min <= range.max < |c|
  {
    c, r, range := WriteBatch(cells, ranges, cur, loc, b);
    assert b.Size() > 0 ==> range.Has(loc);
    StoredCovers(cells, c, cur, range, loc, b, window);
  }

  lemma StoredCovers(cells: seq<Cell>, c: seq<Cell>, cur: CellRange, range: CellRange, loc: int, b: Batch, window: int)
    requires b.Valid() && FreeBlock(cells, loc, b.Size()) && c == WriteAt(cells, loc, BatchCells(b))
    requires Covers(cur, cells, b, window)
    requires forall i | cur.Has(i) :: range.Has(i)
    requires forall i | loc <= i < loc + b.Size() :: range.Has(i)
    ensures Covers(range, c, b, window)
  {
    forall t, i | 0 <= t < b.Size() && 0 <= i < |c| && c[i].Holds(b.sequences[t]) && c[i].pos >= b.positions[t] - window
      ensures range.Has(i)
    {
      if !(loc <= i < loc + b.Size()) {
        assert c[i] == cells[i] && cur.Has(i);
      }
    }
  }

  /** What a removal does. It is refused exactly when a cell that would have to move is shared; then the cells before
      the first such one have been treated already, and no key is turned. Otherwise exactly the positions in the
      interval are dropped and the later ones lowered; on success exactly the keys that moved are turned, without a
      shift function none, and after a failed shift those of the batches before. No other sequence's cells or rows
      change on any exit. */
  ghost predicate Removal(cells: seq<Cell>, rows: seq<Row>, s: int, begin: int, end: int, o: Outcome, c: seq<Cell>,
                          rw: seq<Row>) {
    && |c| == |cells| == |rows| == |rw| && o != Err(KvCacheFull)
    && OthersUntouched(cells, c, s) && OthersRowsKept(c, rows, rw, s)
    && (o == Err(SharedCells) <==> SharedTail(cells, s, end))
    && c == RemovedTo(cells, s, begin, end, FirstShared(cells, s, end, 0))
    && (o != Err(SharedCells) ==> c == RemovedAll(cells, s, begin, end))
    && (o == Err(SharedCells) || o == Err(NotSupported) || end == MAX_INT32 ==> rw == rows)
    && (o.Ok? && end != MAX_INT32 ==> rw == Rotated(rows, c, s, begin, Offset(begin, end), 0, |rows|))
    && (o == Err(ShiftFailed) ==> exists n :: rw == Rotated(rows, c, s, begin, Offset(begin, end), 0, n))
  }

  /** The removal on the cells, the index and the rows. */
  method RemoveRange(cells: seq<Cell>, ranges: map<int, CellRange>, rows: seq<Row>, s: int, begin: int, end: int,
                     hasShift: bool, maxBatch: int, shiftErrors: set<int>)
    returns (o: Outcome, c: seq<Cell>, r: map<int, CellRange>, rw: seq<Row>)
    requires Sound(cells, ranges) && |rows| == |cells| && 0 <= begin <= end <= MAX_INT32 && maxBatch >= 1
    ensures Removal(cells, rows, s, begin, end, o, c, rw) && Sound(c, r)
    ensures end == MAX_INT32 || (hasShift && shiftErrors == {}) ==> o == Ok || o == Err(SharedCells)
  {
    var range;
    rw, r := rows, ranges;
    o, c, range := RemoveScan(cells, s, begin, end);
    RemoveSound(cells, c, ranges, s, range, o.Ok?);
    if o.Err? {
      return;
    }
    RemovedOthers(cells, s, begin, end);
    if range == NEW_RANGE {
      r := ranges - {s};
      NothingRotated(rows, c, s, begin, Offset(begin, end));
      return;
    }
    r := ranges[s := range];
    if end != MAX_INT32 {
      if !hasShift {
        return Err(NotSupported), c, r, rw;
      }
      o, rw := ShiftRows(c, rows, range, s, end + Offset(begin, end), Offset(begin, end), maxBatch, shiftErrors);
    }
  }

  lemma NothingRotated(rows: seq<Row>, c: seq<Cell>, s: int, begin: int, offset: int)
    requires |c| == |rows| && InRange(c, s, NEW_RANGE)
    ensures Rotated(rows, c, s, begin, offset, 0, |rows|) == rows
  {
  }

  /** A cell of s that would be lowered lies among the first k. */
  ghost predicate TailBelow(cells: seq<Cell>, s: int, end: int, k: int) {
    exists i | 0 <= i < |cells| && i < k :: InTail(cells[i], s, end)
  }

  /** With no key turned, rotation matches position after the first k cells have been treated exactly when nothing was
      lowered. */
  lemma UnturnedExactly(cells: seq<Cell>, rows: seq<Row>, s: int, begin: int, end: int, k: int)
    requires 0 <= begin <= end < MAX_INT32 && DefragRows.Turned(cells, rows, Rotation)
    ensures DefragRows.Turned(RemovedTo(cells, s, begin, end, k), rows, Rotation) <==>
            begin == end || !TailBelow(cells, s, end, k)
  {
    var c := RemovedTo(cells, s, begin, end, k);
    if begin < end && TailBelow(cells, s, end, k) {
      var i :| 0 <= i < |cells| && i < k && InTail(cells[i], s, end);
      assert !c[i].Free() && c[i].pos == cells[i].pos + begin - end;
    } else {
      assert forall i | 0 <= i < |cells| && !c[i].Free() :: !cells[i].Free() && c[i].pos == cells[i].pos;
    }
  }

  /** A removal from the middle that was given up before any key was turned. */
  ghost predicate Unshifted(o: Outcome, end: int) {
    end < MAX_INT32 && (o == Err(SharedCells) || o == Err(NotSupported))
  }

  lemma RemovalKeepsTurned(cells: seq<Cell>, rows: seq<Row>, s: int, begin: int, end: int, o: Outcome, c: seq<Cell>,
                           rw: seq<Row>)
    requires Removal(cells, rows, s, begin, end, o, c, rw) && 0 <= begin <= end <= MAX_INT32 && NonNegative(cells)
    ensures o.Ok? && DefragRows.Turned(cells, rows, Rotation) ==> DefragRows.Turned(c, rw, Rotation)
    ensures DefragRows.Turned(cells, rows, Rotation) && Unshifted(o, end) ==>
      (DefragRows.Turned(c, rw, Rotation) <==> begin == end || !TailBelow(cells, s, end, FirstShared(cells, s, end, 0)))
  {
    if end < MAX_INT32 && DefragRows.Turned(cells, rows, Rotation) {
      UnturnedExactly(cells, rows, s, begin, end, FirstShared(cells, s, end, 0));
    }
  }

  class Cache {
    // configuration, settled at initialisation
    const window: int
    const memory: int
    const chunkSize: int
    const maxBatch: int
    const cachePadding: int
    const maskPadding: int
    const hasShift: bool
    // the current forward pass
    var curLoc: int
    var batch: Batch
    var curMask: seq<seq<bool>>
    var curCellRange: CellRange
    var except: seq<int>
    // metadata
    var cells: seq<Cell>
    var cellRanges: map<int, CellRange>
    // data
    var rows: seq<Row>

    /** An initialised cache: all cells free, and sized for what was asked for. */
    constructor (windowSize: int, memorySize: int, chunkSize: int, hasShift: bool, maxSequences: int, capacity: int,
                 maxBatch: int, cachePadding: int, maskPadding: int)
      requires 0 <= windowSize <= MAX_INT32 && 0 <= memorySize <= MAX_INT32
      requires maxSequences >= 1 && capacity >= 1 && maxBatch >= 1 && cachePadding >= 0 && maskPadding >= 0
      requires var r := InitSizes(windowSize, memorySize, maxSequences, capacity, maxBatch, OrOne(cachePadding));
               r.Some? && r.value.cells <= MAX_INT
      ensures Valid() && RotationsMatch() && cellRanges == map[]
      ensures SizedFor(windowSize, memorySize, maxSequences, capacity, maxBatch, this.cachePadding,
                       window, memory, |cells|)
      ensures this.chunkSize == chunkSize && this.hasShift == hasShift && this.maxBatch == maxBatch
      ensures this.cachePadding == (if cachePadding == 0 then 1 else cachePadding)
      ensures this.maskPadding == (if maskPadding == 0 then 1 else maskPadding)
      ensures forall i | 0 <= i < |cells| :: cells[i] == EMPTY_CELL
    {
      var padding := OrOne(cachePadding);
      InitRoom(windowSize, memorySize, maxSequences, capacity, maxBatch, padding);
      InitPositive(windowSize, memorySize, maxSequences, capacity, maxBatch, padding);
      var sizes := InitSizes(windowSize, memorySize, maxSequences, capacity, maxBatch, padding).value;
      this.window, this.memory, this.chunkSize, this.hasShift := sizes.window, sizes.memory, chunkSize, hasShift;
      this.maxBatch, this.cachePadding, this.maskPadding := maxBatch, padding, OrOne(maskPadding);
      curLoc, batch, curMask, curCellRange, except := 0, Batch([], []), [], NEW_RANGE, [];
      cells := seq(sizes.cells, _ => EMPTY_CELL);
      cellRanges := map[];
      rows := seq(sizes.cells, _ => Row(0, 0));
    }

    ghost predicate Configured()
      reads this
    {
      && 1 <= window <= memory <= MAX_INT32
      && maxBatch >= 1 && cachePadding >= 1 && maskPadding >= 1
      && 1 <= |cells| == |rows| <= MAX_INT
      && Multiple(|cells|, cachePadding)
    }

    ghost predicate Valid()
      reads this
    {
      Configured() && Sound(cells, cellRanges) && batch.Valid()
    }

    /** Key rotation equals position for every occupied cell. */
    ghost predicate RotationsMatch()
      reads this
      requires Valid()
    {
      DefragRows.Turned(cells, rows, Rotation)
    }

    /** The mask over the padded range says of each token exactly which cells of the whole cache it
        attends to; the range is in bounds, and padding tokens attend to nothing. */
    ghost predicate MaskExact()
      reads this
      requires Valid()
    {
      ExactMask(curMask, curCellRange, cells, batch, except, chunkSize, window, maskPadding)
    }

    /** The range is aligned at both ends, so building the mask again keeps it. */
    ghost predicate RangeAligned()
      reads this
      requires Valid()
    {
      AlignedRange(curCellRange, cells, batch, window, cachePadding)
    }

    /** Aligns the range and computes which of its cells each token attends to. */
    method BuildMask()
      requires Valid() && Covers(curCellRange, cells, batch, window)
      requires batch.Size() > 0 ==> 0 <= curCellRange.min <= curCellRange.max < |cells|
      modifies this`curCellRange, this`curMask
      ensures RangeAligned() && MaskExact()
      ensures old(RangeAligned()) ==> curCellRange == old(curCellRange)
      ensures old(curCellRange).min - cachePadding < curCellRange.min <= old(curCellRange).min
      ensures old(curCellRange).max <= curCellRange.max < old(curCellRange).max + cachePadding
    {
      curCellRange := AlignRange(curCellRange, cells, batch, window, cachePadding);
      curMask := MaskOver(curCellRange, cells, batch, except, chunkSize, window, cachePadding, maskPadding);
    }

    /** A pass that stores its batch: room is made, and the batch is written to the block found. */
    method Forward(b: Batch) returns (r: Outcome)
      requires Valid() && b.Valid()
      modifies this`batch, this`except, this`curLoc, this`curCellRange, this`curMask,
               this`cells, this`cellRanges, this`rows
      ensures Valid() && batch == b && except == []
      ensures Stepped(old(cells), old(rows), b, memory, r, curLoc, cells, rows)
      ensures r.Ok? ==> RangeAligned() && MaskExact()
    {
      r := Place(b);
      if r.Ok? {
        BuildMask();
      }
    }

    /** Everything but the mask. */
    method Place(b: Batch) returns (r: Outcome)
      requires Valid() && b.Valid()
      modifies this`batch, this`except, this`curLoc, this`curCellRange, this`cells, this`cellRanges, this`rows
      ensures Valid() && batch == b && except == []
      ensures Stepped(old(cells), old(rows), b, memory, r, curLoc, cells, rows)
      ensures r.Ok? ==> Covers(curCellRange, cells, b, window)
      ensures r.Ok? && b.Size() > 0 ==> 0 <= curCellRange.min <= curCellRange.max < |cells|
    {
      var loc, c, rs, rw, cur;
      r, loc, c, rs, rw, cur := PlaceBatch(cells, cellRanges, rows, b, window, memory);
      batch, except, curLoc, cells, cellRanges, rows, curCellRange := b, [], loc, c, rs, rw, cur;
    }

    /** A pass that only reserves memory: the whole cache, no metadata touched. */
    method Reserve(b: Batch)
      requires Valid() && b.Valid()
      modifies this`batch, this`except, this`curLoc, this`curCellRange, this`curMask
      ensures Valid() && batch == b && except == [] && curLoc == 0
      ensures RangeAligned() && MaskExact() && curCellRange.min <= 0 && |cells| - 1 <= curCellRange.max
    {
      batch, except, curLoc, curCellRange := b, [], 0, CellRange(0, |cells| - 1);
      BuildMask();
    }

    /** Starts a forward pass. The batch goes to the first block that is long enough once eviction, and
        if need be defragmentation, has made room; it fails exactly when eviction leaves too few free
        cells. A reserving pass changes no metadata. */
    method StartForward(b: Batch, reserve: bool) returns (r: Outcome)
      requires Valid() && b.Valid()
      modifies this`batch, this`except, this`curLoc, this`curCellRange, this`curMask,
               this`cells, this`cellRanges, this`rows
      ensures Valid() && batch == b && except == []
      ensures reserve ==> r.Ok? && cells == old(cells) && cellRanges == old(cellRanges) && rows == old(rows)
      ensures reserve ==> curLoc == 0 && curCellRange.min <= 0 && |cells| - 1 <= curCellRange.max
      ensures !reserve ==> Stepped(old(cells), old(rows), b, memory, r, curLoc, cells, rows)
      ensures r.Ok? ==> RangeAligned() && MaskExact()
    {
      if reserve {
        Reserve(b);
        return Ok;
      }
      r := Forward(b);
    }

    /** Switches causality off for some tokens. With a context to build it in, the mask is rebuilt:
        the range stays and the mask is exact for the new exceptions. */
    method SetCausal(newExcept: seq<int>, hasContext: bool)
      requires Valid() && RangeAligned() && MaskExact()
      modifies this`except, this`curCellRange, this`curMask
      ensures except == newExcept && curCellRange == old(curCellRange) && RangeAligned()
      ensures hasContext || old(except) == newExcept ==> MaskExact()
      ensures !hasContext ==> curMask == old(curMask)
    {
      if except != newExcept {
        except := newExcept;
        if hasContext {
          BuildMask();
        }
      }
    }

    /** Stores the rows of the current batch; keys carry the rotation of their position. */
    method Put(data: seq<int>)
      requires Valid() && |data| == batch.Size() && 0 <= curLoc && curLoc + |data| <= |rows|
      modifies this`rows
      ensures Valid()
      ensures |rows| == |old(rows)|
      ensures Stored(rows, curLoc, data, batch) && Elsewhere(old(rows), rows, curLoc, |data|)
    {
      var positions := batch.positions;
      rows := rows[..curLoc] + seq(|data|, i requires 0 <= i < |data| => Row(data[i], positions[i]))
              + rows[curLoc + |data|..];
    }

    /** A whole pass: the batch is placed and its rows are stored. Key rotation stays equal to position for every
        occupied cell exactly if each hole gets a row with the right rotation: so it does if making room keeps rows
        with their cells, and only then if moved cells differ in position. */
    method Pass(b: Batch, data: seq<int>) returns (r: Outcome)
      requires Valid() && b.Valid() && |data| == b.Size()
      modifies this`batch, this`except, this`curLoc, this`curCellRange, this`curMask,
               this`cells, this`cellRanges, this`rows
      ensures Valid() && batch == b
      ensures r.Ok? <==> Fits(old(cells), b, memory)
      ensures Forwarded(old(cells), b, memory, r.Ok?, curLoc, cells)
      ensures r.Ok? ==> Stored(rows, curLoc, data, b)
      ensures old(RotationsMatch()) ==>
        (RotationsMatch() <==> RowsTurned(Evict(old(cells), b, memory), old(rows), b.Size()))
      ensures old(RotationsMatch()) && RowsStay(Evict(old(cells), b, memory), b.Size()) ==> RotationsMatch()
      ensures old(RotationsMatch()) && MovesDiffer(Evict(old(cells), b, memory)) ==>
        (RotationsMatch() <==> RowsStay(Evict(old(cells), b, memory), b.Size()))
    {
      ghost var before, was := cells, rows;
      r := Forward(b);
      ghost var moved := rows;
      if r.Ok? {
        Put(data);
      }
      PassKeepsTurned(before, was, b, memory, r.Ok?, curLoc, cells, moved, data, rows);
    }

    /** Lets dst share the first len positions of src, instead of whatever it held. */
    method CopyPrefix(src: int, dst: int, len: int)
      requires Valid()
      modifies this`cells, this`cellRanges
      ensures Valid()
      ensures cells == SharedAll(old(cells), src, dst, len)
      ensures old(RotationsMatch()) ==> RotationsMatch()
    {
      cells, cellRanges := CopyScan(cells, cellRanges, src, dst, len);
    }

    /** Whether a pass may continue s at pos; agrees with a scan of the whole cache. */
    method CanResume(s: int, pos: int) returns (r: bool)
      requires Valid() && 0 <= pos < MAX_INT32
      ensures r <==> Resumable(cells, window, memory, s, pos)
    {
      if memory == MAX_INT32 {
        return true;
      }
      if s !in cellRanges {
        return false;
      }
      var first, last := Extent(cells, cellRanges[s], s);
      if last == -1 {
        return false;
      }
      return Max(0, pos - window) >= first && pos <= last + 1;
    }

    /** Removes positions [begin, end) of s and closes the gap. On success exactly that happens and each
        moved key is turned once by the distance its position moved; whatever the outcome, nothing
        another sequence sees changes. */
    method Remove(s: int, begin: int, end: int, shiftErrors: set<int>) returns (o: Outcome)
      requires Valid() && 0 <= begin <= end <= MAX_INT32
      modifies this`cells, this`cellRanges, this`rows
      ensures Valid()
      ensures Removal(old(cells), old(rows), s, begin, end, o, cells, rows)
      ensures end == MAX_INT32 || (hasShift && shiftErrors == {}) ==> o == Ok || o == Err(SharedCells)
      ensures o.Ok? && old(RotationsMatch()) ==> RotationsMatch()
      ensures (o == Err(SharedCells) || o == Err(NotSupported)) && end < MAX_INT32 && old(RotationsMatch()) ==>
        (RotationsMatch() <==> begin == end || !TailBelow(old(cells), s, end, FirstShared(old(cells), s, end, 0)))
    {
      ghost var before, was := cells, rows;
      o, cells, cellRanges, rows :=
        RemoveRange(cells, cellRanges, rows, s, begin, end, hasShift, maxBatch, shiftErrors);
      RemovalKeepsTurned(before, was, s, begin, end, o, cells, rows);
    }
  }
}
