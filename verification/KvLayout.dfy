/** Where cells go: first-fit blocks, the defragmentation moves, and the row copies that
    the moves are batched into. */
module KvLayout {
  import opened KvCells

  // ----- Free blocks -----

  ghost predicate FreeBlock(cells: seq<Cell>, start: int, n: int) {
    0 <= start && start + n <= |cells| && forall i | start <= i < start + n :: cells[i].Free()
  }

  lemma {:induction false} BlockNeedsFree(cells: seq<Cell>, start: int, n: nat)
    requires FreeBlock(cells, start, n)
    ensures FreeCount(cells) >= n
  {
    if cells != [] && n > 0 {
      var shorter := cells[..|cells| - 1];
      if start + n == |cells| {
        assert cells[|cells| - 1].Free();
        BlockNeedsFree(shorter, start, n - 1);
      } else {
        BlockNeedsFree(shorter, start, n);
      }
    }
  }

  /** Every occupied cell comes before every free one. */
  ghost predicate Packed(cells: seq<Cell>) {
    forall i, j | 0 <= i < j < |cells| :: cells[i].Free() ==> cells[j].Free()
  }

  lemma {:induction false} PackedHasBlock(cells: seq<Cell>, n: nat)
    requires Packed(cells) && FreeCount(cells) >= n
    ensures FreeBlock(cells, |cells| - n, n)
  {
    if n > 0 && cells != [] {
      var last := |cells| - 1;
      if !cells[last].Free() {
        NoneFree(cells);
        assert false;
      }
      PackedHasBlock(cells[..last], n - 1);
    }
  }

  lemma {:induction false} NoneFree(cells: seq<Cell>)
    requires forall i | 0 <= i < |cells| :: !cells[i].Free()
    ensures FreeCount(cells) == 0
  {
    if cells != [] {
      NoneFree(cells[..|cells| - 1]);
    }
  }

  // ----- Writing a batch -----

  function BatchCells(batch: Batch): (r: seq<Cell>)
    requires batch.Valid()
    ensures |r| == batch.Size()
  {
    seq(batch.Size(), i requires 0 <= i < batch.Size() => Cell(batch.positions[i], {batch.sequences[i]}))
  }

  function WriteAt(cells: seq<Cell>, loc: nat, written: seq<Cell>): (r: seq<Cell>)
    requires loc + |written| <= |cells|
    ensures |r| == |cells|
  {
    cells[..loc] + written + cells[loc + |written|..]
  }

  // ----- Defragmentation -----

  datatype Move = Move(src: int, dst: int)

  /** The moves the two-pointer scan makes when it fills holes from dst up with cells from src down. */
  function Moves(cells: seq<Cell>, dst: nat, src: int): (r: seq<Move>)
    requires src < |cells|
    ensures forall k | 0 <= k < |r| :: dst <= r[k].dst < r[k].src <= src
    decreases src - dst
  {
    if dst >= src then []
    else if !cells[dst].Free() then Moves(cells, dst + 1, src)
    else if cells[src].Free() then Moves(cells, dst, src - 1)
    else [Move(src, dst)] + Moves(cells, dst + 1, src - 1)
  }

  /** The holes go up and the cells come down. */
  ghost predicate Ordered(moves: seq<Move>) {
    forall k, l | 0 <= k < l < |moves| :: moves[k].dst < moves[l].dst && moves[l].src < moves[k].src
  }

  lemma {:induction false} MovesOrdered(cells: seq<Cell>, dst: nat, src: int)
    requires src < |cells|
    ensures Ordered(Moves(cells, dst, src))
    decreases src - dst
  {
    if dst < src {
      if !cells[dst].Free() {
        MovesOrdered(cells, dst + 1, src);
      } else if cells[src].Free() {
        MovesOrdered(cells, dst, src - 1);
      } else {
        MovesOrdered(cells, dst + 1, src - 1);
        OrderedNext(Move(src, dst), Moves(cells, dst + 1, src - 1));
      }
    }
  }

  lemma OrderedNext(m: Move, rest: seq<Move>)
    requires Ordered(rest) && forall k | 0 <= k < |rest| :: m.dst < rest[k].dst && rest[k].src < m.src
    ensures Ordered([m] + rest)
  {
  }

  /** Only occupied cells are moved. */
  ghost predicate FromOccupied(cells: seq<Cell>, moves: seq<Move>) {
    forall k | 0 <= k < |moves| :: 0 <= moves[k].src < |cells| && !cells[moves[k].src].Free()
  }

  lemma {:induction false} MovesFromOccupied(cells: seq<Cell>, dst: nat, src: int)
    requires src < |cells|
    ensures FromOccupied(cells, Moves(cells, dst, src))
    decreases src - dst
  {
    if dst < src {
      if !cells[dst].Free() {
        MovesFromOccupied(cells, dst + 1, src);
      } else if cells[src].Free() {
        MovesFromOccupied(cells, dst, src - 1);
      } else {
        MovesFromOccupied(cells, dst + 1, src - 1);
        FromOccupiedNext(cells, Move(src, dst), Moves(cells, dst + 1, src - 1));
      }
    }
  }

  lemma FromOccupiedNext(cells: seq<Cell>, m: Move, rest: seq<Move>)
    requires FromOccupied(cells, rest) && 0 <= m.src < |cells| && !cells[m.src].Free()
    ensures FromOccupied(cells, [m] + rest)
  {
  }

  function ApplyMove(cells: seq<Cell>, m: Move): seq<Cell>
    requires 0 <= m.src < |cells| && 0 <= m.dst < |cells|
  {
    cells[m.dst := cells[m.src]][m.src := EMPTY_CELL]
  }

  function ApplyMoves(cells: seq<Cell>, moves: seq<Move>): (r: seq<Cell>)
    requires forall k | 0 <= k < |moves| :: 0 <= moves[k].src < |cells| && 0 <= moves[k].dst < |cells|
    ensures |r| == |cells|
    decreases |moves|
  {
    if moves == [] then cells
    else ApplyMoves(ApplyMove(cells, moves[0]), moves[1..])
  }

  function Defragmented(cells: seq<Cell>): (r: seq<Cell>)
    ensures |r| == |cells|
  {
    ApplyMoves(cells, Moves(cells, 0, |cells| - 1))
  }

  lemma {:induction false} MovesFrame(a: seq<Cell>, b: seq<Cell>, dst: nat, src: int)
    requires src < |a| && |a| == |b|
    requires forall i | dst <= i <= src :: a[i].Free() == b[i].Free()
    ensures Moves(a, dst, src) == Moves(b, dst, src)
    decreases src - dst
  {
    if dst < src {
      if !a[dst].Free() {
        MovesFrame(a, b, dst + 1, src);
      } else if a[src].Free() {
        MovesFrame(a, b, dst, src - 1);
      } else {
        MovesFrame(a, b, dst + 1, src - 1);
      }
    }
  }

  /** A free cell at the top contributes no move. */
  lemma {:induction false} MovesSkipFreeTop(cells: seq<Cell>, dst: nat, src: int)
    requires 0 <= src < |cells| && cells[src].Free()
    ensures Moves(cells, dst, src) == Moves(cells, dst, src - 1)
    decreases src - dst
  {
    if dst < src && !cells[dst].Free() {
      MovesSkipFreeTop(cells, dst + 1, src);
    }
  }

  lemma MoveStep(cells: seq<Cell>, dst: nat, src: int)
    requires dst < src < |cells| && cells[dst].Free() && !cells[src].Free()
    ensures var next := ApplyMove(cells, Move(src, dst));
            Moves(cells, dst, src) == [Move(src, dst)] + Moves(next, dst + 1, src)
  {
    var next := ApplyMove(cells, Move(src, dst));
    MovesSkipFreeTop(next, dst + 1, src);
    MovesFrame(cells, next, dst + 1, src - 1);
  }

  lemma MoveKeepsOccupied(cells: seq<Cell>, m: Move)
    requires 0 <= m.dst < m.src < |cells| && cells[m.dst].Free() && !cells[m.src].Free()
    ensures SameOccupied(cells, ApplyMove(cells, m))
    ensures FreeCount(ApplyMove(cells, m)) == FreeCount(cells)
  {
    FreeCountUpdate(cells, m.dst, cells[m.src]);
    FreeCountUpdate(cells[m.dst := cells[m.src]], m.src, EMPTY_CELL);
  }

  /** The scan has filled everything below dst and emptied everything above src. */
  ghost predicate Scanned(cells: seq<Cell>, dst: nat, src: int) {
    && src < |cells| && dst <= src + 1
    && (forall i | 0 <= i < dst :: !cells[i].Free())
    && (forall i | src < i < |cells| :: cells[i].Free())
  }

  lemma MovesUnfold(cells: seq<Cell>, dst: nat, src: int)
    requires dst < src < |cells| && cells[dst].Free() && !cells[src].Free()
    ensures var next := ApplyMove(cells, Move(src, dst));
            ApplyMoves(cells, Moves(cells, dst, src)) == ApplyMoves(next, Moves(next, dst + 1, src))
  {
    MoveStep(cells, dst, src);
    var next := ApplyMove(cells, Move(src, dst));
    assert Moves(cells, dst, src)[1..] == Moves(next, dst + 1, src);
  }

  ghost predicate PackedFrom(cells: seq<Cell>, r: seq<Cell>) {
    Packed(r) && SameOccupied(cells, r) && FreeCount(r) == FreeCount(cells)
  }

  lemma PackedFromMove(cells: seq<Cell>, m: Move, r: seq<Cell>)
    requires 0 <= m.dst < m.src < |cells| && cells[m.dst].Free() && !cells[m.src].Free()
    requires PackedFrom(ApplyMove(cells, m), r)
    ensures PackedFrom(cells, r)
  {
    MoveKeepsOccupied(cells, m);
  }

  /** The cells when the scan is over, one pointer step at a time. */
  function Filled(cells: seq<Cell>, dst: nat, src: int): seq<Cell>
    requires src < |cells|
    decreases src - dst
  {
    if dst >= src then cells
    else if !cells[dst].Free() then Filled(cells, dst + 1, src)
    else if cells[src].Free() then Filled(cells, dst, src - 1)
    else Filled(ApplyMove(cells, Move(src, dst)), dst + 1, src)
  }

  lemma {:induction false} FilledIsMoved(cells: seq<Cell>, dst: nat, src: int)
    requires src < |cells|
    ensures Filled(cells, dst, src) == ApplyMoves(cells, Moves(cells, dst, src))
    decreases src - dst
  {
    if dst < src {
      if !cells[dst].Free() {
        FilledIsMoved(cells, dst + 1, src);
      } else if cells[src].Free() {
        FilledIsMoved(cells, dst, src - 1);
      } else {
        MovesUnfold(cells, dst, src);
        FilledIsMoved(ApplyMove(cells, Move(src, dst)), dst + 1, src);
      }
    }
  }

  lemma {:induction false} DefragPacksFrom(cells: seq<Cell>, dst: nat, src: int, r: seq<Cell>)
    requires Scanned(cells, dst, src) && r == Filled(cells, dst, src)
    ensures PackedFrom(cells, r)
    decreases src - dst
  {
    if dst >= src {
      ScannedPacked(cells, dst, src);
    } else if !cells[dst].Free() {
      DefragPacksFrom(cells, dst + 1, src, r);
    } else if cells[src].Free() {
      DefragPacksFrom(cells, dst, src - 1, r);
    } else {
      var m := Move(src, dst);
      ScannedMove(cells, dst, src);
      DefragPacksFrom(ApplyMove(cells, m), dst + 1, src, r);
      PackedFromMove(cells, m, r);
    }
  }

  lemma ScannedPacked(cells: seq<Cell>, dst: nat, src: int)
    requires Scanned(cells, dst, src) && dst >= src
    ensures PackedFrom(cells, Filled(cells, dst, src))
  {
    assert Filled(cells, dst, src) == cells;
  }

  lemma ScannedMove(cells: seq<Cell>, dst: nat, src: int)
    requires Scanned(cells, dst, src) && dst < src && cells[dst].Free() && !cells[src].Free()
    ensures Scanned(ApplyMove(cells, Move(src, dst)), dst + 1, src)
  {
  }

  /** Defragmentation keeps the multiset of occupied cells and moves each of them before every free cell. */
  lemma DefragPacks(cells: seq<Cell>)
    ensures Packed(Defragmented(cells))
    ensures SameOccupied(cells, Defragmented(cells))
    ensures FreeCount(Defragmented(cells)) == FreeCount(cells)
  {
    FilledIsMoved(cells, 0, |cells| - 1);
    DefragPacksFrom(cells, 0, |cells| - 1, Defragmented(cells));
  }

  // ----- Row copies -----

  /** A pending copy of len rows from src.. to dst.. */
  datatype CopyRun = CopyRun(src: int, dst: int, len: nat)

  const NO_RUN := CopyRun(0, 0, 0)

  function CopyRows<T>(rows: seq<T>, run: CopyRun): (r: seq<T>)
    ensures |r| == |rows|
  {
    seq(|rows|, i requires 0 <= i < |rows| =>
      if run.dst <= i < run.dst + run.len && 0 <= run.src + (i - run.dst) < |rows|
      then rows[run.src + (i - run.dst)] else rows[i])
  }

  predicate Joins(run: CopyRun, m: Move) {
    run.len > 0 && m.src == run.src - run.len && m.dst == run.dst + run.len
  }

  function Join(run: CopyRun, m: Move): CopyRun {
    CopyRun(m.src, run.dst, run.len + 1)
  }

  /** The row copies that a list of moves turns into: a move that joins the pending run is held
      back, any other flushes it. */
  function RunMoves<T>(rows: seq<T>, moves: seq<Move>, run: CopyRun): (r: seq<T>)
    ensures |r| == |rows|
    decreases |moves|
  {
    if moves == [] then CopyRows(rows, run)
    else if Joins(run, moves[0]) then RunMoves(rows, moves[1..], Join(run, moves[0]))
    else RunMoves(CopyRows(rows, run), moves[1..], CopyRun(moves[0].src, moves[0].dst, 1))
  }
}
