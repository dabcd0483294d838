/** The metadata of the causal KV cache as plain values: cells, the per-sequence
    range index, and what eviction and prefix removal mean on them. */
module KvCells {
  import opened Prelude

  /** One slot of the cache: a position and the sequences that refer to it.
      A slot that no sequence refers to is free, whatever its position says. */
  datatype Cell = Cell(pos: int, sequences: set<int>) {
    predicate Free() {
      sequences == {}
    }

    predicate Holds(s: int) {
      s in sequences
    }
  }

  const EMPTY_CELL := Cell(0, {})

  /** An inclusive range of locations; min > max means nothing. */
  datatype CellRange = CellRange(min: int, max: int) {
    predicate Has(i: int) {
      min <= i <= max
    }

    /** Either nothing yet, or a nonempty range of locations below n. */
    predicate Proper(n: int) {
      this == NEW_RANGE || 0 <= min <= max < n
    }

    function Grow(i: int): CellRange {
      CellRange(Min(min, i), Max(max, i))
    }
  }

  const NEW_RANGE := CellRange(MAX_INT, 0)

  /** The tokens of one forward pass: token i is position positions[i] of sequence sequences[i]. */
  datatype Batch = Batch(sequences: seq<int>, positions: seq<int>) {
    predicate Valid() {
      && |sequences| == |positions|
      && forall i | 0 <= i < |positions| :: 0 <= positions[i] < MAX_INT32
    }

    function Size(): nat {
      |positions|
    }

    predicate Has(s: int, p: int)
      requires Valid()
    {
      exists i | 0 <= i < |positions| :: sequences[i] == s && positions[i] == p
    }

    /** The lowest position the batch has for sequence s among its first n tokens. */
    function LowestIn(s: int, n: nat): Option<int>
      requires Valid() && n <= Size()
    {
      if n == 0 then None
      else
        var before := LowestIn(s, n - 1);
        if sequences[n - 1] != s then before
        else if before.None? || positions[n - 1] < before.value then Some(positions[n - 1])
        else before
    }

    lemma {:induction false} LowestInMeaning(s: int, n: nat)
      requires Valid() && n <= Size()
      ensures LowestIn(s, n).None? <==> forall i | 0 <= i < n :: sequences[i] != s
      ensures LowestIn(s, n).Some? ==>
                && (exists i | 0 <= i < n :: sequences[i] == s && positions[i] == LowestIn(s, n).value)
                && (forall i | 0 <= i < n && sequences[i] == s :: LowestIn(s, n).value <= positions[i])
    {
      if n > 0 {
        LowestInMeaning(s, n - 1);
      }
    }

    function Lowest(s: int): Option<int>
      requires Valid()
    {
      LowestIn(s, Size())
    }
  }

  // ----- Views: what a sequence can find in the cache -----

  function Positions(cells: seq<Cell>, s: int): set<int> {
    set i | 0 <= i < |cells| && cells[i].Holds(s) :: cells[i].pos
  }

  /** Two different cells never hold the same position of the same sequence. */
  ghost predicate OneCellPerPosition(cells: seq<Cell>) {
    forall i, j, s | 0 <= i < j < |cells| && cells[i].Holds(s) && cells[j].Holds(s) ::
      cells[i].pos != cells[j].pos
  }

  ghost predicate NonNegative(cells: seq<Cell>) {
    forall i | 0 <= i < |cells| :: 0 <= cells[i].pos < MAX_INT32
  }

  /** The range index is sound: a cell held by s lies inside the range recorded for s. */
  ghost predicate Indexed(cells: seq<Cell>, ranges: map<int, CellRange>) {
    && (forall i, s | 0 <= i < |cells| && cells[i].Holds(s) :: s in ranges && ranges[s].Has(i))
    && forall s | s in ranges :: ranges[s].Proper(|cells|)
  }

  // ----- The largest position of a sequence, as a full scan -----

  /** Largest position of s in the first n cells, and 0 when it has none. */
  function LastPosIn(cells: seq<Cell>, s: int, n: nat): int
    requires n <= |cells|
  {
    if n == 0 then 0
    else
      var before := LastPosIn(cells, s, n - 1);
      if cells[n - 1].Holds(s) then Max(before, cells[n - 1].pos) else before
  }

  function LastPos(cells: seq<Cell>, s: int): int {
    LastPosIn(cells, s, |cells|)
  }

  lemma {:induction false} LastPosMeaning(cells: seq<Cell>, s: int, n: nat)
    requires n <= |cells|
    ensures 0 <= LastPosIn(cells, s, n)
    ensures forall i | 0 <= i < n && cells[i].Holds(s) :: cells[i].pos <= LastPosIn(cells, s, n)
    ensures LastPosIn(cells, s, n) == 0 ||
            exists i | 0 <= i < n :: cells[i].Holds(s) && cells[i].pos == LastPosIn(cells, s, n)
  {
    if n > 0 {
      LastPosMeaning(cells, s, n - 1);
    }
  }

  /** Cells without s do not matter, so a scan may start at the first and stop after the last one with s. */
  lemma {:induction false} LastPosSkips(cells: seq<Cell>, s: int, a: nat, b: nat)
    requires a <= b <= |cells|
    requires forall i | a <= i < b :: !cells[i].Holds(s)
    ensures LastPosIn(cells, s, a) == LastPosIn(cells, s, b)
  {
    if a < b {
      LastPosSkips(cells, s, a, b - 1);
    }
  }

  // ----- Eviction -----

  /** The position from which the memory window of s is counted: the lowest position of s in
      the batch, or the position after its last one when the batch does not touch s. */
  function LowestNeeded(cells: seq<Cell>, batch: Batch, s: int): int
    requires batch.Valid()
  {
    match batch.Lowest(s)
    case Some(p) => p
    case None => LastPos(cells, s) + 1
  }

  function Kept(cells: seq<Cell>, batch: Batch, memory: int, i: nat): set<int>
    requires batch.Valid() && i < |cells|
  {
    set s | s in cells[i].sequences && cells[i].pos >= LowestNeeded(cells, batch, s) - memory
  }

  /** Sliding-window eviction as a full scan over cells and sequences. */
  function Evict(cells: seq<Cell>, batch: Batch, memory: int): (r: seq<Cell>)
    requires batch.Valid()
    ensures |r| == |cells|
  {
    if memory == MAX_INT32 then cells
    else seq(|cells|, i requires 0 <= i < |cells| => Cell(cells[i].pos, Kept(cells, batch, memory, i)))
  }

  // ----- Occupied cells: what relocation must preserve -----

  /** The two caches have the same occupied cells, each the same number of times. */
  ghost predicate SameOccupied(a: seq<Cell>, b: seq<Cell>) {
    forall c: Cell :: !c.Free() ==> multiset(a)[c] == multiset(b)[c]
  }

  function FreeCount(cells: seq<Cell>): nat {
    if cells == [] then 0
    else FreeCount(cells[..|cells| - 1]) + if cells[|cells| - 1].Free() then 1 else 0
  }

  lemma {:induction false} FreeCountUpdate(cells: seq<Cell>, i: nat, c: Cell)
    requires i < |cells|
    ensures FreeCount(cells[i := c]) ==
            FreeCount(cells) + (if c.Free() then 1 else 0) - (if cells[i].Free() then 1 else 0)
  {
    var n := |cells| - 1;
    var after := cells[i := c];
    if i == n {
      assert after[..n] == cells[..n];
    } else {
      assert after[..n] == cells[..n][i := c];
      FreeCountUpdate(cells[..n], i, c);
    }
  }

  lemma SameOccupiedFind(a: seq<Cell>, b: seq<Cell>, i: nat) returns (j: nat)
    requires SameOccupied(a, b) && i < |a| && !a[i].Free()
    ensures j < |b| && b[j] == a[i]
  {
    assert a[i] in multiset(a);
    assert a[i] in multiset(b);
    j :| j < |b| && b[j] == a[i];
  }

  /** Caches with the same occupied cells show every sequence the same positions. */
  lemma SameOccupiedSamePositions(a: seq<Cell>, b: seq<Cell>, s: int)
    requires SameOccupied(a, b)
    ensures Positions(a, s) == Positions(b, s)
  {
    PositionsWithin(a, b, s);
    PositionsWithin(b, a, s);
  }

  lemma PositionsWithin(a: seq<Cell>, b: seq<Cell>, s: int)
    requires SameOccupied(a, b)
    ensures Positions(a, s) <= Positions(b, s)
  {
    forall p | p in Positions(a, s)
      ensures p in Positions(b, s)
    {
      var i :| 0 <= i < |a| && a[i].Holds(s) && a[i].pos == p;
      var j := SameOccupiedFind(a, b, i);
    }
  }

  /** Evicting again after the occupied cells have been rearranged removes nothing more. */
  lemma EvictSettles(cells: seq<Cell>, moved: seq<Cell>, batch: Batch, memory: int)
    requires batch.Valid()
    requires SameOccupied(moved, Evict(cells, batch, memory))
    ensures Evict(moved, batch, memory) == moved
  {
    if memory != MAX_INT32 {
      var kept := Evict(cells, batch, memory);
      forall i, s | 0 <= i < |moved| && moved[i].Holds(s)
        ensures moved[i].pos >= LowestNeeded(moved, batch, s) - memory
      {
        var j := SameOccupiedFind(moved, kept, i);
        LastPosShrinks(cells, kept, moved, s);
      }
      forall i | 0 <= i < |moved|
        ensures Evict(moved, batch, memory)[i] == moved[i]
      {
        assert Kept(moved, batch, memory, i) == moved[i].sequences;
      }
    }
  }

  lemma LastPosShrinks(cells: seq<Cell>, kept: seq<Cell>, moved: seq<Cell>, s: int)
    requires |kept| == |cells|
    requires forall i | 0 <= i < |cells| :: kept[i].pos == cells[i].pos && kept[i].sequences <= cells[i].sequences
    requires SameOccupied(moved, kept)
    ensures LastPos(moved, s) <= LastPos(cells, s)
  {
    var last := LastPos(moved, s);
    LastPosMeaning(moved, s, |moved|);
    LastPosMeaning(cells, s, |cells|);
    if last != 0 {
      var i :| 0 <= i < |moved| && moved[i].Holds(s) && moved[i].pos == last;
      var j := SameOccupiedFind(moved, kept, i);
      assert cells[j].Holds(s);
    }
  }
}
