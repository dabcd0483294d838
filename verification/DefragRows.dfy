/** Do the rows follow their cells through defragmentation? The moves go down in the source and up
    in the hole, but a batched copy goes up in both, so they do exactly when no two consecutive
    moves are neighbours on both sides. */
module DefragRows {
  import opened KvCells
  import opened KvLayout

  /** What the row copies would do if each followed its move. */
  function FollowMoves<T>(rows: seq<T>, moves: seq<Move>): (r: seq<T>)
    requires forall k | 0 <= k < |moves| :: 0 <= moves[k].src < |rows| && 0 <= moves[k].dst < |rows|
    ensures |r| == |rows|
    decreases |moves|
  {
    if moves == [] then rows
    else FollowMoves(rows[moves[0].dst := rows[moves[0].src]], moves[1..])
  }

  /** Two consecutive moves take neighbouring cells into neighbouring holes. */
  predicate Neighbours(moves: seq<Move>) {
    |moves| >= 2 && (Beside(moves[0], moves[1]) || Neighbours(moves[1..]))
  }

  predicate Beside(a: Move, b: Move) {
    b.src == a.src - 1 && b.dst == a.dst + 1
  }

  /** Holes go up, sources go down, and every hole lies below every source. */
  ghost predicate Converging(moves: seq<Move>, n: int) {
    && (forall k | 0 <= k < |moves| :: 0 <= moves[k].dst && moves[k].src < n)
    && (forall k, l | 0 <= k < |moves| && 0 <= l < |moves| :: moves[k].dst < moves[l].src)
    && Ordered(moves)
  }

  lemma MovesConverge(cells: seq<Cell>)
    ensures Converging(Moves(cells, 0, |cells| - 1), |cells|)
  {
    var moves := Moves(cells, 0, |cells| - 1);
    MovesOrdered(cells, 0, |cells| - 1);
    forall k, l | 0 <= k < |moves| && 0 <= l < |moves|
      ensures moves[k].dst < moves[l].src
    {
      assert moves[l].dst < moves[l].src && moves[k].dst < moves[k].src;
    }
  }

  // ----- Without neighbours, every copy is its move -----

  lemma {:induction false} SinglesFollow<T>(rows: seq<T>, moves: seq<Move>, m: Move)
    requires !Neighbours([m] + moves) && 0 <= m.src < |rows| && 0 <= m.dst < |rows|
    requires forall k | 0 <= k < |moves| :: 0 <= moves[k].src < |rows| && 0 <= moves[k].dst < |rows|
    ensures RunMoves(rows, moves, CopyRun(m.src, m.dst, 1)) == FollowMoves(rows[m.dst := rows[m.src]], moves)
    decreases |moves|
  {
    var run := CopyRun(m.src, m.dst, 1);
    assert CopyRows(rows, run) == rows[m.dst := rows[m.src]];
    if moves != [] {
      assert ([m] + moves)[1..] == moves;
      assert [moves[0]] + moves[1..] == moves;
      SinglesFollow(CopyRows(rows, run), moves[1..], moves[0]);
    }
  }

  lemma AnySinglesFollow<T>(rows: seq<T>, moves: seq<Move>)
    requires !Neighbours(moves)
    requires forall k | 0 <= k < |moves| :: 0 <= moves[k].src < |rows| && 0 <= moves[k].dst < |rows|
    ensures RunMoves(rows, moves, NO_RUN) == FollowMoves(rows, moves)
  {
    assert CopyRows(rows, NO_RUN) == rows;
    if moves != [] {
      assert [moves[0]] + moves[1..] == moves;
      SinglesFollow(rows, moves[1..], moves[0]);
    }
  }

  // ----- A joined run delivers the wrong row to its first hole -----

  lemma {:induction false} RunKeepsBelow<T>(rows: seq<T>, moves: seq<Move>, run: CopyRun, i: nat)
    requires i < |rows| && i < run.dst && forall k | 0 <= k < |moves| :: i < moves[k].dst
    ensures RunMoves(rows, moves, run)[i] == rows[i]
    decreases |moves|
  {
    if moves != [] {
      if Joins(run, moves[0]) {
        RunKeepsBelow(rows, moves[1..], Join(run, moves[0]), i);
      } else {
        RunKeepsBelow(CopyRows(rows, run), moves[1..], CopyRun(moves[0].src, moves[0].dst, 1), i);
      }
    }
  }

  /** The first hole of a pending run receives the row at the run's final, lowest source. */
  lemma {:induction false} RunDelivers<T>(rows: seq<T>, moves: seq<Move>, run: CopyRun) returns (x: int)
    requires run.len > 0 && 0 <= run.dst < run.src < |rows| && Converging(moves, |rows|)
    requires forall k | 0 <= k < |moves| :: run.dst < moves[k].dst && moves[k].src < run.src
    ensures x == run.src || exists k | 0 <= k < |moves| :: moves[k].src == x
    ensures 0 <= x <= run.src
    ensures RunMoves(rows, moves, run)[run.dst] == rows[x]
    decreases |moves|
  {
    x := run.src;
    if moves == [] {
    } else if Joins(run, moves[0]) {
      x := RunDelivers(rows, moves[1..], Join(run, moves[0]));
      if x != moves[0].src {
        var k :| 0 <= k < |moves[1..]| && moves[1..][k].src == x;
        assert moves[k + 1].src == x;
      }
    } else {
      RunKeepsBelow(CopyRows(rows, run), moves[1..], CopyRun(moves[0].src, moves[0].dst, 1), run.dst);
    }
  }

  lemma {:induction false} FollowKeepsBelow<T>(rows: seq<T>, moves: seq<Move>, i: nat)
    requires i < |rows| && forall k | 0 <= k < |moves| :: i < moves[k].dst < |rows| && 0 <= moves[k].src < |rows|
    ensures FollowMoves(rows, moves)[i] == rows[i]
    decreases |moves|
  {
    if moves != [] {
      FollowKeepsBelow(rows[moves[0].dst := rows[moves[0].src]], moves[1..], i);
    }
  }

  /** The rows that moves still have to read are pairwise different. */
  ghost predicate SourcesDiffer<T>(rows: seq<T>, moves: seq<Move>) {
    forall k, l | 0 <= k < l < |moves| && 0 <= moves[k].src < |rows| && 0 <= moves[l].src < |rows| ::
      rows[moves[k].src] != rows[moves[l].src]
  }

  /** A pending move that the next one joins: its hole gets a row that is not its own. */
  lemma JoinMisplaces<T>(rows: seq<T>, moves: seq<Move>)
    requires |moves| >= 2 && Converging(moves, |rows|) && SourcesDiffer(rows, moves) && Beside(moves[0], moves[1])
    ensures RunMoves(rows, moves[1..], CopyRun(moves[0].src, moves[0].dst, 1))[moves[0].dst] != rows[moves[0].src]
  {
    var run := CopyRun(moves[0].src, moves[0].dst, 1);
    var rest := moves[1..];
    TailConverges(moves, |rows|);
    TailConverges(rest, |rows|);
    var joined := Join(run, rest[0]);
    var x := RunDelivers(rows, rest[1..], joined);
    if x == rest[0].src {
      assert rows[moves[0].src] != rows[moves[1].src];
    } else {
      var k :| 0 <= k < |rest[1..]| && rest[1..][k].src == x;
      assert moves[k + 2].src == x;
      assert rows[moves[0].src] != rows[moves[k + 2].src];
    }
  }

  lemma SourcesDifferLater<T>(rows: seq<T>, moves: seq<Move>)
    requires moves != [] && Converging(moves, |rows|) && SourcesDiffer(rows, moves)
    ensures SourcesDiffer(rows[moves[0].dst := rows[moves[0].src]], moves[1..])
  {
    var rest := moves[1..];
    var next := rows[moves[0].dst := rows[moves[0].src]];
    forall k, l | 0 <= k < l < |rest| && 0 <= rest[k].src < |next| && 0 <= rest[l].src < |next|
      ensures next[rest[k].src] != next[rest[l].src]
    {
      assert rest[k] == moves[k + 1] && rest[l] == moves[l + 1];
    }
  }

  /** Some hole gets a row that is not its own. */
  lemma {:induction false} NeighboursMisplace<T>(rows: seq<T>, moves: seq<Move>) returns (k: nat)
    requires Neighbours(moves) && Converging(moves, |rows|) && SourcesDiffer(rows, moves)
    ensures k < |moves| && 0 <= moves[k].dst < |rows|
    ensures RunMoves(rows, moves[1..], CopyRun(moves[0].src, moves[0].dst, 1))[moves[k].dst] !=
            FollowMoves(rows, moves)[moves[k].dst]
    decreases |moves|
  {
    var m, rest := moves[0], moves[1..];
    var next := rows[m.dst := rows[m.src]];
    TailConverges(moves, |rows|);
    if Beside(m, moves[1]) {
      JoinMisplaces(rows, moves);
      FollowKeepsBelow(next, rest, m.dst);
      k := 0;
    } else {
      assert CopyRows(rows, CopyRun(m.src, m.dst, 1)) == next;
      SourcesDifferLater(rows, moves);
      k := NeighboursMisplace(next, rest);
      k := k + 1;
    }
  }

  lemma TailConverges(moves: seq<Move>, n: int)
    requires moves != [] && Converging(moves, n)
    ensures Converging(moves[1..], n)
    ensures forall k | 0 <= k < |moves[1..]| :: moves[0].dst < moves[1..][k].dst && moves[1..][k].src < moves[0].src
  {
    var rest := moves[1..];
    assert forall k | 0 <= k < |rest| :: rest[k] == moves[k + 1];
  }

  // ----- The verdict -----

  /** Rows follow their cells when no two consecutive moves are neighbours, whatever the rows are. */
  lemma RowsFollow<T>(cells: seq<Cell>, rows: seq<T>)
    requires |rows| == |cells|
    requires !Neighbours(Moves(cells, 0, |cells| - 1))
    ensures RunMoves(rows, Moves(cells, 0, |cells| - 1), NO_RUN) == FollowMoves(rows, Moves(cells, 0, |cells| - 1))
  {
    AnySinglesFollow(rows, Moves(cells, 0, |cells| - 1));
  }

  /** The rows of occupied cells are pairwise different; free cells may hold anything. */
  ghost predicate RowsDiffer<T>(cells: seq<Cell>, rows: seq<T>)
    requires |rows| == |cells|
  {
    forall i, j | 0 <= i < j < |cells| && !cells[i].Free() && !cells[j].Free() :: rows[i] != rows[j]
  }

  lemma OccupiedSourcesDiffer<T>(cells: seq<Cell>, rows: seq<T>, moves: seq<Move>)
    requires |rows| == |cells| && RowsDiffer(cells, rows) && FromOccupied(cells, moves) && Ordered(moves)
    ensures SourcesDiffer(rows, moves)
  {
    forall k, l | 0 <= k < l < |moves|
      ensures rows[moves[k].src] != rows[moves[l].src]
    {
      assert moves[l].src < moves[k].src;
    }
  }

  /** With pairwise different rows in the occupied cells, that is the only way they follow. */
  lemma RowsFollowExactly<T>(cells: seq<Cell>, rows: seq<T>)
    requires |rows| == |cells| && RowsDiffer(cells, rows)
    ensures RunMoves(rows, Moves(cells, 0, |cells| - 1), NO_RUN) == FollowMoves(rows, Moves(cells, 0, |cells| - 1))
            <==> !Neighbours(Moves(cells, 0, |cells| - 1))
  {
    var moves := Moves(cells, 0, |cells| - 1);
    if Neighbours(moves) {
      MovesConverge(cells);
      MovesFromOccupied(cells, 0, |cells| - 1);
      OccupiedSourcesDiffer(cells, rows, moves);
      AnyNeighboursMisplace(rows, moves);
    } else {
      RowsFollow(cells, rows);
    }
  }

  lemma AnyNeighboursMisplace<T>(rows: seq<T>, moves: seq<Move>)
    requires Converging(moves, |rows|) && Neighbours(moves) && SourcesDiffer(rows, moves)
    ensures RunMoves(rows, moves, NO_RUN) != FollowMoves(rows, moves)
  {
    assert CopyRows(rows, NO_RUN) == rows;
    var k := NeighboursMisplace(rows, moves);
  }

  /** Each occupied cell's row carries the rotation of its position. */
  ghost predicate Turned<T>(cells: seq<Cell>, rows: seq<T>, rotation: T -> int) {
    |rows| == |cells| && forall i | 0 <= i < |cells| && !cells[i].Free() :: rotation(rows[i]) == cells[i].pos
  }

  lemma {:induction false} FollowKeepsTurned<T>(cells: seq<Cell>, rows: seq<T>, rotation: T -> int, moves: seq<Move>)
    requires Turned(cells, rows, rotation)
    requires forall k | 0 <= k < |moves| :: 0 <= moves[k].src < |cells| && 0 <= moves[k].dst < |cells|
    ensures Turned(ApplyMoves(cells, moves), FollowMoves(rows, moves), rotation)
    decreases |moves|
  {
    if moves != [] {
      var m := moves[0];
      FollowKeepsTurned(ApplyMove(cells, m), rows[m.dst := rows[m.src]], rotation, moves[1..]);
    }
  }

  /** Defragmentation without neighbouring moves keeps key rotation equal to position. */
  lemma DefragKeepsTurned<T>(cells: seq<Cell>, rows: seq<T>, rotation: T -> int)
    requires Turned(cells, rows, rotation) && !Neighbours(Moves(cells, 0, |cells| - 1))
    ensures Turned(Defragmented(cells), RunMoves(rows, Moves(cells, 0, |cells| - 1), NO_RUN), rotation)
  {
    RowsFollow(cells, rows);
    FollowKeepsTurned(cells, rows, rotation, Moves(cells, 0, |cells| - 1));
  }

  function Mapped<S, T>(rows: seq<S>, f: S -> T): (r: seq<T>)
    ensures |r| == |rows|
  {
    seq(|rows|, i requires 0 <= i < |rows| => f(rows[i]))
  }

  /** Copying rows copies whatever is read off them. */
  lemma {:induction false} MappedRun<S, T>(rows: seq<S>, f: S -> T, moves: seq<Move>, run: CopyRun)
    ensures Mapped(RunMoves(rows, moves, run), f) == RunMoves(Mapped(rows, f), moves, run)
    decreases |moves|
  {
    assert Mapped(CopyRows(rows, run), f) == CopyRows(Mapped(rows, f), run);
    if moves != [] {
      if Joins(run, moves[0]) {
        MappedRun(rows, f, moves[1..], Join(run, moves[0]));
      } else {
        MappedRun(CopyRows(rows, run), f, moves[1..], CopyRun(moves[0].src, moves[0].dst, 1));
      }
    }
  }

  lemma {:induction false} MovesKeepBelow(cells: seq<Cell>, moves: seq<Move>, i: nat)
    requires i < |cells| && forall k | 0 <= k < |moves| :: i < moves[k].dst < |cells| && i < moves[k].src < |cells|
    ensures ApplyMoves(cells, moves)[i] == cells[i]
    decreases |moves|
  {
    if moves != [] {
      MovesKeepBelow(ApplyMove(cells, moves[0]), moves[1..], i);
    }
  }

  /** The holes are filled with the cells that were moved. */
  lemma {:induction false} HolesFilled(cells: seq<Cell>, moves: seq<Move>, k: nat)
    requires Converging(moves, |cells|) && FromOccupied(cells, moves) && k < |moves|
    ensures ApplyMoves(cells, moves)[moves[k].dst] == cells[moves[k].src]
    decreases |moves|
  {
    var m, rest := moves[0], moves[1..];
    var next := ApplyMove(cells, m);
    TailConverges(moves, |cells|);
    if k == 0 {
      MovesKeepBelow(next, rest, m.dst);
    } else {
      forall j | 0 <= j < |rest|
        ensures 0 <= rest[j].src < |next| && !next[rest[j].src].Free()
      {
        assert rest[j] == moves[j + 1];
      }
      HolesFilled(next, rest, k - 1);
    }
  }

  /** The cells that are moved have pairwise different positions. */
  ghost predicate MovedDiffer(cells: seq<Cell>, moves: seq<Move>) {
    forall k, l | 0 <= k < l < |moves| && 0 <= moves[k].src < |cells| && 0 <= moves[l].src < |cells| ::
      cells[moves[k].src].pos != cells[moves[l].src].pos
  }

  // ----- Which rows are copied where -----

  function Numbers(n: nat): (r: seq<int>)
    ensures |r| == n
  {
    seq(n, i => i)
  }

  /** Where the copies take each row from: what they make of the row numbers. */
  function CopiedFrom(cells: seq<Cell>): (r: seq<int>)
    ensures |r| == |cells|
  {
    RunMoves(Numbers(|cells|), Moves(cells, 0, |cells| - 1), NO_RUN)
  }

  ghost predicate Within(rows: seq<int>, n: int) {
    forall i | 0 <= i < |rows| :: 0 <= rows[i] < n
  }

  lemma {:induction false} RunWithin(rows: seq<int>, moves: seq<Move>, run: CopyRun, n: int)
    requires Within(rows, n)
    ensures Within(RunMoves(rows, moves, run), n)
    decreases |moves|
  {
    assert Within(CopyRows(rows, run), n);
    if moves != [] {
      if Joins(run, moves[0]) {
        RunWithin(rows, moves[1..], Join(run, moves[0]), n);
      } else {
        RunWithin(CopyRows(rows, run), moves[1..], CopyRun(moves[0].src, moves[0].dst, 1), n);
      }
    }
  }

  lemma CopiedRow<T>(cells: seq<Cell>, rows: seq<T>, i: nat)
    requires |rows| == |cells| && i < |cells|
    ensures 0 <= CopiedFrom(cells)[i] < |cells|
    ensures RunMoves(rows, Moves(cells, 0, |cells| - 1), NO_RUN)[i] == rows[CopiedFrom(cells)[i]]
  {
    var n, moves := |cells|, Moves(cells, 0, |cells| - 1);
    RunWithin(Numbers(n), moves, NO_RUN, n);
    var f := (k: int) => if 0 <= k < |rows| then rows[k] else rows[0];
    MappedRun(Numbers(n), f, moves, NO_RUN);
    assert Mapped(Numbers(n), f) == rows;
    assert Mapped(CopiedFrom(cells), f)[i] == f(CopiedFrom(cells)[i]);
  }

  /** Rows are copied into holes only. */
  lemma {:induction false} RunKeepsElsewhere<T>(rows: seq<T>, moves: seq<Move>, run: CopyRun, i: nat)
    requires i < |rows| && !(run.dst <= i < run.dst + run.len) && forall k | 0 <= k < |moves| :: moves[k].dst != i
    ensures RunMoves(rows, moves, run)[i] == rows[i]
    decreases |moves|
  {
    if moves != [] {
      if Joins(run, moves[0]) {
        RunKeepsElsewhere(rows, moves[1..], Join(run, moves[0]), i);
      } else {
        RunKeepsElsewhere(CopyRows(rows, run), moves[1..], CopyRun(moves[0].src, moves[0].dst, 1), i);
      }
    }
  }

  /** Cells that are no holes are as they were, or free. */
  lemma {:induction false} MovesKeepElsewhere(cells: seq<Cell>, moves: seq<Move>, i: nat)
    requires forall k | 0 <= k < |moves| :: 0 <= moves[k].src < |cells| && 0 <= moves[k].dst < |cells|
    requires i < |cells| && forall k | 0 <= k < |moves| :: moves[k].dst != i
    ensures ApplyMoves(cells, moves)[i] == cells[i] || ApplyMoves(cells, moves)[i].Free()
    decreases |moves|
  {
    if moves != [] {
      MovesKeepElsewhere(ApplyMove(cells, moves[0]), moves[1..], i);
    }
  }

  /** The row copied into each hole has the rotation of the cell that is moved there. */
  ghost predicate HolesTurned<T>(cells: seq<Cell>, rows: seq<T>, rotation: T -> int)
    requires |rows| == |cells|
  {
    var moves, from := Moves(cells, 0, |cells| - 1), CopiedFrom(cells);
    forall k | 0 <= k < |moves| :: HoleTurned(cells, rows, rotation, moves[k], from)
  }

  ghost predicate HoleTurned<T>(cells: seq<Cell>, rows: seq<T>, rotation: T -> int, m: Move, from: seq<int>) {
    && 0 <= m.src < |cells| && 0 <= m.dst < |from| && 0 <= from[m.dst] < |rows|
    && rotation(rows[from[m.dst]]) == cells[m.src].pos
  }

  /** Defragmentation keeps key rotation equal to position if and only if each hole gets such a row. */
  lemma DefragTurnedExactly<T>(cells: seq<Cell>, rows: seq<T>, rotation: T -> int)
    requires Turned(cells, rows, rotation)
    ensures Turned(Defragmented(cells), RunMoves(rows, Moves(cells, 0, |cells| - 1), NO_RUN), rotation)
            <==> HolesTurned(cells, rows, rotation)
  {
    var moves := Moves(cells, 0, |cells| - 1);
    var after, copied := Defragmented(cells), RunMoves(rows, moves, NO_RUN);
    MovesConverge(cells);
    MovesFromOccupied(cells, 0, |cells| - 1);
    forall k | 0 <= k < |moves|
      ensures HoleTurned(cells, rows, rotation, moves[k], CopiedFrom(cells)) <==>
              rotation(copied[moves[k].dst]) == after[moves[k].dst].pos
      ensures !after[moves[k].dst].Free()
    {
      HolesFilled(cells, moves, k);
      CopiedRow(cells, rows, moves[k].dst);
    }
    forall i | 0 <= i < |cells| && !after[i].Free() && forall k | 0 <= k < |moves| :: moves[k].dst != i
      ensures rotation(copied[i]) == after[i].pos
    {
      MovesKeepElsewhere(cells, moves, i);
      RunKeepsElsewhere(rows, moves, NO_RUN, i);
    }
  }

  /** If moved cells differ in position, that means that no two consecutive moves are neighbours. */
  lemma DefragTurnedByMoves<T>(cells: seq<Cell>, rows: seq<T>, rotation: T -> int)
    requires Turned(cells, rows, rotation) && MovedDiffer(cells, Moves(cells, 0, |cells| - 1))
    ensures Turned(Defragmented(cells), RunMoves(rows, Moves(cells, 0, |cells| - 1), NO_RUN), rotation)
            <==> !Neighbours(Moves(cells, 0, |cells| - 1))
    ensures HolesTurned(cells, rows, rotation) <==> !Neighbours(Moves(cells, 0, |cells| - 1))
  {
    var moves := Moves(cells, 0, |cells| - 1);
    DefragTurnedExactly(cells, rows, rotation);
    if Neighbours(moves) {
      MovesConverge(cells);
      MovesFromOccupied(cells, 0, |cells| - 1);
      NeighboursTwist(cells, rows, rotation, moves);
    } else {
      DefragKeepsTurned(cells, rows, rotation);
    }
  }

  lemma NeighboursTwist<T>(cells: seq<Cell>, rows: seq<T>, rotation: T -> int, moves: seq<Move>)
    requires Turned(cells, rows, rotation) && Converging(moves, |cells|) && FromOccupied(cells, moves)
    requires MovedDiffer(cells, moves) && Neighbours(moves)
    ensures !Turned(ApplyMoves(cells, moves), RunMoves(rows, moves, NO_RUN), rotation)
  {
    var turns := Mapped(rows, rotation);
    MappedRun(rows, rotation, moves, NO_RUN);
    assert CopyRows(turns, NO_RUN) == turns;
    assert SourcesDiffer(turns, moves);
    var k := NeighboursMisplace(turns, moves);
    FollowKeepsTurned(cells, turns, (x: int) => x, moves);
    HolesFilled(cells, moves, k);
    var i := moves[k].dst;
    assert FollowMoves(turns, moves)[i] == ApplyMoves(cells, moves)[i].pos;
    assert Mapped(RunMoves(rows, moves, NO_RUN), rotation)[i] == rotation(RunMoves(rows, moves, NO_RUN)[i]);
  }

  /** A third neighbouring move is not joined to a run of two: of three cells before which three are free, the first two
      to be moved have their rows swapped, and the last one keeps its own. */
  lemma ThreeRows(x: int, y: int, z: int)
    ensures RunMoves([0, 0, 0, x, y, z], [Move(5, 0), Move(4, 1), Move(3, 2)], NO_RUN) == [y, z, x, x, y, z]
    ensures FollowMoves([0, 0, 0, x, y, z], [Move(5, 0), Move(4, 1), Move(3, 2)]) == [z, y, x, x, y, z]
  {
    var rows, moves := [0, 0, 0, x, y, z], [Move(5, 0), Move(4, 1), Move(3, 2)];
    assert moves[1..] == [Move(4, 1), Move(3, 2)] && moves[1..][1..] == [Move(3, 2)] && moves[1..][1..][1..] == [];
    assert CopyRows(rows, NO_RUN) == rows;
    assert RunMoves(rows, moves, NO_RUN) == RunMoves(rows, moves[1..], CopyRun(5, 0, 1));
    assert RunMoves(rows, moves[1..], CopyRun(5, 0, 1)) == RunMoves(rows, [Move(3, 2)], CopyRun(4, 0, 2));
    var two := CopyRows(rows, CopyRun(4, 0, 2));
    assert two == [y, z, 0, x, y, z];
    assert RunMoves(rows, [Move(3, 2)], CopyRun(4, 0, 2)) == RunMoves(two, [], CopyRun(3, 2, 1));
    assert CopyRows(two, CopyRun(3, 2, 1)) == [y, z, x, x, y, z];
    assert FollowMoves(rows, moves) == FollowMoves([z, 0, 0, x, y, z], moves[1..]);
    assert FollowMoves([z, 0, 0, x, y, z], moves[1..]) == FollowMoves([z, y, 0, x, y, z], [Move(3, 2)]);
    assert FollowMoves([z, y, 0, x, y, z], [Move(3, 2)]) == FollowMoves([z, y, x, x, y, z], []);
  }

  /** Two free cells before two occupied ones: the cells change places, their rows do not. */
  lemma RowsSwapped(a: Cell, b: Cell, x: int, y: int)
    requires !a.Free() && !b.Free()
    ensures Defragmented([EMPTY_CELL, EMPTY_CELL, a, b]) == [b, a, EMPTY_CELL, EMPTY_CELL]
    ensures RunMoves([0, 0, x, y], Moves([EMPTY_CELL, EMPTY_CELL, a, b], 0, 3), NO_RUN) == [x, y, x, y]
  {
    var cells := [EMPTY_CELL, EMPTY_CELL, a, b];
    assert Moves(cells, 2, 1) == [];
    assert Moves(cells, 1, 2) == [Move(2, 1)];
    var moves := Moves(cells, 0, 3);
    assert moves == [Move(3, 0), Move(2, 1)];
    assert moves[1..] == [Move(2, 1)] && moves[1..][1..] == [];
    var once := ApplyMove(cells, moves[0]);
    assert once == [b, EMPTY_CELL, a, EMPTY_CELL];
    assert ApplyMove(once, moves[1]) == [b, a, EMPTY_CELL, EMPTY_CELL];
    assert ApplyMoves(once, [Move(2, 1)]) == ApplyMoves(ApplyMove(once, Move(2, 1)), []);
    var rows := [0, 0, x, y];
    assert CopyRows(rows, NO_RUN) == rows;
    assert RunMoves(rows, moves, NO_RUN) == RunMoves(rows, [Move(2, 1)], CopyRun(3, 0, 1));
    assert RunMoves(rows, [Move(2, 1)], CopyRun(3, 0, 1)) == RunMoves(rows, [], CopyRun(2, 0, 2));
    assert CopyRows(rows, CopyRun(2, 0, 2)) == [x, y, x, y];
  }
}
