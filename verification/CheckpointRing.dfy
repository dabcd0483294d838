/** The checkpoint store of one slot: a ring of saved recurrent states by position. */
module CheckpointRing {
  import opened Prelude

  /** A saved state at a position; a negative position marks an empty entry, whose data may be left over. */
  datatype Entry = Entry(pos: int, data: Option<int>) {
    predicate Valid() {
      pos >= 0
    }
  }

  datatype Ring = Ring(entries: seq<Entry>, size: nat, next: nat, lastPos: int)

  function NewRing(n: nat): Ring {
    Ring(seq(n, _ => Entry(-1, None)), 0, 0, -1)
  }

  // ----- What a ring holds -----

  function Checkpoints(r: Ring): set<int> {
    set i | 0 <= i < |r.entries| && r.entries[i].Valid() :: r.entries[i].pos
  }

  function ValidCount(entries: seq<Entry>, n: nat): (c: nat)
    requires n <= |entries|
    ensures c <= n
  {
    if n == 0 then 0 else ValidCount(entries, n - 1) + if entries[n - 1].Valid() then 1 else 0
  }

  /** The counters are in range and the size never falls short of the entries in use. */
  ghost predicate Sized(r: Ring) {
    && ValidCount(r.entries, |r.entries|) <= r.size <= |r.entries|
    && (r.entries != [] ==> r.next < |r.entries|)
    && (r.entries == [] ==> r.next == 0)
  }

  ghost predicate Distinct(entries: seq<Entry>) {
    forall i, j | 0 <= i < j < |entries| && entries[i].Valid() && entries[j].Valid() :: entries[i].pos != entries[j].pos
  }

  /** lastPos is the largest position held, or -1 when there is none. */
  ghost predicate LastIsMax(r: Ring) {
    && (forall i | 0 <= i < |r.entries| :: r.entries[i].pos <= r.lastPos || r.entries[i].pos < 0)
    && (r.lastPos == -1 || (r.lastPos >= 0 && exists i | 0 <= i < |r.entries| :: r.entries[i].pos == r.lastPos))
  }

  ghost predicate Ordered(r: Ring) {
    Sized(r) && Distinct(r.entries) && LastIsMax(r)
  }

  lemma {:induction false} ValidCountUpdate(entries: seq<Entry>, i: nat, e: Entry, n: nat)
    requires n <= |entries| && i < |entries|
    ensures ValidCount(entries[i := e], n) ==
            ValidCount(entries, n) +
            (if i < n then (if e.Valid() then 1 else 0) - (if entries[i].Valid() then 1 else 0) else 0)
  {
    if n > 0 {
      ValidCountUpdate(entries, i, e, n - 1);
    }
  }

  lemma {:induction false} ValidCountPositive(entries: seq<Entry>, i: nat, n: nat)
    requires i < n <= |entries| && entries[i].Valid()
    ensures ValidCount(entries, n) > 0
  {
    if i < n - 1 {
      ValidCountPositive(entries, i, n - 1);
    }
  }

  lemma {:induction false} ValidCountZero(entries: seq<Entry>, n: nat)
    requires n <= |entries| && forall i | 0 <= i < n :: !entries[i].Valid()
    ensures ValidCount(entries, n) == 0
  {
    if n > 0 {
      ValidCountZero(entries, n - 1);
    }
  }

  // ----- Recording -----

  function Recorded(r: Ring, pos: int): Ring
    requires Sized(r)
  {
    if r.entries == [] then r
    else
      Ring(r.entries[r.next := r.entries[r.next].(pos := pos)], if r.size < |r.entries| then r.size + 1 else r.size,
           (r.next + 1) % |r.entries|, pos)
  }

  method Record(r: Ring, pos: int) returns (r': Ring, idx: int)
    requires Sized(r) && pos >= 0
    ensures r' == Recorded(r, pos) && Sized(r')
    ensures if r.entries == [] then idx == -1 else idx == r.next && r'.entries[idx].pos == pos
    ensures Ordered(r) && pos > r.lastPos ==> Ordered(r')
  {
    if |r.entries| == 0 {
      return r, -1;
    }
    idx := r.next;
    RecordedOrdered(r, pos);
    r' := r.(next := (r.next + 1) % |r.entries|);
    if r'.size < |r'.entries| {
      r' := r'.(size := r'.size + 1);
    }
    r' := r'.(entries := r'.entries[idx := r'.entries[idx].(pos := pos)], lastPos := pos);
  }

  /** Recording keeps the counters sound, and keeps positions distinct with lastPos on top when it goes up. */
  lemma RecordedOrdered(r: Ring, pos: int)
    requires Sized(r) && pos >= 0
    ensures Sized(Recorded(r, pos))
    ensures Ordered(r) && pos > r.lastPos ==> Ordered(Recorded(r, pos))
  {
    if r.entries != [] {
      var r' := Recorded(r, pos);
      ValidCountUpdate(r.entries, r.next, r.entries[r.next].(pos := pos), |r.entries|);
      assert r'.entries[r.next].pos == pos;
    }
  }

  /** Every entry but the one to be overwritten lies below pos. */
  ghost predicate AboveRest(r: Ring, pos: int) {
    forall i | 0 <= i < |r.entries| && i != r.next && r.entries[i].Valid() :: r.entries[i].pos < pos
  }

  /** An ordered ring stays ordered exactly when the record lies above all it leaves in place. */
  lemma RecordedOrderedExactly(r: Ring, pos: int)
    requires Ordered(r) && pos >= 0 && r.entries != []
    ensures Ordered(Recorded(r, pos)) <==> AboveRest(r, pos)
  {
    var r' := Recorded(r, pos);
    RecordedOrdered(r, pos);
    assert r'.entries[r.next].pos == pos;
    assert forall i | 0 <= i < |r.entries| && i != r.next :: r'.entries[i] == r.entries[i];
    if Ordered(r') {
      forall i | 0 <= i < |r.entries| && i != r.next && r.entries[i].Valid()
        ensures r.entries[i].pos < pos
      {
        assert r'.entries[i].pos <= r'.lastPos;
        assert r'.entries[i].pos != r'.entries[r.next].pos;
      }
    }
  }

  /** A record together with its data. */
  function SavedRing(r: Ring, pos: int, state: int): Ring
    requires Sized(r) && r.entries != []
  {
    var q := Recorded(r, pos);
    q.(entries := q.entries[r.next := Entry(pos, Some(state))])
  }

  /** Saving replaces one entry: nothing but what that entry held is lost. */
  lemma SavedKeeps(r: Ring, pos: int, state: int)
    requires Sized(r) && r.entries != [] && pos >= 0
    ensures var q := SavedRing(r, pos, state);
            && Sized(q) && |q.entries| == |r.entries| && q.lastPos == pos
            && q.entries[r.next] == Entry(pos, Some(state))
            && (Ordered(r) && pos > r.lastPos ==> Ordered(q))
            && Checkpoints(r) - {r.entries[r.next].pos} <= Checkpoints(q) <= Checkpoints(r) + {pos}
            && pos in Checkpoints(q)
  {
    var recorded, q := Recorded(r, pos), SavedRing(r, pos, state);
    RecordedOrdered(r, pos);
    ValidCountSame(recorded.entries, q.entries, |r.entries|);
    assert forall i | 0 <= i < |r.entries| && i != r.next :: q.entries[i] == r.entries[i];
    assert q.entries[r.next].pos in Checkpoints(q);
    if Ordered(recorded) {
      assert forall i | 0 <= i < |r.entries| :: q.entries[i].pos == recorded.entries[i].pos;
      SamePositionsOrdered(recorded, q);
    }
    forall p | p in Checkpoints(r) && p != r.entries[r.next].pos
      ensures p in Checkpoints(q)
    {
      var i :| 0 <= i < |r.entries| && r.entries[i].Valid() && r.entries[i].pos == p;
      assert q.entries[i] == r.entries[i];
    }
  }

  /** Order depends on positions and counters only. */
  lemma SamePositionsOrdered(r: Ring, q: Ring)
    requires Ordered(r) && |q.entries| == |r.entries| && q.size == r.size && q.next == r.next && q.lastPos == r.lastPos
    requires forall i | 0 <= i < |r.entries| :: q.entries[i].pos == r.entries[i].pos
    ensures Ordered(q)
  {
    ValidCountSame(r.entries, q.entries, |r.entries|);
    if r.lastPos != -1 {
      var i :| 0 <= i < |r.entries| && r.entries[i].pos == r.lastPos;
      assert q.entries[i].pos == q.lastPos;
    }
  }

  /** A size that counts exactly the entries in use does so after a record exactly when the entry taken was
      free, or the ring is full. */
  lemma RecordedCountsExactly(r: Ring, pos: int)
    requires Sized(r) && pos >= 0 && r.entries != [] && r.size == ValidCount(r.entries, |r.entries|)
    ensures var r' := Recorded(r, pos);
            r'.size == ValidCount(r'.entries, |r'.entries|) <==> !r.entries[r.next].Valid() || r.size == |r.entries|
  {
    ValidCountUpdate(r.entries, r.next, r.entries[r.next].(pos := pos), |r.entries|);
  }

  function RecordedAll(n: nat, ps: seq<int>): (r: Ring)
    requires forall i | 0 <= i < |ps| :: ps[i] >= 0
    ensures Sized(r) && |r.entries| == n
  {
    if ps == [] then
      ValidCountZero(NewRing(n).entries, n);
      NewRing(n)
    else
      var before := RecordedAll(n, ps[..|ps| - 1]);
      RecordedOrdered(before, ps[|ps| - 1]);
      Recorded(before, ps[|ps| - 1])
  }

  /** Where the i-th record into a ring of n entries goes. */
  function Turn(i: nat, n: nat): (t: nat)
    requires n > 0
    ensures t < n
  {
    if i < n then i else Turn(i - n, n)
  }

  lemma {:induction false} TurnNext(i: nat, n: nat)
    requires n > 0
    ensures Turn(i + 1, n) == (Turn(i, n) + 1) % n
  {
    if i >= n {
      TurnNext(i - n, n);
    } else if i + 1 < n {
      SmallMod(i + 1, n);
    } else {
      assert n % n == 0;
    }
  }

  lemma {:induction false} TurnApart(i: nat, k: nat, n: nat)
    requires i < k < i + n
    ensures Turn(i, n) != Turn(k, n)
  {
    if i >= n {
      TurnApart(i - n, k - n, n);
    }
  }

  /** After k records into an empty ring of n entries, entry Turn(i, n) holds the i-th position for the last
      min(k, n) of them, and nothing else is held. */
  ghost predicate HoldsLast(r: Ring, ps: seq<int>) {
    var k, n := |ps|, |r.entries|;
    && n > 0 && r.next == Turn(k, n) && r.size == (if k < n then k else n)
    && (forall i | 0 <= i < k && k - n <= i :: r.entries[Turn(i, n)].pos == ps[i])
    && (forall j | k <= j < n :: r.entries[j].pos < 0)
  }

  lemma {:induction false} RecordsKeepLast(n: nat, ps: seq<int>)
    requires n > 0 && forall i | 0 <= i < |ps| :: ps[i] >= 0
    ensures HoldsLast(RecordedAll(n, ps), ps)
    decreases |ps|
  {
    if ps != [] {
      var k := |ps| - 1;
      RecordsKeepLast(n, ps[..k]);
      RecordKeepsLast(RecordedAll(n, ps[..k]), ps);
    }
  }

  lemma RecordKeepsLast(before: Ring, ps: seq<int>)
    requires ps != [] && Sized(before) && HoldsLast(before, ps[..|ps| - 1])
    ensures HoldsLast(Recorded(before, ps[|ps| - 1]), ps)
  {
    var k, n := |ps| - 1, |before.entries|;
    var after := Recorded(before, ps[k]);
    TurnNext(k, n);
    forall i | 0 <= i < k + 1 && k + 1 - n <= i
      ensures after.entries[Turn(i, n)].pos == ps[i]
    {
      if i < k {
        TurnApart(i, k, n);
        assert ps[..k][i] == ps[i];
      }
    }
    forall j | k + 1 <= j < n
      ensures after.entries[j].pos < 0
    {
    }
  }

  lemma SmallMod(k: nat, n: nat)
    requires k < n
    ensures k % n == k
  {
  }

  // ----- Looking up -----

  /** The greatest position below the target, if there is one. */
  method BestIndex(r: Ring, target: int) returns (idx: int, pos: int, ok: bool)
    ensures ok <==> exists p :: p in Checkpoints(r) && p < target
    ensures ok ==> 0 <= idx < |r.entries| && r.entries[idx].pos == pos && 0 <= pos < target
    ensures ok ==> forall p | p in Checkpoints(r) && p < target :: p <= pos
    ensures !ok ==> idx == -1 && pos == -1
  {
    idx, pos := -1, -1;
    for i := 0 to |r.entries|
      invariant idx == -1 <==> pos == -1
      invariant -1 <= idx < i && -1 <= pos
      invariant idx >= 0 ==> r.entries[idx].pos == pos < target
      invariant forall k | 0 <= k < i && 0 <= r.entries[k].pos < target :: r.entries[k].pos <= pos
    {
      var p := r.entries[i].pos;
      if p < 0 || p >= target {
        continue;
      }
      if p > pos {
        idx, pos := i, p;
      }
    }
    ok := idx >= 0;
    if ok {
      assert r.entries[idx].pos in Checkpoints(r);
    }
  }

  // ----- Dropping and shifting -----

  function PrunedEntry(e: Entry, pos: int): Entry {
    if e.pos > pos then e.(pos := -1) else e
  }

  function ShiftedEntry(e: Entry, begin: int, end: int): Entry {
    if begin <= e.pos < end then e.(pos := -1) else if e.pos >= end then e.(pos := e.pos + begin - end) else e
  }

  /** The entry to overwrite next: the first free one, or the oldest when there is none. */
  ghost predicate NextIsOldest(entries: seq<Entry>, next: nat) {
    next < |entries| &&
    if ValidCount(entries, |entries|) < |entries| then
      !entries[next].Valid() && forall i | 0 <= i < next :: entries[i].Valid()
    else forall i | 0 <= i < |entries| :: entries[next].pos <= entries[i].pos
  }

  /** Counts the entries in use and finds the next to overwrite and the largest position. */
  method Tally(entries: seq<Entry>) returns (size: nat, next: nat, maxPos: int)
    requires entries != [] && forall i | 0 <= i < |entries| :: entries[i].pos < MAX_INT32
    ensures size == ValidCount(entries, |entries|)
    ensures size > 0 ==> NextIsOldest(entries, next)
    ensures size == 0 ==> maxPos == -1
    ensures size > 0 ==> maxPos >= 0 && exists i | 0 <= i < |entries| :: entries[i].pos == maxPos
    ensures forall i | 0 <= i < |entries| && entries[i].Valid() :: entries[i].pos <= maxPos
  {
    size, maxPos := 0, -1;
    var free, minPos, minIdx := -1, MAX_INT32, 0;
    for i := 0 to |entries|
      invariant size == ValidCount(entries, i) && 0 <= minIdx < |entries|
      invariant size == 0 ==> maxPos == -1 && minPos == MAX_INT32
      invariant size > 0 ==> maxPos >= 0 && exists k | 0 <= k < i :: entries[k].pos == maxPos
      invariant forall k | 0 <= k < i && entries[k].Valid() :: minPos <= entries[k].pos <= maxPos
      invariant size > 0 ==> entries[minIdx].pos == minPos
      invariant if free == -1 then size == i else 0 <= free < i && !entries[free].Valid() && size < i
      invariant forall k | 0 <= k < i && (free == -1 || k < free) :: entries[k].Valid()
      invariant free == -1 ==> forall k | 0 <= k < i :: minPos <= entries[k].pos
    {
      var pos := entries[i].pos;
      if pos >= 0 {
        size := size + 1;
        if pos < minPos {
          minPos, minIdx := pos, i;
        }
        if pos > maxPos {
          maxPos := pos;
        }
      } else if free == -1 {
        free := i;
      }
    }
    next := if free != -1 then free else minIdx;
  }

  ghost predicate Bounded(r: Ring) {
    forall i | 0 <= i < |r.entries| :: r.entries[i].pos < MAX_INT32
  }

  ghost predicate RingPruned(r: Ring, r': Ring, pos: int) {
    |r'.entries| == |r.entries| && forall i | 0 <= i < |r.entries| :: r'.entries[i] == PrunedEntry(r.entries[i], pos)
  }

  /** Drops every checkpoint after pos. */
  method PruneAfter(r: Ring, pos: int) returns (r': Ring)
    requires Bounded(r)
    ensures RingPruned(r, r', pos)
    ensures Sized(r') && r'.size == ValidCount(r'.entries, |r'.entries|) && Bounded(r')
    ensures r'.size > 0 ==> NextIsOldest(r'.entries, r'.next) && r'.lastPos == pos
    ensures r'.size == 0 ==> r'.lastPos == -1
    ensures Distinct(r.entries) && pos in Checkpoints(r) ==> Ordered(r')
  {
    if |r.entries| == 0 {
      return Ring([], 0, 0, -1);
    }
    var entries := PruneEntries(r.entries, pos);
    var size, next, maxPos := Tally(entries);
    r' := if size == 0 then Ring(entries, 0, 0, -1) else Ring(entries, size, next, pos);
    if Distinct(r.entries) && pos in Checkpoints(r) {
      PrunedOrdered(r, r', pos);
    }
  }

  method PruneEntries(was: seq<Entry>, pos: int) returns (entries: seq<Entry>)
    ensures |entries| == |was| && forall k | 0 <= k < |was| :: entries[k] == PrunedEntry(was[k], pos)
  {
    entries := was;
    for i := 0 to |entries|
      invariant |entries| == |was|
      invariant forall k | 0 <= k < i :: entries[k] == PrunedEntry(was[k], pos)
      invariant forall k | i <= k < |entries| :: entries[k] == was[k]
    {
      if entries[i].pos > pos {
        entries := entries[i := entries[i].(pos := -1)];
      }
    }
  }

  /** Pruned at one of its checkpoints, a ring is in order. */
  lemma PrunedOrdered(r: Ring, r': Ring, pos: int)
    requires RingPruned(r, r', pos) && Sized(r') && Distinct(r.entries) && pos in Checkpoints(r)
    requires r'.lastPos == if ValidCount(r'.entries, |r'.entries|) == 0 then -1 else pos
    ensures Ordered(r')
  {
    var i :| 0 <= i < |r.entries| && r.entries[i].Valid() && r.entries[i].pos == pos;
    assert r'.entries[i].pos == pos;
    ValidCountPositive(r'.entries, i, |r'.entries|);
  }

  /** A ring of three that has wrapped around, is pruned and gets two more records: its size is three with two
      entries in use. */
  method OverCount() returns (r: Ring)
    ensures r.size == 3 && ValidCount(r.entries, |r.entries|) == 2
  {
    var idx;
    r := Ring([Entry(4, None), Entry(2, None), Entry(3, None)], 3, 1, 4);
    OverCountStart(r);
    r := PruneAfter(r, 2);
    OverCountPruned(r);
    r, idx := Record(r, 5);
    r, idx := Record(r, 6);
    assert ValidCount(r.entries, 1) == 1 && ValidCount(r.entries, 2) == 2 && ValidCount(r.entries, 3) == 2;
  }

  /** It is what four records leave. */
  lemma OverCountStart(r: Ring)
    requires r == Ring([Entry(4, None), Entry(2, None), Entry(3, None)], 3, 1, 4)
    ensures r == RecordedAll(3, [1, 2, 3, 4])
  {
    var e, n := Entry(-1, None), NewRing(3);
    assert n.entries == [e, e, e];
    assert [1, 2, 3, 4][..3] == [1, 2, 3] && [1, 2, 3][..2] == [1, 2] && [1, 2][..1] == [1] && [1][..0] == [];
    assert RecordedAll(3, [1]).entries == [Entry(1, None), e, e];
    assert RecordedAll(3, [1, 2]).entries == [Entry(1, None), Entry(2, None), e];
    assert RecordedAll(3, [1, 2, 3]).entries == [Entry(1, None), Entry(2, None), Entry(3, None)];
    assert RecordedAll(3, [1, 2, 3, 4]).entries == r.entries;
  }

  lemma OverCountPruned(r: Ring)
    requires |r.entries| == 3 && r.entries[0].pos == -1 && r.entries[1].pos == 2 && r.entries[2].pos == -1
    requires Sized(r) && r.size == ValidCount(r.entries, 3) && (r.size > 0 ==> NextIsOldest(r.entries, r.next))
    ensures r.size == 1 && r.next == 0
  {
    assert ValidCount(r.entries, 1) == 0 && ValidCount(r.entries, 2) == 1 && ValidCount(r.entries, 3) == 1;
  }

  lemma NothingLeft(entries: seq<Entry>)
    requires ValidCount(entries, |entries|) == 0
    ensures forall i | 0 <= i < |entries| :: !entries[i].Valid()
  {
    forall i | 0 <= i < |entries|
      ensures !entries[i].Valid()
    {
      if entries[i].Valid() {
        ValidCountPositive(entries, i, |entries|);
      }
    }
  }

  ghost predicate RingShifted(r: Ring, r': Ring, begin: int, end: int) {
    |r'.entries| == |r.entries| &&
    forall i | 0 <= i < |r.entries| :: r'.entries[i] == ShiftedEntry(r.entries[i], begin, end)
  }

  /** Drops the checkpoints in [begin, end) and lowers the later ones. */
  method ShiftRange(r: Ring, begin: int, end: int) returns (r': Ring)
    requires Bounded(r) && 0 <= begin <= end
    ensures RingShifted(r, r', begin, end)
    ensures Sized(r') && r'.size == ValidCount(r'.entries, |r'.entries|) && Bounded(r') && LastIsMax(r')
    ensures r'.size > 0 ==> NextIsOldest(r'.entries, r'.next)
    ensures Distinct(r.entries) ==> Ordered(r')
  {
    if |r.entries| == 0 {
      return Ring([], 0, 0, -1);
    }
    var entries := ShiftEntries(r.entries, begin, end);
    var size, next, maxPos := Tally(entries);
    if size == 0 {
      NothingLeft(entries);
      r' := Ring(entries, 0, 0, -1);
    } else {
      r' := Ring(entries, size, next, maxPos);
    }
    if Distinct(r.entries) {
      ShiftedDistinct(r, r', begin, end);
    }
  }

  method ShiftEntries(was: seq<Entry>, begin: int, end: int) returns (entries: seq<Entry>)
    requires 0 <= begin <= end
    ensures |entries| == |was| && forall k | 0 <= k < |was| :: entries[k] == ShiftedEntry(was[k], begin, end)
  {
    entries := was;
    for i := 0 to |entries|
      invariant |entries| == |was|
      invariant forall k | 0 <= k < i :: entries[k] == ShiftedEntry(was[k], begin, end)
      invariant forall k | i <= k < |entries| :: entries[k] == was[k]
    {
      var pos := entries[i].pos;
      if pos >= 0 {
        if begin <= pos < end {
          entries := entries[i := entries[i].(pos := -1)];
        } else if pos >= end {
          entries := entries[i := entries[i].(pos := pos + (begin - end))];
        }
      }
    }
  }

  lemma ShiftedDistinct(r: Ring, r': Ring, begin: int, end: int)
    requires RingShifted(r, r', begin, end) && 0 <= begin <= end && Distinct(r.entries)
    ensures Distinct(r'.entries)
  {
  }

  function Reset(r: Ring): Ring {
    Ring(seq(|r.entries|, i requires 0 <= i < |r.entries| => r.entries[i].(pos := -1)), 0, 0, -1)
  }

  // ----- Copying to another slot -----

  function CopiedEntry(src: Entry, dst: Entry): Entry {
    Entry(src.pos, if src.data.Some? then src.data else dst.data)
  }

  /** The destination takes over counters and positions; saved data is copied where the source has any. */
  function CopiedRing(src: Ring, dst: Ring): Ring
    requires |src.entries| == |dst.entries|
  {
    Ring(seq(|src.entries|, i requires 0 <= i < |src.entries| => CopiedEntry(src.entries[i], dst.entries[i])),
         src.size, src.next, src.lastPos)
  }

  lemma {:induction false} ValidCountSame(a: seq<Entry>, b: seq<Entry>, n: nat)
    requires n <= |a| == |b| && forall i | 0 <= i < |a| :: a[i].pos == b[i].pos
    ensures ValidCount(a, n) == ValidCount(b, n)
  {
    if n > 0 {
      ValidCountSame(a, b, n - 1);
    }
  }

  /** A copied entry is complete if either was, and then has the source's state if there is one. */
  lemma CopiedData(src: Ring, dst: Ring, i: nat)
    requires i < |src.entries| == |dst.entries|
    ensures var e := CopiedRing(src, dst).entries[i];
            && e.pos == src.entries[i].pos
            && (e.data.None? <==> src.entries[i].data.None? && dst.entries[i].data.None?)
            && (forall x | src.entries[i].data == Some(x) :: e.data == Some(x))
            && (src.entries[i].data.None? ==> e.data == dst.entries[i].data)
  {
  }

  lemma CopiedSized(src: Ring, dst: Ring)
    requires Sized(src) && |src.entries| == |dst.entries|
    ensures Sized(CopiedRing(src, dst))
  {
    ValidCountSame(src.entries, CopiedRing(src, dst).entries, |src.entries|);
  }

  /** A reset leaves no checkpoint, but the states of the entries stay behind. */
  lemma ResetSized(r: Ring)
    ensures |Reset(r).entries| == |r.entries| &&
      forall i | 0 <= i < |r.entries| :: Reset(r).entries[i].data == r.entries[i].data
    ensures Sized(Reset(r)) && Ordered(Reset(r)) && Checkpoints(Reset(r)) == {}
  {
    ValidCountZero(Reset(r).entries, |r.entries|);
  }

  /** The size may over-count, but never under-counts: a valid entry means a positive size. */
  lemma ValidMeansSize(r: Ring, i: nat)
    requires Sized(r) && i < |r.entries| && r.entries[i].Valid()
    ensures r.size > 0
  {
    ValidCountPositive(r.entries, i, |r.entries|);
  }
}
