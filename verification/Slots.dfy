/** The reference-counted, copy-on-write allocator of recurrent state slots. */
module Slots {
  import opened Prelude

  /** Which slot each sequence uses, how many sequences use each slot, and the free slots as a stack. */
  datatype Slots = Slots(slotForSeq: map<int, int>, refCount: seq<nat>, free: seq<int>)

  function NewSlots(n: nat): Slots {
    Slots(map[], seq(n, _ => 0), seq(n, i => n - 1 - i))
  }

  /** The sequences that use slot k. */
  function Users(m: map<int, int>, k: int): set<int> {
    set s | s in m && m[s] == k
  }

  /** refCount counts the users of every slot, and the free stack lists exactly the unused slots, each once. */
  ghost predicate Sound(a: Slots) {
    && (forall s | s in a.slotForSeq :: 0 <= a.slotForSeq[s] < |a.refCount|)
    && (forall k | 0 <= k < |a.refCount| :: a.refCount[k] == |Users(a.slotForSeq, k)|)
    && (forall i | 0 <= i < |a.free| :: 0 <= a.free[i] < |a.refCount| && a.refCount[a.free[i]] == 0)
    && (forall i, j | 0 <= i < j < |a.free| :: a.free[i] != a.free[j])
    && (forall k | 0 <= k < |a.refCount| && a.refCount[k] == 0 :: k in a.free)
  }

  lemma NewSound(n: nat)
    ensures Sound(NewSlots(n))
  {
    var a := NewSlots(n);
    forall k | 0 <= k < n
      ensures a.refCount[k] == |Users(a.slotForSeq, k)| && k in a.free
    {
      assert Users(a.slotForSeq, k) == {};
      assert a.free[n - 1 - k] == k;
    }
  }

  // ----- Counting -----

  function UsersBelow(m: map<int, int>, n: int): set<int> {
    set s | s in m && 0 <= m[s] < n
  }

  /** The counts add up to the number of sequences. */
  lemma {:induction false} CountsAddUp(a: Slots, n: nat)
    requires Sound(a) && n <= |a.refCount|
    ensures SumTo(a.refCount, n) == |UsersBelow(a.slotForSeq, n)|
  {
    if n == 0 {
      assert UsersBelow(a.slotForSeq, 0) == {};
    } else {
      CountsAddUp(a, n - 1);
      var below, at := UsersBelow(a.slotForSeq, n - 1), Users(a.slotForSeq, n - 1);
      assert UsersBelow(a.slotForSeq, n) == below + at;
      assert below !! at;
    }
  }

  lemma {:induction false} SumAtLeast(counts: seq<nat>, n: nat, k: int)
    requires n <= |counts| && forall i | 0 <= i < n :: counts[i] >= 1
    ensures SumTo(counts, n) >= n
    ensures 0 <= k < n && counts[k] > 1 ==> SumTo(counts, n) > n
  {
    if n > 0 {
      SumAtLeast(counts, n - 1, k);
    }
  }

  /** The stack is empty only if there are as many sequences as slots, and more if some slot is shared. */
  lemma FullMeansBusy(a: Slots, k: int)
    requires Sound(a) && a.free == []
    ensures |a.slotForSeq| >= |a.refCount|
    ensures 0 <= k < |a.refCount| && a.refCount[k] > 1 ==> |a.slotForSeq| > |a.refCount|
  {
    var n := |a.refCount|;
    CountsAddUp(a, n);
    SumAtLeast(a.refCount, n, k);
    assert forall s :: s in UsersBelow(a.slotForSeq, n) <==> s in a.slotForSeq.Keys;
    assert UsersBelow(a.slotForSeq, n) == a.slotForSeq.Keys;
    assert |a.slotForSeq.Keys| == |a.slotForSeq|;
  }

  // ----- Operations -----

  function Top(a: Slots): int
    requires a.free != []
  {
    a.free[|a.free| - 1]
  }

  /** A sequence without a slot takes the top free one. */
  function Allocated(a: Slots, s: int): Slots
    requires a.free != [] && 0 <= Top(a) < |a.refCount|
  {
    Slots(a.slotForSeq[s := Top(a)], a.refCount[Top(a) := 1], a.free[..|a.free| - 1])
  }

  /** A sequence leaves a shared slot for the top free one. */
  function Detached(a: Slots, s: int): Slots
    requires s in a.slotForSeq && a.free != [] && 0 <= Top(a) < |a.refCount|
    requires 0 <= a.slotForSeq[s] < |a.refCount| && a.refCount[a.slotForSeq[s]] > 0
  {
    var k := a.slotForSeq[s];
    Slots(a.slotForSeq[s := Top(a)], a.refCount[k := a.refCount[k] - 1][Top(a) := 1], a.free[..|a.free| - 1])
  }

  /** A sequence gives its slot up; the last user's slot becomes free. */
  function Released(a: Slots, s: int): Slots
    requires s in a.slotForSeq ==> 0 <= a.slotForSeq[s] < |a.refCount| && a.refCount[a.slotForSeq[s]] > 0
  {
    if s !in a.slotForSeq then a
    else
      var k := a.slotForSeq[s];
      Slots(a.slotForSeq - {s}, a.refCount[k := a.refCount[k] - 1], if a.refCount[k] == 1 then a.free + [k] else a.free)
  }

  /** dst gives up its slot and shares that of src, if src still has one. */
  function Shared(a: Slots, src: int, dst: int): Slots
    requires dst in a.slotForSeq ==> 0 <= a.slotForSeq[dst] < |a.refCount| && a.refCount[a.slotForSeq[dst]] > 0
    requires src in a.slotForSeq ==> 0 <= a.slotForSeq[src] < |a.refCount|
  {
    var b := Released(a, dst);
    if src !in b.slotForSeq then b
    else
      var k := b.slotForSeq[src];
      Slots(b.slotForSeq[dst := k], b.refCount[k := b.refCount[k] + 1], b.free)
  }

  lemma SlotInUse(a: Slots, s: int)
    requires Sound(a) && s in a.slotForSeq
    ensures 0 <= a.slotForSeq[s] < |a.refCount| && a.refCount[a.slotForSeq[s]] > 0 && a.slotForSeq[s] !in a.free
  {
    var k := a.slotForSeq[s];
    assert s in Users(a.slotForSeq, k);
  }

  /** Moving s from wherever it was to slot t changes the users of its old slot and of t by one. */
  lemma UsersMoved(m: map<int, int>, s: int, t: int, k: int)
    ensures |Users(m[s := t], k)| ==
            |Users(m, k)| - (if s in m && m[s] == k && k != t then 1 else 0) +
            (if k == t && !(s in m && m[s] == t) then 1 else 0)
  {
    var before, after := Users(m, k), Users(m[s := t], k);
    if k == t {
      assert after == before + {s};
    } else {
      assert after == before - {s};
    }
  }

  lemma UsersRemoved(m: map<int, int>, s: int, k: int)
    ensures |Users(m - {s}, k)| == |Users(m, k)| - (if s in m && m[s] == k then 1 else 0)
  {
    assert Users(m - {s}, k) == Users(m, k) - {s};
  }

  lemma AllocatedSound(a: Slots, s: int)
    requires Sound(a) && a.free != [] && s !in a.slotForSeq
    ensures Sound(Allocated(a, s))
  {
    var b, t := Allocated(a, s), Top(a);
    forall k | 0 <= k < |b.refCount|
      ensures b.refCount[k] == |Users(b.slotForSeq, k)|
    {
      UsersMoved(a.slotForSeq, s, t, k);
    }
    FreePopped(a, b, t);
  }

  lemma DetachedSound(a: Slots, s: int)
    requires Sound(a) && a.free != [] && s in a.slotForSeq && a.refCount[a.slotForSeq[s]] > 1
    ensures Sound(Detached(a, s))
    ensures Detached(a, s).refCount[Top(a)] == 1
  {
    var b, t := Detached(a, s), Top(a);
    SlotInUse(a, s);
    forall k | 0 <= k < |b.refCount|
      ensures b.refCount[k] == |Users(b.slotForSeq, k)|
    {
      UsersMoved(a.slotForSeq, s, t, k);
    }
    FreePopped(a, b, t);
  }

  /** Taking the top slot off the stack leaves the rest in order. */
  lemma FreePopped(a: Slots, b: Slots, t: int)
    requires Sound(a) && a.free != [] && t == Top(a) && b.free == a.free[..|a.free| - 1] && |b.refCount| == |a.refCount|
    requires b.refCount[t] > 0
    requires forall k | 0 <= k < |a.refCount| && k != t :: (a.refCount[k] == 0 <==> b.refCount[k] == 0)
    ensures forall i | 0 <= i < |b.free| :: 0 <= b.free[i] < |b.refCount| && b.refCount[b.free[i]] == 0
    ensures forall i, j | 0 <= i < j < |b.free| :: b.free[i] != b.free[j]
    ensures forall k | 0 <= k < |b.refCount| && b.refCount[k] == 0 :: k in b.free
  {
    forall k | 0 <= k < |b.refCount| && b.refCount[k] == 0
      ensures k in b.free
    {
      var i :| 0 <= i < |a.free| && a.free[i] == k;
      assert i < |a.free| - 1;
      assert b.free[i] == k;
    }
  }

  lemma ReleasedSound(a: Slots, s: int)
    requires Sound(a)
    ensures s in a.slotForSeq ==> 0 <= a.slotForSeq[s] < |a.refCount| && a.refCount[a.slotForSeq[s]] > 0
    ensures Sound(Released(a, s))
  {
    if s in a.slotForSeq {
      SlotInUse(a, s);
      var b, t := Released(a, s), a.slotForSeq[s];
      forall k | 0 <= k < |b.refCount|
        ensures b.refCount[k] == |Users(b.slotForSeq, k)|
      {
        UsersRemoved(a.slotForSeq, s, k);
      }
      forall k | 0 <= k < |b.refCount| && b.refCount[k] == 0
        ensures k in b.free
      {
        if k == t {
          assert b.free[|a.free|] == t;
        } else {
          var i :| 0 <= i < |a.free| && a.free[i] == k;
          assert b.free[i] == k;
        }
      }
    }
  }

  lemma SharedSound(a: Slots, src: int, dst: int)
    requires Sound(a)
    ensures dst in a.slotForSeq ==> 0 <= a.slotForSeq[dst] < |a.refCount| && a.refCount[a.slotForSeq[dst]] > 0
    ensures src in a.slotForSeq ==> 0 <= a.slotForSeq[src] < |a.refCount|
    ensures Sound(Shared(a, src, dst))
  {
    ReleasedSound(a, dst);
    var b, c := Released(a, dst), Shared(a, src, dst);
    if src in b.slotForSeq {
      SlotInUse(b, src);
      var t := b.slotForSeq[src];
      forall k | 0 <= k < |c.refCount|
        ensures c.refCount[k] == |Users(c.slotForSeq, k)|
      {
        UsersMoved(b.slotForSeq, dst, t, k);
      }
    }
  }

  /** Sole ownership, told from the count. */
  lemma SoleOwner(a: Slots, s: int, t: int)
    requires Sound(a) && s in a.slotForSeq && t in a.slotForSeq && s != t && a.refCount[a.slotForSeq[s]] == 1
    ensures a.slotForSeq[t] != a.slotForSeq[s]
  {
    var users := Users(a.slotForSeq, a.slotForSeq[s]);
    assert s in users && |users - {s}| == 0;
    assert t !in users - {s};
  }
}
