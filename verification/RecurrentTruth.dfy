/** What holds of the checkpoints over whole runs of the hybrid cache: rings stay ordered, and every checkpoint is
    a state that the sequences using it had at its position, as long as free slots carry no checkpoints. */
module RecurrentTruth {
  import opened Prelude
  import opened Slots
  import opened CheckpointRing
  import opened RecurrentStore
  import Views = CausalRuns
  import KvCells

  // ----- Order -----

  ghost predicate AllOrdered(st: Store) {
    forall k | k in st.rings :: Ordered(st.rings[k])
  }

  /** No free slot carries checkpoints. */
  ghost predicate CleanFree(st: Store, count: nat) {
    forall k | k in st.slots.free :: Checkpoints(RingAt(st.rings, k, count)) == {}
  }

  ghost predicate Tidy(st: Store, count: nat) {
    AllOrdered(st) && CleanFree(st, count)
  }

  lemma NewRingOrdered(count: nat)
    ensures Ordered(NewRing(count)) && Checkpoints(NewRing(count)) == {}
  {
    NewRingOk(count);
  }

  lemma RingAtOrdered(st: Store, k: int, count: nat)
    requires AllOrdered(st)
    ensures Ordered(RingAt(st.rings, k, count))
  {
    NewRingOrdered(count);
  }

  lemma Held(r: Ring, i: nat)
    requires i < |r.entries|
    ensures r.entries[i].Valid() ==> r.entries[i].pos in Checkpoints(r)
  {
  }

  /** An ordered ring without checkpoints has no last position. */
  lemma EmptyLast(r: Ring)
    requires Ordered(r) && Checkpoints(r) == {}
    ensures r.lastPos == -1
  {
    if r.lastPos != -1 {
      var i :| 0 <= i < |r.entries| && r.entries[i].pos == r.lastPos;
      Held(r, i);
    }
  }

  ghost predicate SameRings(a: Store, b: Store, count: nat) {
    forall k :: RingAt(b.rings, k, count) == RingAt(a.rings, k, count)
  }

  /** b has the sequences of a in their slots, and perhaps new ones in slots of their own. */
  ghost predicate Grown(a: Store, b: Store, count: nat) {
    && Ok(a, count) && Ok(b, count) && |a.states| == |b.states|
    && KeepsSlots(a, b) && NewOwn(a, b) && SameRings(a, b, count)
  }

  lemma SomeUser(a: Slots, k: int) returns (t: int)
    requires Sound(a) && 0 <= k < |a.refCount| && a.refCount[k] != 0
    ensures t in a.slotForSeq && a.slotForSeq[t] == k
  {
    var users := Users(a.slotForSeq, k);
    assert (forall t :: t !in users) ==> users == {};
    t :| t in users;
  }

  lemma FreeBefore(a: Store, b: Store, count: nat, k: int)
    requires Ok(a, count) && Ok(b, count) && |a.states| == |b.states| && KeepsSlots(a, b) && k in b.slots.free
    ensures k in a.slots.free
  {
    if a.slots.refCount[k] != 0 {
      var t := SomeUser(a.slots, k);
      SlotInUse(b.slots, t);
    }
  }

  lemma GrownTidy(a: Store, b: Store, count: nat)
    requires Grown(a, b, count) && Tidy(a, count)
    ensures Tidy(b, count)
  {
    forall k | k in b.rings
      ensures Ordered(b.rings[k])
    {
      RingAtOrdered(a, k, count);
      assert RingAt(b.rings, k, count) == RingAt(a.rings, k, count);
    }
    forall k | k in b.slots.free
      ensures Checkpoints(RingAt(b.rings, k, count)) == {}
    {
      FreeBefore(a, b, count, k);
    }
  }

  lemma ReleasedTidy(st: Store, s: int, count: nat)
    requires Ok(st, count) && Tidy(st, count)
    ensures Tidy(ReleasedStore(st, s), count)
  {
    ReleasedSound(st.slots, s);
    var b := ReleasedStore(st, s);
    if s in st.slots.slotForSeq && SlotOf(st, s) in st.rings {
      ResetSized(st.rings[SlotOf(st, s)]);
    }
    NewRingOrdered(count);
    forall k | k in b.slots.free
      ensures Checkpoints(RingAt(b.rings, k, count)) == {}
    {
      assert k in st.slots.free || (s in st.slots.slotForSeq && k == SlotOf(st, s));
    }
  }

  /** Sharing a prefix leaves free slots clean exactly when dst does not give up a slot with checkpoints. */
  lemma SharedClean(st: Store, src: int, dst: int, count: nat)
    requires Ok(st, count) && CleanFree(st, count)
    ensures CleanFree(SharedStore(st, src, dst), count) <==>
            !LeavesCheckpoints(st, dst, count)
  {
    SharedSound(st.slots, src, dst);
    var b := SharedStore(st, src, dst);
    if Owns(st, dst) {
      var k := SlotOf(st, dst);
      assert b.slots.free == st.slots.free + [k];
      assert k in b.slots.free;
    } else {
      assert b.slots.free == st.slots.free;
    }
  }

  lemma DetachedTidy(st: Store, s: int, count: nat)
    requires CanDetach(st, s, count) && Tidy(st, count)
    ensures Tidy(DetachedStore(st, s, count), count)
  {
    var b, from, to := DetachedStore(st, s, count), SlotOf(st, s), Top(st.slots);
    if b.rings != st.rings {
      var src, dst := st.rings[from], RingAt(st.rings, to, count);
      assert RingOk(src, count);
      SamePositionsOrdered(src, CopiedRing(src, dst));
    }
    forall k | k in b.slots.free
      ensures Checkpoints(RingAt(b.rings, k, count)) == {}
    {
      var i :| 0 <= i < |b.slots.free| && b.slots.free[i] == k;
      assert st.slots.free[i] == k && k != to;
    }
  }

  lemma {:induction false} DetachedToTidy(st: Store, seqs: seq<int>, n: nat, count: nat)
    requires Ok(st, count) && n <= |seqs| && Tidy(st, count)
    ensures Tidy(DetachedTo(st, seqs, n, count), count)
  {
    if n > 0 {
      DetachedToTidy(st, seqs, n - 1, count);
      var b := DetachedTo(st, seqs, n - 1, count);
      if CanDetach(b, seqs[n - 1], count) {
        DetachedTidy(b, seqs[n - 1], count);
      }
    }
  }

  /** Only rings of slots in use have changed, and they are ordered. */
  lemma InUseTidy(a: Store, b: Store, count: nat)
    requires Ok(a, count) && Ok(b, count) && Tidy(a, count) && b.slots == a.slots && AllOrdered(b)
    requires forall k | k in a.slots.free :: RingAt(b.rings, k, count) == RingAt(a.rings, k, count)
    ensures Tidy(b, count)
  {
  }

  // ----- Plans -----

  /** Every planned checkpoint lies above all that its sequence's slot has. */
  ghost predicate PlansAbove(st: Store, seqs: seq<int>, planned: seq<int>, count: nat) {
    forall i | 0 <= i < |seqs| && PlanAt(planned, i) >= 0 :: PlanAbove(st, seqs[i], PlanAt(planned, i), count)
  }

  ghost predicate PlanAbove(st: Store, s: int, pos: int, count: nat) {
    s in st.slots.slotForSeq && RingAt(st.rings, SlotOf(st, s), count).lastPos < pos
  }

  lemma DetachedPlan(st: Store, s: int, t: int, pos: int, count: nat)
    requires CanDetach(st, s, count) && Tidy(st, count) && pos >= 0 && PlanAbove(st, t, pos, count)
    ensures PlanAbove(DetachedStore(st, s, count), t, pos, count)
  {
    var b, to := DetachedStore(st, s, count), Top(st.slots);
    SlotInUse(st.slots, t);
    if t == s && b.rings == st.rings {
      assert to in st.slots.free;
      RingAtOrdered(st, to, count);
      EmptyLast(RingAt(st.rings, to, count));
    }
  }

  /** Copy on write keeps plans above, if free slots are clean. */
  lemma {:induction false} DetachedToPlans(st: Store, seqs: seq<int>, n: nat, all: seq<int>, planned: seq<int>,
                                           count: nat)
    requires Ok(st, count) && n <= |seqs| && Tidy(st, count) && PlansAbove(st, all, planned, count)
    ensures PlansAbove(DetachedTo(st, seqs, n, count), all, planned, count)
  {
    if n > 0 {
      DetachedToPlans(st, seqs, n - 1, all, planned, count);
      DetachedToTidy(st, seqs, n - 1, count);
      var b := DetachedTo(st, seqs, n - 1, count);
      if CanDetach(b, seqs[n - 1], count) {
        forall i | 0 <= i < |all| && PlanAt(planned, i) >= 0
          ensures PlanAbove(DetachedStore(b, seqs[n - 1], count), all[i], PlanAt(planned, i), count)
        {
          assert PlanAbove(b, all[i], PlanAt(planned, i), count);
          DetachedPlan(b, seqs[n - 1], all[i], PlanAt(planned, i), count);
        }
      }
    }
  }

  /** Saving planned checkpoints keeps rings ordered and free slots clean. */
  lemma UpdatedTidy(a: Store, b: Store, seqs: seq<int>, slots: seq<int>, news: seq<int>, planned: seq<int>, count: nat)
    requires |slots| == |news| && SlotsListed(a, slots) && UpdatedTo(a, b, slots, news, planned, |slots|, count)
    requires HaveSlots(a, seqs, slots) && Tidy(a, count) && PlansAbove(a, seqs, planned, count)
    ensures Tidy(b, count)
  {
    assert slots[..|slots|] == slots;
    forall k | k in b.rings
      ensures Ordered(b.rings[k])
    {
      if k in slots {
        var i :| 0 <= i < |slots| && slots[i] == k;
        SavedOrdered(a, b, seqs, slots, news, planned, i, count);
      } else {
        assert Untouched(a, b, k);
      }
    }
    forall k | k in a.slots.free
      ensures RingAt(b.rings, k, count) == RingAt(a.rings, k, count)
    {
      FreeNotListed(a, seqs, slots, k);
      assert Untouched(a, b, k);
    }
    InUseTidy(a, b, count);
  }

  lemma FreeNotListed(st: Store, seqs: seq<int>, slots: seq<int>, k: int)
    requires Sound(st.slots) && HaveSlots(st, seqs, slots) && k in st.slots.free
    ensures k !in slots
  {
    if k in slots {
      var i :| 0 <= i < |slots| && slots[i] == k;
      SlotInUse(st.slots, seqs[i]);
    }
  }

  lemma SavedOrdered(a: Store, b: Store, seqs: seq<int>, slots: seq<int>, news: seq<int>, planned: seq<int>, i: nat,
                     count: nat)
    requires |slots| == |news| && SlotsListed(a, slots) && UpdatedTo(a, b, slots, news, planned, |slots|, count)
    requires HaveSlots(a, seqs, slots) && Tidy(a, count) && PlansAbove(a, seqs, planned, count) && i < |slots|
    ensures slots[i] in b.rings ==> Ordered(b.rings[slots[i]])
  {
    var k, plan := slots[i], PlanAt(planned, i);
    assert SlotUpdated(a, b, k, news[i], plan, count);
    RingAtOrdered(a, k, count);
    if plan >= 0 && count > 0 {
      assert PlanAbove(a, seqs[i], plan, count);
      NewRingOk(count);
      assert RingOk(RingAt(a.rings, k, count), count);
      SavedKeeps(RingAt(a.rings, k, count), plan, news[i]);
    }
  }

  // ----- Truth -----

  /** The states a sequence had, by position. */
  type Past = map<int, int>

  type History = map<int, Past>

  ghost predicate TrueEntry(e: Entry, past: Past) {
    e.Valid() ==> e.pos in past && e.data == Some(past[e.pos])
  }

  ghost predicate TrueRing(r: Ring, past: Past) {
    forall i | 0 <= i < |r.entries| :: TrueEntry(r.entries[i], past)
  }

  /** Every checkpoint a sequence could be rolled back to is a state it had at that position. */
  ghost predicate Truthful(st: Store, hist: History, count: nat) {
    forall s | s in st.slots.slotForSeq :: s in hist && TrueRing(RingAt(st.rings, SlotOf(st, s), count), hist[s])
  }

  /** New sequences have no past. */
  function Extended(hist: History, keys: set<int>): History {
    map s | s in hist.Keys + keys :: if s in hist then hist[s] else map[]
  }

  lemma EmptyTrue(r: Ring, past: Past)
    requires Checkpoints(r) == {}
    ensures TrueRing(r, past)
  {
    forall i | 0 <= i < |r.entries|
      ensures TrueEntry(r.entries[i], past)
    {
      Held(r, i);
    }
  }

  lemma GrownTruthful(a: Store, b: Store, hist: History, count: nat)
    requires Grown(a, b, count) && CleanFree(a, count) && Truthful(a, hist, count)
    ensures Truthful(b, Extended(hist, b.slots.slotForSeq.Keys), count)
  {
    var hist' := Extended(hist, b.slots.slotForSeq.Keys);
    forall s | s in b.slots.slotForSeq
      ensures s in hist' && TrueRing(RingAt(b.rings, SlotOf(b, s), count), hist'[s])
    {
      assert RingAt(b.rings, SlotOf(b, s), count) == RingAt(a.rings, SlotOf(b, s), count);
      if s !in a.slots.slotForSeq {
        NewWasFree(a, b, s, count);
        EmptyTrue(RingAt(b.rings, SlotOf(b, s), count), hist'[s]);
      }
    }
  }

  lemma NewWasFree(a: Store, b: Store, s: int, count: nat)
    requires Grown(a, b, count) && s in b.slots.slotForSeq && s !in a.slots.slotForSeq
    ensures SlotOf(b, s) in a.slots.free
  {
    var k := SlotOf(b, s);
    assert Owns(b, s);
    if a.slots.refCount[k] != 0 {
      var t := SomeUser(a.slots, k);
      SoleOwner(b.slots, s, t);
    }
  }

  lemma DetachedTruthful(st: Store, s: int, hist: History, count: nat)
    requires CanDetach(st, s, count) && CleanFree(st, count) && Truthful(st, hist, count)
    ensures Truthful(DetachedStore(st, s, count), hist, count)
  {
    var b, from, to := DetachedStore(st, s, count), SlotOf(st, s), Top(st.slots);
    forall t | t in b.slots.slotForSeq
      ensures t in hist && TrueRing(RingAt(b.rings, SlotOf(b, t), count), hist[t])
    {
      SlotInUse(st.slots, t);
      if t == s {
        if b.rings == st.rings {
          assert to in st.slots.free;
          EmptyTrue(RingAt(st.rings, to, count), hist[s]);
        } else {
          assert RingOk(st.rings[from], count);
          CopiedTrue(st.rings[from], RingAt(st.rings, to, count), hist[s]);
        }
      }
    }
  }

  lemma CopiedTrue(src: Ring, dst: Ring, past: Past)
    requires |src.entries| == |dst.entries| && TrueRing(src, past)
    ensures TrueRing(CopiedRing(src, dst), past)
  {
    var c := CopiedRing(src, dst);
    forall i | 0 <= i < |c.entries|
      ensures TrueEntry(c.entries[i], past)
    {
      assert TrueEntry(src.entries[i], past);
    }
  }

  lemma {:induction false} DetachedToTruthful(st: Store, seqs: seq<int>, n: nat, hist: History, count: nat)
    requires Ok(st, count) && n <= |seqs| && Tidy(st, count) && Truthful(st, hist, count)
    ensures Truthful(DetachedTo(st, seqs, n, count), hist, count)
  {
    if n > 0 {
      DetachedToTruthful(st, seqs, n - 1, hist, count);
      DetachedToTidy(st, seqs, n - 1, count);
      var b := DetachedTo(st, seqs, n - 1, count);
      if CanDetach(b, seqs[n - 1], count) {
        DetachedTruthful(b, seqs[n - 1], hist, count);
      }
    }
  }

  /** dst has the past of src from now on, or none. */
  function SharedPast(hist: History, st: Store, src: int, dst: int): History {
    if src != dst && src in st.slots.slotForSeq && src in hist then hist[dst := hist[src]] else hist - {dst}
  }

  lemma SharedTruthful(st: Store, src: int, dst: int, hist: History, count: nat)
    requires Ok(st, count) && Truthful(st, hist, count)
    ensures Truthful(SharedStore(st, src, dst), SharedPast(hist, st, src, dst), count)
  {
    SharedKeeps(st, src, dst, count);
  }

  lemma ReleasedTruthful(st: Store, s: int, hist: History, count: nat)
    requires Ok(st, count) && Truthful(st, hist, count)
    ensures Truthful(ReleasedStore(st, s), hist - {s}, count)
  {
    ReleasedKeeps(st, s, count);
  }

  /** Only s has changed, and what it has is true. */
  lemma OneTruthful(a: Store, b: Store, s: int, hist: History, past: Past, count: nat)
    requires Ok(a, count) && Ok(b, count) && OthersKept(a, b, s) && Truthful(a, hist, count)
    requires s in b.slots.slotForSeq ==> TrueRing(RingAt(b.rings, SlotOf(b, s), count), past)
    ensures Truthful(b, hist[s := past], count)
  {
    forall t | t in b.slots.slotForSeq
      ensures t in hist[s := past] && TrueRing(RingAt(b.rings, SlotOf(b, t), count), hist[s := past][t])
    {
      if t != s {
        assert Same(a, b, t);
      }
    }
  }

  /** The past up to a position. */
  function UpToPast(past: Past, pos: int): Past {
    map p | p in past && p <= pos :: past[p]
  }

  lemma PrunedTrue(r: Ring, r': Ring, pos: int, past: Past)
    requires TrueRing(r, past) && RingPruned(r, r', pos)
    ensures TrueRing(r', UpToPast(past, pos))
  {
    forall i | 0 <= i < |r'.entries|
      ensures TrueEntry(r'.entries[i], UpToPast(past, pos))
    {
      assert TrueEntry(r.entries[i], past);
    }
  }

  /** The past with positions [begin, end) cut out and the later ones lowered. */
  function ClosedPast(past: Past, begin: int, end: int): Past
    requires begin <= end
  {
    map p | p in Views.Closed(past.Keys, begin, end) ::
      Views.ClosedHas(past.Keys, begin, end, p);
      past[Views.Before(p, begin, end)]
  }

  lemma ShiftedTrue(r: Ring, r': Ring, begin: int, end: int, past: Past)
    requires 0 < begin <= end && TrueRing(r, past) && RingShifted(r, r', begin, end)
    ensures TrueRing(r', ClosedPast(past, begin, end))
  {
    forall i | 0 <= i < |r'.entries|
      ensures TrueEntry(r'.entries[i], ClosedPast(past, begin, end))
    {
      assert TrueEntry(r.entries[i], past);
      Views.ClosedHas(past.Keys, begin, end, r'.entries[i].pos);
    }
  }

  // ----- Writing -----

  /** The first n sequences of a batch have come to their highest position with a new state. */
  function Written(hist: History, seqs: seq<int>, tops: seq<int>, news: seq<int>, n: nat): History
    requires |seqs| == |tops| == |news| && n <= |seqs|
  {
    if n == 0 then hist
    else
      var h, s := Written(hist, seqs, tops, news, n - 1), seqs[n - 1];
      h[s := (if s in h then h[s] else map[])[tops[n - 1] := news[n - 1]]]
  }

  lemma {:induction false} WrittenAt(hist: History, seqs: seq<int>, tops: seq<int>, news: seq<int>, n: nat)
    requires |seqs| == |tops| == |news| && n <= |seqs| && Different(seqs)
    ensures forall t | t !in seqs[..n] :: (t in Written(hist, seqs, tops, news, n) <==> t in hist)
                                       && (t in hist ==> Written(hist, seqs, tops, news, n)[t] == hist[t])
    ensures forall i | 0 <= i < n && seqs[i] in hist ::
      seqs[i] in Written(hist, seqs, tops, news, n) &&
      Written(hist, seqs, tops, news, n)[seqs[i]] == hist[seqs[i]][tops[i] := news[i]]
  {
    if n > 0 {
      WrittenAt(hist, seqs, tops, news, n - 1);
      assert seqs[..n] == seqs[..n - 1] + [seqs[n - 1]];
      assert seqs[n - 1] !in seqs[..n - 1];
    }
  }

  /** Every sequence of the batch goes on beyond its past. */
  ghost predicate Appending(hist: History, seqs: seq<int>, tops: seq<int>) {
    && |tops| == |seqs|
    && forall i, p | 0 <= i < |seqs| && seqs[i] in hist && p in hist[seqs[i]] :: p < tops[i]
  }

  /** Plans are made for the highest position of a batch. */
  ghost predicate PlansTop(planned: seq<int>, tops: seq<int>) {
    forall i | 0 <= i < |tops| && PlanAt(planned, i) >= 0 :: PlanAt(planned, i) == tops[i]
  }

  lemma SavedTrue(r: Ring, past: Past, pos: int, state: int)
    requires Sized(r) && r.entries != [] && TrueRing(r, past) && forall p | p in past :: p < pos
    ensures TrueRing(SavedRing(r, pos, state), past[pos := state]) && TrueRing(r, past[pos := state])
  {
    var q := SavedRing(r, pos, state);
    forall i | 0 <= i < |r.entries|
      ensures TrueEntry(q.entries[i], past[pos := state]) && TrueEntry(r.entries[i], past[pos := state])
    {
      assert TrueEntry(r.entries[i], past);
    }
  }

  lemma LongerTrue(r: Ring, past: Past, pos: int, state: int)
    requires TrueRing(r, past) && forall p | p in past :: p < pos
    ensures TrueRing(r, past[pos := state])
  {
    forall i | 0 <= i < |r.entries|
      ensures TrueEntry(r.entries[i], past[pos := state])
    {
      assert TrueEntry(r.entries[i], past);
    }
  }

  lemma UpdatedTruthful(a: Store, b: Store, seqs: seq<int>, slots: seq<int>, tops: seq<int>, news: seq<int>,
                        planned: seq<int>, hist: History, count: nat)
    requires |slots| == |news| && SlotsListed(a, slots) && UpdatedTo(a, b, slots, news, planned, |slots|, count)
    requires HaveSlots(a, seqs, slots) && Different(seqs) && OwnFirst(a, seqs, |seqs|)
    requires Truthful(a, hist, count) && Appending(hist, seqs, tops) && PlansTop(planned, tops)
    ensures Truthful(b, Written(hist, seqs, tops, news, |seqs|), count)
  {
    var hist' := Written(hist, seqs, tops, news, |seqs|);
    WrittenAt(hist, seqs, tops, news, |seqs|);
    assert seqs[..|seqs|] == seqs && slots[..|slots|] == slots;
    forall s | s in b.slots.slotForSeq
      ensures s in hist' && TrueRing(RingAt(b.rings, SlotOf(b, s), count), hist'[s])
    {
      if s in seqs {
        var i :| 0 <= i < |seqs| && seqs[i] == s;
        UpdatedOne(a, b, seqs, slots, tops, news, planned, hist, i, count);
      } else {
        NotListed(a, seqs, slots, s);
        SlotInUse(a.slots, s);
        assert Untouched(a, b, SlotOf(a, s));
      }
    }
  }

  lemma NotListed(st: Store, seqs: seq<int>, slots: seq<int>, s: int)
    requires Sound(st.slots) && HaveSlots(st, seqs, slots) && OwnFirst(st, seqs, |seqs|)
    requires s in st.slots.slotForSeq && s !in seqs
    ensures SlotOf(st, s) !in slots
  {
    if SlotOf(st, s) in slots {
      var i :| 0 <= i < |slots| && slots[i] == SlotOf(st, s);
      assert Owns(st, seqs[i]);
      SoleOwner(st.slots, seqs[i], s);
    }
  }

  lemma UpdatedOne(a: Store, b: Store, seqs: seq<int>, slots: seq<int>, tops: seq<int>, news: seq<int>,
                   planned: seq<int>, hist: History, i: nat, count: nat)
    requires |slots| == |news| && SlotsListed(a, slots) && UpdatedTo(a, b, slots, news, planned, |slots|, count)
    requires HaveSlots(a, seqs, slots) && Truthful(a, hist, count) && Appending(hist, seqs, tops)
    requires PlansTop(planned, tops)
    requires i < |seqs|
    ensures seqs[i] in hist && TrueRing(RingAt(b.rings, slots[i], count), hist[seqs[i]][tops[i] := news[i]])
  {
    var k, plan, s := slots[i], PlanAt(planned, i), seqs[i];
    assert SlotUpdated(a, b, k, news[i], plan, count);
    var ring := RingAt(a.rings, k, count);
    assert s in a.slots.slotForSeq && SlotOf(a, s) == k;
    if plan >= 0 && count > 0 {
      NewRingOk(count);
      assert RingOk(ring, count);
      SavedTrue(ring, hist[s], plan, news[i]);
    } else {
      LongerTrue(ring, hist[s], tops[i], news[i]);
    }
  }

  // ----- The operations together -----

  lemma GrownFaithful(a: Store, b: Store, hist: History, count: nat)
    requires Grown(a, b, count)
    ensures Tidy(a, count) ==> Tidy(b, count)
    ensures Tidy(a, count) && Truthful(a, hist, count) ==> Truthful(b, Extended(hist, b.slots.slotForSeq.Keys), count)
  {
    if Tidy(a, count) {
      GrownTidy(a, b, count);
      if Truthful(a, hist, count) {
        GrownTruthful(a, b, hist, count);
      }
    }
  }

  lemma DetachedToFaithful(st: Store, seqs: seq<int>, n: nat, hist: History, planned: seq<int>, count: nat)
    requires Ok(st, count) && n <= |seqs|
    ensures var b := DetachedTo(st, seqs, n, count);
            Tidy(st, count) ==>
              && Tidy(b, count)
              && (Truthful(st, hist, count) ==> Truthful(b, hist, count))
              && (PlansAbove(st, seqs, planned, count) ==> PlansAbove(b, seqs, planned, count))
  {
    if Tidy(st, count) {
      DetachedToTidy(st, seqs, n, count);
      if Truthful(st, hist, count) {
        DetachedToTruthful(st, seqs, n, hist, count);
      }
      if PlansAbove(st, seqs, planned, count) {
        DetachedToPlans(st, seqs, n, seqs, planned, count);
      }
    }
  }

  lemma OwnersListed(st: Store, seqs: seq<int>, slots: seq<int>)
    requires Sound(st.slots) && |st.states| == |st.slots.refCount|
    requires HaveSlots(st, seqs, slots) && Different(seqs) && OwnFirst(st, seqs, |seqs|)
    ensures SlotsListed(st, slots)
  {
    forall i, j | 0 <= i < j < |slots|
      ensures slots[i] != slots[j]
    {
      assert Owns(st, seqs[i]) && Owns(st, seqs[j]);
      SoleOwner(st.slots, seqs[i], seqs[j]);
    }
    forall i | 0 <= i < |slots|
      ensures 0 <= slots[i] < |st.states|
    {
      SlotInUse(st.slots, seqs[i]);
    }
  }

  lemma UpdatedFaithful(a: Store, b: Store, seqs: seq<int>, slots: seq<int>, tops: seq<int>, news: seq<int>,
                        planned: seq<int>, hist: History, count: nat)
    requires |slots| == |news| == |tops| && SlotsListed(a, slots)
    requires UpdatedTo(a, b, slots, news, planned, |slots|, count)
    requires HaveSlots(a, seqs, slots) && Different(seqs) && OwnFirst(a, seqs, |seqs|)
    ensures Tidy(a, count) && PlansAbove(a, seqs, planned, count) ==> Tidy(b, count)
    ensures Truthful(a, hist, count) && Appending(hist, seqs, tops) && PlansTop(planned, tops) ==>
      Truthful(b, Written(hist, seqs, tops, news, |seqs|), count)
  {
    if Tidy(a, count) && PlansAbove(a, seqs, planned, count) {
      UpdatedTidy(a, b, seqs, slots, news, planned, count);
    }
    if Truthful(a, hist, count) && Appending(hist, seqs, tops) && PlansTop(planned, tops) {
      UpdatedTruthful(a, b, seqs, slots, tops, news, planned, hist, count);
    }
  }

  /** dst gives up a slot with checkpoints. */
  ghost predicate LeavesCheckpoints(st: Store, dst: int, count: nat) {
    Owns(st, dst) && Checkpoints(RingAt(st.rings, SlotOf(st, dst), count)) != {}
  }

  lemma SharedFaithful(st: Store, src: int, dst: int, hist: History, count: nat)
    requires Ok(st, count)
    ensures AllOrdered(st) ==> AllOrdered(SharedStore(st, src, dst))
    ensures CleanFree(st, count) ==>
      (CleanFree(SharedStore(st, src, dst), count) <==> !LeavesCheckpoints(st, dst, count))
    ensures Truthful(st, hist, count) ==> Truthful(SharedStore(st, src, dst), SharedPast(hist, st, src, dst), count)
  {
    if CleanFree(st, count) {
      SharedClean(st, src, dst, count);
    }
    if Truthful(st, hist, count) {
      SharedTruthful(st, src, dst, hist, count);
    }
  }

  lemma ReleasedFaithful(st: Store, s: int, hist: History, count: nat)
    requires Ok(st, count)
    ensures Tidy(st, count) ==> Tidy(ReleasedStore(st, s), count)
    ensures Truthful(st, hist, count) ==> Truthful(ReleasedStore(st, s), hist - {s}, count)
  {
    if Tidy(st, count) {
      ReleasedTidy(st, s, count);
    }
    if Truthful(st, hist, count) {
      ReleasedTruthful(st, s, hist, count);
    }
  }

  // ----- Without clean free slots -----

  /** A sequence without checkpoints that copy on write moves into a stale slot has its checkpoints from then on; a
      checkpoint planned for it, above all it had, keeps them in order exactly if it lies above those, too. */
  lemma StaleDetach(st: Store, s: int, pos: int, state: int, count: nat)
    requires CanDetach(st, s, count) && AllOrdered(st) && count > 0 && 0 <= pos < MAX_INT32
    requires RingAt(st.rings, SlotOf(st, s), count).size == 0 && Top(st.slots) in st.rings
    ensures PlanAbove(st, s, pos, count)
    ensures var b, stale := DetachedStore(st, s, count), st.rings[Top(st.slots)];
            && Ok(b, count) && RingAt(b.rings, SlotOf(b, s), count) == stale
            && (Ordered(UpdatedStore(b, SlotOf(b, s), state, pos, count).rings[SlotOf(b, s)]) <==>
                AboveRest(stale, pos))
  {
    DetachKeeps(st, s, count);
    var stale := st.rings[Top(st.slots)];
    assert RingOk(stale, count);
    RingAtOrdered(st, SlotOf(st, s), count);
    SizeZero(RingAt(st.rings, SlotOf(st, s), count));
    RecordedOrderedExactly(stale, pos);
    SavedOrderedExactly(stale, pos, state);
  }

  /** A ring of size zero has no checkpoints and no last position. */
  lemma SizeZero(r: Ring)
    requires Ordered(r) && r.size == 0
    ensures Checkpoints(r) == {} && r.lastPos == -1
  {
    NothingLeft(r.entries);
    EmptyLast(r);
  }

  lemma SavedOrderedExactly(r: Ring, pos: int, state: int)
    requires Sized(r) && r.entries != [] && pos >= 0
    ensures Ordered(SavedRing(r, pos, state)) <==> Ordered(Recorded(r, pos))
  {
    var recorded, saved := Recorded(r, pos), SavedRing(r, pos, state);
    assert forall i | 0 <= i < |r.entries| :: saved.entries[i].pos == recorded.entries[i].pos;
    if Ordered(recorded) {
      SamePositionsOrdered(recorded, saved);
    } else if Ordered(saved) {
      SamePositionsOrdered(saved, recorded);
    }
  }

  /** One checkpoint at position 9 in a ring of two. */
  function StaleRing(): Ring {
    Ring([Entry(9, Some(77)), Entry(-1, None)], 1, 1, 9)
  }

  lemma StaleRingOrdered()
    ensures RingOk(StaleRing(), 2) && Ordered(StaleRing()) && 9 in Checkpoints(StaleRing())
    ensures !AboveRest(StaleRing(), 5)
    ensures forall past: Past :: TrueRing(StaleRing(), past) <==> 9 in past && past[9] == 77
  {
    var r := StaleRing();
    assert ValidCount(r.entries, 1) == 1 && ValidCount(r.entries, 2) == 1;
    assert r.entries[0].pos in Checkpoints(r);
    assert r.entries[0].Valid() && !r.entries[1].Valid();
  }

  /** Two sequences with a slot each. */
  function Apart(): Slots {
    Slots(map[0 := 0, 1 := 1], [1, 1], [])
  }

  /** The second has taken over the first one's slot. */
  function Together(): Slots {
    Slots(map[0 := 0, 1 := 0], [2, 0], [1])
  }

  lemma ApartSound()
    ensures Sound(Apart())
  {
    assert Users(Apart().slotForSeq, 0) == {0} && Users(Apart().slotForSeq, 1) == {1};
  }

  lemma TogetherSound()
    ensures Sound(Together())
  {
    var m := Together().slotForSeq;
    assert Users(m, 0) == {0, 1} && Users(m, 1) == {};
    assert Together().free[0] == 1;
  }

  lemma ApartShared()
    ensures Shared(Apart(), 0, 1) == Together()
  {
    assert Released(Apart(), 1) == Slots(map[0 := 0], [1, 0], [1]);
  }

  function StaleStore(slots: Slots): Store {
    Store(slots, [10, 20], map[1 := StaleRing()])
  }

  /** The same after a pass has been started: planning has made an empty store for the slot in use. */
  function StalePlanned(): Store {
    Store(Together(), [10, 20], map[0 := NewRing(2), 1 := StaleRing()])
  }

  /** A tidy store in which sharing a prefix leaves a stale slot. */
  lemma StaleStart()
    ensures Ok(StaleStore(Apart()), 2) && Tidy(StaleStore(Apart()), 2)
    ensures SharedStore(StaleStore(Apart()), 0, 1) == StaleStore(Together())
    ensures Ok(StaleStore(Together()), 2) && AllOrdered(StaleStore(Together()))
    ensures !CleanFree(StaleStore(Together()), 2)
  {
    ApartSound();
    TogetherSound();
    ApartShared();
    StaleRingOrdered();
    assert Together().free[0] == 1;
  }

  /** A pass over position 5 of the second sequence plans a checkpoint there, and leaves that store. */
  method StalePlan() returns (planned: seq<int>, rings: map<int, Ring>)
    ensures planned == [5] && rings == StalePlanned().rings
  {
    var b := KvCells.Batch([1], [5]);
    var before := map[1 := StaleRing()];
    StaleRingOrdered();
    planned, rings := PlanCheckpoints(before, [1], [0], b, 0, 1, 2);
    StalePlannedAt(b, planned[0]);
    assert planned == [5];
    StaleRings(rings);
  }

  lemma StalePlannedAt(b: KvCells.Batch, pos: int)
    requires b == KvCells.Batch([1], [5]) && PlannedWell(b, 1, NewRing(2), 0, 1, pos)
    ensures pos == 5
  {
    assert HighestIn(b, 1, 0) == -1 && HighestIn(b, 1, 1) == 5;
  }

  lemma StaleRings(rings: map<int, Ring>)
    requires 0 in rings && 1 in rings && rings[1] == StaleRing()
    requires forall k | k in rings && k != 1 :: k in [0] && rings[k] == NewRing(2)
    ensures rings == StalePlanned().rings
  {
    assert forall k | k in rings :: k == 0 || k == 1;
  }

  lemma StalePlannedOk()
    ensures Ok(StalePlanned(), 2) && AllOrdered(StalePlanned())
  {
    TogetherSound();
    StaleRingOrdered();
    NewRingOk(2);
    NewRingOrdered(2);
  }

  /** Copy on write moves the second sequence into the stale slot, its checkpoint is out of order there, and
      position 9, which it never had a state for, can be restored. */
  lemma StaleSlot()
    ensures var b := StalePlanned();
            && CanDetach(b, 1, 2) && PlanAbove(b, 1, 5, 2)
            && var c := DetachedStore(b, 1, 2);
            && Ok(c, 2) && SlotOf(c, 1) == 1 && !Ordered(UpdatedStore(c, 1, 30, 5, 2).rings[1])
            && 9 in Checkpoints(RingAt(c.rings, 1, 2))
            && forall hist: History | 1 in hist && 9 !in hist[1] :: !Truthful(c, hist, 2)
  {
    StalePlannedOk();
    StaleRingOrdered();
    StaleDetach(StalePlanned(), 1, 5, 30, 2);
  }

  // ----- Stale restores -----

  /** Whoever uses the slot of a restore keeps state and entries through it exactly when the slot already has the
      checkpoint's state and no later checkpoint. */
  lemma StrayExactly(st: Store, st': Store, r: Restore, count: nat)
    requires RestoreApplied(st, st', r, count)
    ensures st'.states[r.slot] == st.states[r.slot] && st'.rings[r.slot].entries == st.rings[r.slot].entries <==>
            st.states[r.slot] == RestoreEntry(st, r).value.data.value &&
            forall i | 0 <= i < count :: st.rings[r.slot].entries[i].pos <= r.pos
  {
    var old', new' := st.rings[r.slot].entries, st'.rings[r.slot].entries;
    assert RingOk(st.rings[r.slot], count);
    if forall i | 0 <= i < count :: old'[i].pos <= r.pos {
      assert new' == old';
    } else {
      var i :| 0 <= i < count && old'[i].pos > r.pos;
      assert new'[i] == PrunedEntry(old'[i], r.pos);
    }
  }

  /** Two sequences share slot 0, which has a checkpoint at position 4. */
  function StrayStore(): Store {
    Store(Together(), [10, 20], map[0 := Ring([Entry(4, Some(77))], 1, 0, 4)])
  }

  /** A restore noted for the first sequence names that checkpoint. Once copy on write has moved the sequence away, it
      strays: applied, it gives the second sequence the state 77. */
  lemma StrayRestore()
    ensures var a, r := StrayStore(), Restore(0, 0, 4);
            && Ok(a, 1) && Names(a, 0, r) && CanDetach(a, 0, 1)
            && var b := DetachedStore(a, 0, 1);
            && Ok(b, 1) && RestoreEntry(b, r) == Some(Entry(4, Some(77))) && Strays(b, 0, r)
            && SlotOf(b, 1) == 0 && b.states[0] == 10
  {
    var a, r := StrayStore(), Restore(0, 0, 4);
    TogetherSound();
    var ring := a.rings[0];
    assert ValidCount(ring.entries, 1) == 1;
    assert RingOk(ring, 1);
    DetachKeeps(a, 0, 1);
    var b := DetachedStore(a, 0, 1);
    assert 1 in b.slots.slotForSeq && SlotOf(b, 1) == 0;
    assert b.slots.refCount[SlotOf(b, 0)] == 1;
  }

  /** Three sequences, two of which share slot 0; the third is in slot 2, which alone has a checkpoint. */
  function LostStore(): Store {
    Store(Slots(map[0 := 0, 1 := 0, 2 := 2], [2, 0, 1], [1]), [10, 20, 30],
          map[2 := Ring([Entry(4, Some(77))], 1, 0, 4)])
  }

  /** A restore noted for the first sequence while it was in slot 2 is complete, and is not in the private copy that
      the removal makes for it: the removal detaches the sequence, cuts the KV cache and then reports NotSupported. */
  lemma LostRestore()
    ensures var a, r := LostStore(), Restore(2, 0, 4);
            && Ok(a, 1) && RestoreEntry(a, r).Some? && CanDetach(a, 0, 1)
            && RestoreEntry(DetachedStore(a, 0, 1), r.(slot := Top(a.slots))).None?
  {
    var a := LostStore();
    var m := a.slots.slotForSeq;
    assert Users(m, 0) == {0, 1} && Users(m, 1) == {} && Users(m, 2) == {2};
    assert a.slots.free[0] == 1;
    var ring := a.rings[2];
    assert ValidCount(ring.entries, 1) == 1;
    assert RingOk(ring, 1);
  }
}
