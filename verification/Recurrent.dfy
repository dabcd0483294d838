/** The hybrid cache: a causal KV cache next to copy-on-write recurrent state with checkpoints. */
module Recurrent {
  import opened Prelude
  import opened KvCells
  import Kv = Causal
  import opened Causal
  import opened Slots
  import opened RecurrentStore
  import opened CheckpointRing
  import opened RecurrentTruth
  import Views = CausalRuns
  import Rounding

  class HybridCache {
    const kv: Kv.Cache
    const policy: Policy
    var store: Store
    var pending: map<int, Restore>
    // the current forward pass
    var curSeqs: seq<int>
    var curSlots: seq<int>
    var curCheckpointPos: seq<int>
    // the states each sequence has had, and the positions the current pass comes to
    ghost var hist: History
    ghost var curTops: seq<int>

    ghost predicate Valid()
      reads this, kv
    {
      kv.Valid() && RecurrentStore.Ok(store, policy.count) && policy.Valid()
    }

    /** The current batch: different sequences, with the slots they use. */
    ghost predicate BatchValid()
      reads this
    {
      HaveSlots(store, curSeqs, curSlots) && Different(curSeqs)
    }

    /** Rings are ordered, free slots are clean, and every checkpoint is a state its sequences had. */
    ghost predicate Faithful()
      reads this
    {
      Tidy(store, policy.count) && Truthful(store, hist, policy.count)
    }

    /** The planned checkpoints are for the positions of this pass, above what their slots hold. */
    ghost predicate PlansReady()
      reads this
    {
      PlansAbove(store, curSeqs, curCheckpointPos, policy.count) && PlansTop(curCheckpointPos, curTops)
    }

    constructor (kv: Kv.Cache, maxSequences: nat, policy: Policy)
      requires kv.Valid() && policy.Valid()
      ensures Valid() && this.kv == kv && this.policy == policy && pending == map[]
      ensures store.slots == NewSlots(maxSequences) && store.rings == map[] && hist == map[] && Faithful()
    {
      NewSound(maxSequences);
      this.kv, this.policy := kv, policy;
      store := Store(NewSlots(maxSequences), seq(maxSequences, _ => 0), map[]);
      pending, curSeqs, curSlots, curCheckpointPos := map[], [], [], [];
      hist, curTops := map[], [];
      NewRingOrdered(policy.count);
    }

    function CurPass(): Pass
      reads this
    {
      Pass(curSeqs, curSlots, curCheckpointPos)
    }

    /** Starts a pass: the KV cache first, then a slot for each sequence, all of which must have equally many
        tokens. With at most as many sequences as slots, the slots never run out. */
    method StartForward(b: Batch) returns (o: Outcome)
      requires Valid() && b.Valid()
      modifies this`store, this`curSeqs, this`curSlots, this`curCheckpointPos, this`hist, this`curTops, kv
      ensures Valid()
      ensures Kv.Forwarded(old(kv.cells), b, kv.memory, Fits(old(kv.cells), b, kv.memory), kv.curLoc, kv.cells)
      ensures !Fits(old(kv.cells), b, kv.memory) ==> o == Err(KvCacheFull) && store == old(store) && hist == old(hist)
      ensures Fits(old(kv.cells), b, kv.memory) ==>
        Begun(old(store), old(hist), store, hist, b, o, CurPass(), curTops, policy)
    {
      o := kv.StartForward(b, false);
      if o.Ok? {
        o := StartStates(b);
      }
    }

    /** The recurrent part of starting a pass. */
    method StartStates(b: Batch) returns (o: Outcome)
      requires Valid() && b.Valid()
      modifies this`store, this`curSeqs, this`curSlots, this`curCheckpointPos, this`hist, this`curTops
      ensures Valid() && Begun(old(store), old(hist), store, hist, b, o, CurPass(), curTops, policy)
    {
      var st, pass;
      ghost var past, tops;
      o, st, pass, past, tops := StartBatch(store, b, policy, hist);
      store, curSeqs, curSlots, curCheckpointPos := st, pass.seqs, pass.slots, pass.planned;
      hist, curTops := past, tops;
      assert CurPass() == pass;
    }

    /** Gives the sequences of the batch private slots before they are written. */
    method EnsureWritable() returns (o: Outcome)
      requires Valid() && BatchValid()
      modifies this`store, this`curSlots
      ensures Valid() && (o.Ok? ==> BatchValid())
      ensures Privatized(old(store), store, curSeqs, curSlots, curCheckpointPos, o, hist, policy.count)
    {
      o, store, curSlots := Privatize(store, curSeqs, curSlots, curCheckpointPos, policy.count, hist);
    }

    /** Writes the new states of the batch and saves the checkpoints planned for it; other slots are untouched. Rings
        stay ordered if plans lie above; checkpoints stay true if every sequence goes on beyond its past. */
    method UpdateStates(news: seq<int>)
      requires Valid() && BatchValid() && |news| == |curSeqs| == |curTops|
      requires forall i | 0 <= i < |curCheckpointPos| :: curCheckpointPos[i] < MAX_INT32
      requires OwnFirst(store, curSeqs, |curSeqs|)
      modifies this`store, this`hist
      ensures Valid() && BatchValid() && SlotsListed(old(store), curSlots)
      ensures UpdatedTo(old(store), store, curSlots, news, curCheckpointPos, |curSlots|, policy.count)
      ensures hist == Written(old(hist), curSeqs, curTops, news, |curSeqs|)
      ensures old(Tidy(store, policy.count)) && old(PlansReady()) ==> Tidy(store, policy.count)
      ensures old(Faithful()) && old(PlansReady()) && Appending(old(hist), curSeqs, curTops) ==> Faithful()
    {
      OwnersListed(store, curSeqs, curSlots);
      var st := RecurrentStore.UpdateStates(store, curSlots, news, curCheckpointPos, policy.count);
      UpdatedFaithful(store, st, curSeqs, curSlots, curTops, news, curCheckpointPos, hist, policy.count);
      store, hist := st, Written(hist, curSeqs, curTops, news, |curSeqs|);
    }

    /** Lets dst share the KV prefix and the slot of src. */
    method CopyPrefix(src: int, dst: int, len: int)
      requires Valid()
      modifies this`store, this`hist, kv
      ensures Valid() && kv.cells == SharedAll(old(kv.cells), src, dst, len)
      ensures store == SharedStore(old(store), src, dst)
      ensures hist == SharedPast(old(hist), old(store), src, dst)
      ensures old(AllOrdered(store)) ==> AllOrdered(store)
      ensures old(CleanFree(store, policy.count)) ==>
        (CleanFree(store, policy.count) <==> !LeavesCheckpoints(old(store), dst, policy.count))
      ensures old(Truthful(store, hist, policy.count)) ==> Truthful(store, hist, policy.count)
      ensures OthersKept(old(store), store, dst) && store.rings == old(store).rings
      ensures src in old(store).slots.slotForSeq && src != dst ==>
        dst in store.slots.slotForSeq && SlotOf(store, dst) == SlotOf(old(store), src)
      ensures src !in old(store).slots.slotForSeq || src == dst ==> dst !in store.slots.slotForSeq
    {
      kv.CopyPrefix(src, dst, len);
      SharedKeeps(store, src, dst, policy.count);
      SharedFaithful(store, src, dst, hist, policy.count);
      hist := SharedPast(hist, store, src, dst);
      store := SharedStore(store, src, dst);
    }

    /** The prefix length that the greatest checkpoint below target allows, noted for the removal to come. */
    method PrepareRestore(s: int, target: int) returns (keep: int, ok: bool)
      requires Valid()
      modifies this`pending
      ensures ok <==> target > 0 && s in store.slots.slotForSeq && SlotOf(store, s) in store.rings &&
                      exists p :: p in Checkpoints(store.rings[SlotOf(store, s)]) && p < target
      ensures !ok ==> keep == 0 && pending == old(pending)
      ensures ok ==> IsBest(store.rings[SlotOf(store, s)], target, keep - 1)
      ensures ok ==> s in pending && pending[s].slot == SlotOf(store, s) && pending[s].pos == keep - 1 &&
                     0 <= pending[s].idx < policy.count &&
                     store.rings[SlotOf(store, s)].entries[pending[s].idx].pos == keep - 1
    {
      if target <= 0 || s !in store.slots.slotForSeq {
        return 0, false;
      }
      var slot := store.slots.slotForSeq[s];
      if slot !in store.rings {
        return 0, false;
      }
      assert RingOk(store.rings[slot], policy.count);
      var idx, pos, found := BestIndex(store.rings[slot], target);
      if !found {
        return 0, false;
      }
      assert store.rings[slot].entries[idx].pos in Checkpoints(store.rings[slot]);
      pending := pending[s := Restore(slot, idx, pos)];
      return pos + 1, true;
    }

    /** Removes positions from s. Removing from the start gives the slot up; cutting out the middle shifts the
        checkpoints along with the positions, on a private copy if they are shared; cutting off the end needs a
        complete restore noted for it. */
    method Remove(s: int, begin: int, end: int, shiftErrors: set<int>) returns (o: Outcome)
      requires Valid() && 0 <= begin <= end <= MAX_INT32
      modifies this`store, this`pending, this`hist, kv
      ensures Valid() && OthersUntouched(old(kv.cells), kv.cells, s)
      ensures o.Ok? ==> s !in pending && kv.cells == RemovedAll(old(kv.cells), s, begin, end)
      ensures begin == 0 ==> StartCut(old(store), old(hist), store, hist, s, o, policy.count)
      ensures begin == 0 && end == MAX_INT32 ==> o.Ok?
      ensures begin > 0 && end != MAX_INT32 ==>
        MiddleCut(old(store), old(hist), store, hist, s, begin, end, o, policy.count)
      ensures begin > 0 && end == MAX_INT32 && Restorable(old(store), old(pending), s, begin) ==>
        EndCut(old(store), old(hist), store, hist, s, old(pending)[s], o, policy.count)
      ensures begin > 0 && end == MAX_INT32 && !Restorable(old(store), old(pending), s, begin) ==>
        o == Err(NotSupported) && store == old(store) && hist == old(hist)
      ensures begin > 0 && end == MAX_INT32 ==>
        kv.cells == if o == Err(KvCacheFull) || !Restorable(old(store), old(pending), s, begin) then old(kv.cells)
                    else RemovedAll(old(kv.cells), s, begin, MAX_INT32)
      ensures begin == 0 || end != MAX_INT32 ==>
        Removal(old(kv.cells), old(kv.rows), s, begin, end, KvPart(o), kv.cells, kv.rows)
    {
      if begin > 0 && end != MAX_INT32 {
        o := RemoveMiddle(s, begin, end, shiftErrors);
      } else if begin > 0 {
        o := RemoveEnd(s, begin);
      } else {
        o := RemoveStart(s, end, shiftErrors);
      }
    }

    method RemoveStart(s: int, end: int, shiftErrors: set<int>) returns (o: Outcome)
      requires Valid() && 0 <= end <= MAX_INT32
      modifies this`store, this`pending, this`hist, kv
      ensures Valid() && OthersUntouched(old(kv.cells), kv.cells, s)
      ensures o.Ok? ==> s !in pending && kv.cells == RemovedAll(old(kv.cells), s, 0, end)
      ensures end == MAX_INT32 ==> o.Ok?
      ensures Removal(old(kv.cells), old(kv.rows), s, 0, end, KvPart(o), kv.cells, kv.rows)
      ensures StartCut(old(store), old(hist), store, hist, s, o, policy.count)
    {
      o := kv.Remove(s, 0, end, shiftErrors);
      StartCutHolds(store, hist, s, o, policy.count);
      if o.Ok? {
        pending := pending - {s};
        store, hist := ReleasedStore(store, s), hist - {s};
      }
    }

    method RemoveMiddle(s: int, begin: int, end: int, shiftErrors: set<int>) returns (o: Outcome)
      requires Valid() && 0 < begin <= end < MAX_INT32
      modifies this`store, this`pending, this`hist, kv
      ensures Valid() && OthersUntouched(old(kv.cells), kv.cells, s)
      ensures o.Ok? ==> s !in pending && kv.cells == RemovedAll(old(kv.cells), s, begin, end)
      ensures Removal(old(kv.cells), old(kv.rows), s, begin, end, KvPart(o), kv.cells, kv.rows)
      ensures MiddleCut(old(store), old(hist), store, hist, s, begin, end, o, policy.count)
    {
      o := kv.Remove(s, begin, end, shiftErrors);
      if o.Err? || s !in store.slots.slotForSeq {
        MiddleCutIdle(store, hist, s, begin, end, o, policy.count);
        if o.Ok? {
          pending := pending - {s};
        }
        return;
      }
      pending := pending - {s};
      var st;
      ghost var past;
      o, st, past := ExciseStore(store, s, begin, end, policy.count, hist);
      store, hist := st, past;
    }

    method RemoveEnd(s: int, begin: int) returns (o: Outcome)
      requires Valid() && 0 < begin <= MAX_INT32
      modifies this`store, this`pending, this`hist, kv
      ensures Valid() && OthersUntouched(old(kv.cells), kv.cells, s)
      ensures o.Ok? ==> s !in pending && kv.cells == RemovedAll(old(kv.cells), s, begin, MAX_INT32)
      ensures Restorable(old(store), old(pending), s, begin) ==>
        EndCut(old(store), old(hist), store, hist, s, old(pending)[s], o, policy.count)
      ensures !Restorable(old(store), old(pending), s, begin) ==>
        o == Err(NotSupported) && store == old(store) && hist == old(hist)
      ensures o.Ok? ==>
        s in old(pending) && old(pending)[s].pos == begin - 1 && old(pending)[s].slot in old(store).rings
      ensures kv.cells == if o == Err(KvCacheFull) || !Restorable(old(store), old(pending), s, begin) then old(kv.cells)
                          else RemovedAll(old(kv.cells), s, begin, MAX_INT32)
    {
      if !Restorable(store, pending, s, begin) {
        return Err(NotSupported);
      }
      var st;
      ghost var past;
      o, st, past := ApplyPending(store, s, pending[s], policy.count, hist);
      if o == Err(KvCacheFull) {
        return;
      }
      var removed := kv.Remove(s, begin, MAX_INT32, {});
      assert removed.Ok?;
      pending := pending - {s};
      store, hist := st, past;
    }

    /** What loading a prompt into a slot does when up to target tokens of it may be reused: roll back to the
        greatest checkpoint below target, or else start over. The number of tokens kept is returned. */
    method Reuse(s: int, target: int) returns (keep: int, o: Outcome)
      requires Valid() && 0 <= target < MAX_INT32
      modifies this`store, this`pending, this`hist, kv
      ensures Valid() && OthersUntouched(old(kv.cells), kv.cells, s)
      ensures o.Ok? && 0 <= keep && Rolled(old(store), old(hist), store, hist, s, target, keep, o, policy.count)
      ensures KvCells.Positions(kv.cells, s) == Views.Below(KvCells.Positions(old(kv.cells), s), keep)
    {
      keep, o := RollBack(s, target);
      if o.Err? {
        ghost var b, h', cells := store, hist, kv.cells;
        Views.RollbackPositions(cells, s, 0, s);
        o := Remove(s, 0, MAX_INT32, {});
        StartOverRolls(old(store), old(hist), b, h', store, hist, s, target, keep, policy.count);
        keep := 0;
      }
      assert KvCells.Positions(kv.cells, s) == Views.Below(KvCells.Positions(old(kv.cells), s), keep);
    }

    /** The restore and the removal. */
    method RollBack(s: int, target: int) returns (keep: int, o: Outcome)
      requires Valid() && 0 <= target < MAX_INT32
      modifies this`store, this`pending, this`hist, kv
      ensures Valid() && OthersUntouched(old(kv.cells), kv.cells, s) && 0 <= keep
      ensures Rolled(old(store), old(hist), store, hist, s, target, keep, o, policy.count)
      ensures o.Ok? ==> KvCells.Positions(kv.cells, s) == Views.Below(KvCells.Positions(old(kv.cells), s), keep)
    {
      var ok;
      keep, ok := PrepareRestore(s, target);
      Views.RollbackPositions(kv.cells, s, keep, s);
      ghost var a, h, noted := store, hist, pending;
      o := Remove(s, keep, MAX_INT32, {});
      if ok {
        RestoreRolls(a, h, store, hist, s, noted[s], target, o, policy.count);
      } else {
        ReleaseRolls(a, h, store, hist, s, target, o, policy.count);
      }
    }
  }

  /** A complete restore to just before begin is noted for s. */
  predicate Restorable(st: Store, pending: map<int, Restore>, s: int, begin: int) {
    s in pending && pending[s].pos + 1 == begin && RestoreEntry(st, pending[s]).Some?
  }

  /** s is at a state it has had at pos before. */
  ghost predicate HadState(hist: History, s: int, pos: int, st: Store) {
    && s in hist && pos in hist[s] && s in st.slots.slotForSeq && 0 <= SlotOf(st, s) < |st.states|
    && st.states[SlotOf(st, s)] == hist[s][pos]
  }

  /** A stale restore overwrites the state of the slot it names, whoever uses it now. */
  ghost predicate Astray(a: Store, b: Store, r: Restore, o: Outcome) {
    && o.Ok? && b.slots == a.slots && RestoreEntry(a, r).Some? && 0 <= r.slot < |a.states|
    && b.states == a.states[r.slot := RestoreEntry(a, r).value.data.value]
  }

  /** What the KV cache answered: it removes first, so for want of a slot it has been cut already. */
  function KvPart(o: Outcome): Outcome {
    if o == Err(KvCacheFull) then Outcome.Ok else o
  }

  /** A faithful store stays faithful. */
  ghost predicate KeepsFaith(a: Store, h: History, b: Store, h': History, count: nat) {
    Tidy(a, count) && Truthful(a, h, count) ==> Tidy(b, count) && Truthful(b, h', count)
  }

  /** What a removal from the start does to the slots: s has none any more, and nobody else notices. */
  ghost predicate StartCut(a: Store, h: History, b: Store, h': History, s: int, o: Outcome, count: nat) {
    && RecurrentStore.Ok(a, count) && RecurrentStore.Ok(b, count) && OthersKept(a, b, s)
    && KeepsFaith(a, h, b, h', count)
    && (if o.Ok? then s !in b.slots.slotForSeq && h' == h - {s} else b == a && h' == h)
  }

  lemma StartCutHolds(st: Store, hist: History, s: int, o: Outcome, count: nat)
    requires RecurrentStore.Ok(st, count)
    ensures if o.Ok? then StartCut(st, hist, ReleasedStore(st, s), hist - {s}, s, o, count)
            else StartCut(st, hist, st, hist, s, o, count)
  {
    ReleasedKeeps(st, s, count);
    ReleasedFaithful(st, s, hist, count);
  }

  /** What cutting out the middle does to the slots: s owns one with the state it had and its checkpoints moved
      along; without a slot to be had nothing changes; and nobody else notices. */
  ghost predicate MiddleCut(a: Store, h: History, b: Store, h': History, s: int, begin: int, end: int, o: Outcome,
                            count: nat)
    requires begin <= end
  {
    && RecurrentStore.Ok(a, count) && RecurrentStore.Ok(b, count) && OthersKept(a, b, s)
    && KeepsFaith(a, h, b, h', count)
    && (s in a.slots.slotForSeq <==> s in b.slots.slotForSeq)
    && (o.Ok? && s in a.slots.slotForSeq ==> Excised(a, b, s, begin, end, count))
    && (o.Err? ==> b == a)
    && h' == (if o.Ok? && s in a.slots.slotForSeq then ExcisedPast(h, s, begin, end) else h)
  }

  /** The past of s with the positions cut out. */
  function ExcisedPast(h: History, s: int, begin: int, end: int): History
    requires begin <= end
  {
    h[s := ClosedPast(if s in h then h[s] else map[], begin, end)]
  }

  /** The past of s up to pos. */
  function RewoundPast(h: History, s: int, pos: int): History {
    h[s := UpToPast(if s in h then h[s] else map[], pos)]
  }

  lemma MiddleCutIdle(st: Store, hist: History, s: int, begin: int, end: int, o: Outcome, count: nat)
    requires RecurrentStore.Ok(st, count) && (o.Ok? ==> s !in st.slots.slotForSeq) && begin <= end
    ensures MiddleCut(st, hist, st, hist, s, begin, end, o, count)
  {
  }

  /** Copy on write moves s into a slot in which the restore finds no complete checkpoint. */
  ghost predicate LosesEntry(a: Store, s: int, r: Restore, count: nat) {
    CanDetach(a, s, count) && RestoreEntry(DetachedStore(a, s, count), r.(slot := Top(a.slots))).None?
  }

  /** What cutting off the end does to the slots, with restore r noted: with no slot to be had nothing changes. If r
      names a checkpoint of s, then s alone owns a slot with its state, which is one s had at that position. Nobody
      else notices unless r strays, and then the slot it names is overwritten. */
  ghost predicate EndCut(a: Store, h: History, b: Store, h': History, s: int, r: Restore, o: Outcome, count: nat) {
    && RecurrentStore.Ok(a, count) && RecurrentStore.Ok(b, count)
    && (o == Outcome.Ok || o == Err(KvCacheFull) || o == Err(NotSupported))
    && (o == Err(KvCacheFull) ==> b == a && h' == h && Shares(a, s) && |a.slots.slotForSeq| > |a.slots.refCount|)
    && (o == Err(NotSupported) <==> LosesEntry(a, s, r, count))
    && (o == Err(NotSupported) ==> b == DetachedStore(a, s, count))
    && (o != Err(KvCacheFull) ==> h' == RewoundPast(h, s, r.pos))
    && (if Strays(a, s, r) then Astray(a, b, r, o) else OthersKept(a, b, s))
    && (Names(a, s, r) ==> o != Err(NotSupported) && KeepsFaith(a, h, b, h', count))
    && (Names(a, s, r) && o.Ok? ==> Restored(a, b, s, r))
    && (Names(a, s, r) && o.Ok? && Tidy(a, count) && Truthful(a, h, count) ==> HadState(h, s, r.pos, b))
  }

  /** The restore on the store: a private slot for s, then the checkpoint. */
  method ApplyPending(st: Store, s: int, r: Restore, count: nat, ghost hist: History)
    returns (o: Outcome, st': Store, ghost hist': History)
    requires RecurrentStore.Ok(st, count) && RestoreEntry(st, r).Some?
    ensures EndCut(st, hist, st', hist', s, r, o, count)
    ensures RecurrentStore.Ok(st', count) && if Strays(st, s, r) then Astray(st, st', r, o) else OthersKept(st, st', s)
  {
    var ok, own, r' := DetachForRestore(st, s, r, count);
    if !ok {
      return Err(KvCacheFull), st, hist;
    }
    ok, st' := ApplyRestore(own, r', count);
    hist' := RewoundPast(hist, s, r.pos);
    o := if ok then Outcome.Ok else Err(NotSupported);
    if ok {
      PendingOthers(st, own, st', s, r, r', count);
      if Names(st, s, r) {
        RestoredOwn(own, s, r', count, st');
        PendingFaithful(st, own, st', s, r, r', count, hist);
      }
    }
  }

  /** A rollback on the slots: s continues from the greatest checkpoint below the target, which succeeds if that is
      complete and there is a slot to be had; or s has no slot any more; and nobody else notices. */
  ghost predicate Rolled(a: Store, h: History, b: Store, h': History, s: int, target: int, keep: int, o: Outcome,
                         count: nat) {
    && RecurrentStore.Ok(a, count) && RecurrentStore.Ok(b, count) && OthersKept(a, b, s)
    && KeepsFaith(a, h, b, h', count)
    && (o.Ok? && keep > 0 ==> Resumed(a, b, s, target, keep))
    && (o.Ok? && keep > 0 && Tidy(a, count) && Truthful(a, h, count) ==> HadState(h, s, keep - 1, b))
    && (o.Ok? && keep == 0 ==> s !in b.slots.slotForSeq && s !in h')
    && (if o.Ok? && keep > 0 then h' == RewoundPast(h, s, keep - 1) else h' - {s} == h - {s})
    && (forall p | HasRing(a, s) && Complete(a, s, p) && IsBest(a.rings[SlotOf(a, s)], target, p) ::
          |a.slots.slotForSeq| <= |a.slots.refCount| ==> o.Ok? && keep == p + 1)
  }

  /** Every checkpoint of s at this position has its data. */
  ghost predicate Complete(st: Store, s: int, pos: int)
    requires HasRing(st, s)
  {
    var entries := st.rings[SlotOf(st, s)].entries;
    forall i | 0 <= i < |entries| && entries[i].pos == pos :: entries[i].data.Some?
  }

  /** r is the restore that looking for the greatest checkpoint below the target notes. */
  ghost predicate NotesBest(st: Store, s: int, r: Restore, target: int) {
    && HasRing(st, s) && r.slot == SlotOf(st, s) && IsBest(st.rings[r.slot], target, r.pos)
    && 0 <= r.idx < |st.rings[r.slot].entries| && st.rings[r.slot].entries[r.idx].pos == r.pos
  }

  lemma RestoreRolls(a: Store, h: History, b: Store, h': History, s: int, r: Restore, target: int, o: Outcome,
                     count: nat)
    requires RecurrentStore.Ok(a, count) && NotesBest(a, s, r, target)
    requires if RestoreEntry(a, r).Some? then EndCut(a, h, b, h', s, r, o, count) else o.Err? && b == a && h' == h
    ensures Rolled(a, h, b, h', s, target, r.pos + 1, o, count)
  {
    OwnRestoreStays(a, s, r, count);
    assert r.pos in Checkpoints(a.rings[r.slot]);
    if RestoreEntry(a, r).Some? && o.Ok? {
      ResumedFrom(a, b, s, r, target);
    }
    forall p | Complete(a, s, p) && IsBest(a.rings[SlotOf(a, s)], target, p)
      ensures p == r.pos && RestoreEntry(a, r).Some?
    {
    }
  }

  lemma ResumedFrom(a: Store, b: Store, s: int, r: Restore, target: int)
    requires NotesBest(a, s, r, target) && Names(a, s, r) && Restored(a, b, s, r)
    ensures Resumed(a, b, s, target, r.pos + 1)
  {
    var ring := a.rings[r.slot];
    assert ring.entries[r.idx] == Entry(r.pos, Some(b.states[SlotOf(b, s)]));
  }

  lemma ReleaseRolls(a: Store, h: History, b: Store, h': History, s: int, target: int, o: Outcome, count: nat)
    requires StartCut(a, h, b, h', s, o, count) && o.Ok?
    requires HasRing(a, s) && target > 0 ==> forall p | p in Checkpoints(a.rings[SlotOf(a, s)]) :: p >= target
    ensures Rolled(a, h, b, h', s, target, 0, o, count)
  {
    if HasRing(a, s) {
      forall p | IsBest(a.rings[SlotOf(a, s)], target, p)
        ensures p >= 0
      {
        assert p in Checkpoints(a.rings[SlotOf(a, s)]);
      }
    }
  }

  /** Starting over after a rollback that failed. */
  lemma StartOverRolls(a: Store, h: History, b: Store, h': History, c: Store, h'': History, s: int, target: int,
                       keep: int, count: nat)
    requires Rolled(a, h, b, h', s, target, keep, Err(NotSupported), count) ||
             Rolled(a, h, b, h', s, target, keep, Err(KvCacheFull), count)
    requires StartCut(b, h', c, h'', s, Outcome.Ok, count)
    ensures Rolled(a, h, c, h'', s, target, 0, Outcome.Ok, count)
  {
    OthersKeptTwice(a, b, c, s, count);
  }

  /** A restore noted in the present slot of s is applied to nobody else. */
  lemma OwnRestoreStays(st: Store, s: int, r: Restore, count: nat)
    requires RecurrentStore.Ok(st, count) && s in st.slots.slotForSeq && r.slot == SlotOf(st, s)
    ensures !Strays(st, s, r)
  {
    SlotInUse(st.slots, s);
    if !Shares(st, s) {
      forall t | t in st.slots.slotForSeq && t != s
        ensures SlotOf(st, t) != r.slot
      {
        SoleOwner(st.slots, s, t);
      }
    }
  }

  lemma PendingOthers(st: Store, own: Store, st': Store, s: int, r: Restore, r': Restore, count: nat)
    requires Followed(st, own, s, r, r', count) && RestoreApplied(own, st', r', count)
    ensures !Strays(st, s, r) ==> OthersKept(st, st', s)
  {
    if !Strays(st, s, r) {
      forall t | t in own.slots.slotForSeq && t != s
        ensures SlotOf(own, t) != r'.slot
      {
        if Shares(st, s) {
          SoleOwner(own.slots, s, t);
        }
      }
      RestoredOthers(own, s, r', count, st');
      OthersKeptTwice(st, own, st', s, count);
    }
  }

  /** s alone owns a slot with the checkpoint's state, and no later checkpoint. */
  ghost predicate Restored(a: Store, b: Store, s: int, r: Restore)
    requires Names(a, s, r)
  {
    && Owns(b, s) && SlotOf(b, s) < |b.states| && b.states[SlotOf(b, s)] == RestoreEntry(a, r).value.data.value
    && SlotOf(b, s) in b.rings
    && Checkpoints(b.rings[SlotOf(b, s)]) == UpTo(Checkpoints(a.rings[r.slot]), r.pos)
  }

  /** A restore in a faithful store keeps it so, and the state is one s had at that position. */
  ghost predicate RestoredFaithfully(a: Store, b: Store, s: int, r: Restore, count: nat, hist: History) {
    && (Tidy(a, count) ==> Tidy(b, count))
    && (Tidy(a, count) && Truthful(a, hist, count) ==>
         s in hist && Truthful(b, hist[s := UpToPast(hist[s], r.pos)], count) && HadState(hist, s, r.pos, b))
  }

  lemma PendingFaithful(st: Store, own: Store, st': Store, s: int, r: Restore, r': Restore, count: nat, hist: History)
    requires Followed(st, own, s, r, r', count) && RestoreApplied(own, st', r', count) && Names(st, s, r)
    requires OthersKept(own, st', s)
    ensures RestoredFaithfully(st, st', s, r, count, hist)
  {
    if Tidy(st, count) {
      if Shares(st, s) {
        DetachedTidy(st, s, count);
      }
      SlotInUse(own.slots, s);
      InUseTidy(own, st', count);
      if Truthful(st, hist, count) {
        if Shares(st, s) {
          DetachedTruthful(st, s, hist, count);
        }
        RestoredTruthful(own, st', s, r', count, hist);
      }
    }
  }

  lemma RestoredTruthful(own: Store, st': Store, s: int, r: Restore, count: nat, hist: History)
    requires RestoreApplied(own, st', r, count) && Names(own, s, r) && OthersKept(own, st', s)
    requires Truthful(own, hist, count)
    ensures s in hist && Truthful(st', hist[s := UpToPast(hist[s], r.pos)], count) && HadState(hist, s, r.pos, st')
  {
    var ring := own.rings[r.slot];
    assert TrueRing(RingAt(own.rings, SlotOf(own, s), count), hist[s]);
    assert TrueEntry(ring.entries[r.idx], hist[s]);
    PrunedTrue(ring, st'.rings[r.slot], r.pos, hist[s]);
    OneTruthful(own, st', s, hist, UpToPast(hist[s], r.pos), count);
  }

  ghost predicate HasRing(st: Store, s: int) {
    s in st.slots.slotForSeq && SlotOf(st, s) in st.rings
  }

  /** s alone owns a slot holding the data of one of its checkpoints at pos, and no later checkpoint. */
  ghost predicate RestoredTo(a: Store, b: Store, s: int, pos: int)
    requires s in a.slots.slotForSeq && SlotOf(a, s) in a.rings
  {
    var ring := a.rings[SlotOf(a, s)];
    && Owns(b, s) && SlotOf(b, s) < |b.states|
    && (exists i | 0 <= i < |ring.entries| :: ring.entries[i] == Entry(pos, Some(b.states[SlotOf(b, s)])))
    && SlotOf(b, s) in b.rings
    && Checkpoints(b.rings[SlotOf(b, s)]) == UpTo(Checkpoints(ring), pos)
  }

  /** s continues from the greatest checkpoint below the target: slot, state and checkpoints. */
  ghost predicate Resumed(a: Store, b: Store, s: int, target: int, keep: int) {
    HasRing(a, s) && IsBest(a.rings[SlotOf(a, s)], target, keep - 1) && RestoredTo(a, b, s, keep - 1)
  }

  /** p is the greatest checkpoint below the target. */
  ghost predicate IsBest(r: Ring, target: int, p: int) {
    p in Checkpoints(r) && p < target && forall q | q in Checkpoints(r) && q < target :: q <= p
  }

  // ----- Copy on write -----

  /** Every sequence of the batch owns its slot and all have the states they had; it fails only with more sequences
      than slots. Other sequences keep slot, state and checkpoints; in a tidy store plans stay above. */
  ghost predicate Privatized(a: Store, b: Store, seqs: seq<int>, slots: seq<int>, planned: seq<int>, o: Outcome,
                             hist: History, count: nat) {
    && RecurrentStore.Ok(a, count) && RecurrentStore.Ok(b, count) && KeepsStates(a, b) && OthersSame(a, b, seqs)
    && (o == Outcome.Ok || o == Err(KvCacheFull)) && (|a.slots.slotForSeq| <= |a.states| ==> o.Ok?)
    && (o.Ok? ==> OwnFirst(b, seqs, |seqs|) && HaveSlots(b, seqs, slots))
    && (Tidy(a, count) ==> Tidy(b, count))
    && (Tidy(a, count) && Truthful(a, hist, count) ==> Truthful(b, hist, count))
    && (Tidy(a, count) && PlansAbove(a, seqs, planned, count) ==> PlansAbove(b, seqs, planned, count))
  }

  method Privatize(st: Store, seqs: seq<int>, slots: seq<int>, planned: seq<int>, count: nat, ghost hist: History)
    returns (o: Outcome, st': Store, slots': seq<int>)
    requires RecurrentStore.Ok(st, count) && HaveSlots(st, seqs, slots) && Different(seqs)
    ensures Privatized(st, st', seqs, slots', planned, o, hist, count)
  {
    var ok;
    ghost var n;
    ok, st', slots', n := RecurrentStore.EnsureWritable(st, seqs, slots, count);
    DetachedToFaithful(st, seqs, n, hist, planned, count);
    o := if ok then Outcome.Ok else Err(KvCacheFull);
  }

  // ----- Cutting out the middle -----

  /** s alone owns a slot with the state it had, and its checkpoints have moved along with its positions. */
  ghost predicate Excised(a: Store, b: Store, s: int, begin: int, end: int, count: nat)
    requires RecurrentStore.Ok(a, count) && s in a.slots.slotForSeq && s in b.slots.slotForSeq
  {
    && Owns(b, s) && |a.states| == |b.states| == |a.slots.refCount| == |b.slots.refCount|
    && 0 <= SlotOf(a, s) < |a.states| && b.states[SlotOf(b, s)] == a.states[SlotOf(a, s)]
    && var had := Checkpoints(RingAt(a.rings, SlotOf(a, s), count));
    (had != {} || SlotOf(b, s) == SlotOf(a, s) ==>
      Checkpoints(RingAt(b.rings, SlotOf(b, s), count)) == Views.Closed(had, begin, end))
  }

  /** Detaches s from a shared slot, unless none is free, and moves its checkpoints. */
  method Excise(st: Store, s: int, begin: int, end: int, count: nat, ghost hist: History) returns (ok: bool, st': Store)
    requires RecurrentStore.Ok(st, count) && s in st.slots.slotForSeq && 0 < begin <= end
    ensures RecurrentStore.Ok(st', count) && OthersKept(st, st', s) && s in st'.slots.slotForSeq
    ensures !ok ==> st' == st && |st.slots.slotForSeq| > |st.slots.refCount|
    ensures ok ==> Excised(st, st', s, begin, end, count)
    ensures Tidy(st, count) ==> Tidy(st', count)
    ensures ok && Tidy(st, count) && Truthful(st, hist, count) ==>
      s in hist && Truthful(st', hist[s := ClosedPast(hist[s], begin, end)], count)
  {
    var own;
    ok, own := OwnSlot(st, s, count);
    if !ok {
      return false, st;
    }
    st' := ShiftCheckpoints(own, s, begin, end, count);
    OthersKeptTwice(st, own, st', s, count);
    ShiftedCheckpoints(RingAt(own.rings, SlotOf(own, s), count), RingAt(st'.rings, SlotOf(own, s), count), begin, end);
    ExcisedFaithful(st, own, st', s, begin, end, count, hist);
  }

  /** s in a slot of its own with the state and the checkpoints it had, if it had any. */
  ghost predicate OwnCopy(a: Store, b: Store, s: int, count: nat) {
    && RecurrentStore.Ok(a, count) && RecurrentStore.Ok(b, count) && OthersKept(a, b, s) && |a.states| == |b.states|
    && s in a.slots.slotForSeq && Owns(b, s) && b.states[SlotOf(b, s)] == a.states[SlotOf(a, s)]
    && (b == a || (CanDetach(a, s, count) && b == DetachedStore(a, s, count)))
    && var had := Checkpoints(RingAt(a.rings, SlotOf(a, s), count));
    (had != {} ==> Checkpoints(RingAt(b.rings, SlotOf(b, s), count)) == had)
  }

  method OwnSlot(st: Store, s: int, count: nat) returns (ok: bool, own: Store)
    requires RecurrentStore.Ok(st, count) && s in st.slots.slotForSeq
    ensures !ok ==> own == st && |st.slots.slotForSeq| > |st.slots.refCount|
    ensures ok ==> OwnCopy(st, own, s, count)
  {
    SlotInUse(st.slots, s);
    ok, own := true, st;
    if st.slots.refCount[SlotOf(st, s)] > 1 {
      ok, own := Detach(st, s, count);
      if ok && Checkpoints(RingAt(st.rings, SlotOf(st, s), count)) != {} {
        DetachedCheckpoints(st, s, count);
      }
    }
  }

  /** The same with the history, and the outcome. */
  method ExciseStore(st: Store, s: int, begin: int, end: int, count: nat, ghost hist: History)
    returns (o: Outcome, st': Store, ghost hist': History)
    requires RecurrentStore.Ok(st, count) && s in st.slots.slotForSeq && 0 < begin <= end
    ensures o == Outcome.Ok || o == Err(KvCacheFull)
    ensures MiddleCut(st, hist, st', hist', s, begin, end, o, count)
  {
    var ok;
    ok, st' := Excise(st, s, begin, end, count, hist);
    hist' := if ok then ExcisedPast(hist, s, begin, end) else hist;
    o := if ok then Outcome.Ok else Err(KvCacheFull);
  }

  lemma ExcisedFaithful(st: Store, own: Store, st': Store, s: int, begin: int, end: int, count: nat, hist: History)
    requires RecurrentStore.Ok(st, count) && Owns(own, s) && 0 < begin <= end
    requires own == st || (CanDetach(st, s, count) && own == DetachedStore(st, s, count))
    requires ShiftApplied(own, st', SlotOf(own, s), begin, end, count) && OthersKept(own, st', s)
    ensures Tidy(st, count) ==> Tidy(st', count)
    ensures Tidy(st, count) && Truthful(st, hist, count) ==>
      s in hist && Truthful(st', hist[s := ClosedPast(hist[s], begin, end)], count)
  {
    if Tidy(st, count) {
      if own != st {
        DetachedTidy(st, s, count);
      }
      SlotInUse(own.slots, s);
      InUseTidy(own, st', count);
      if Truthful(st, hist, count) {
        if own != st {
          DetachedTruthful(st, s, hist, count);
        }
        ShiftTruthful(own, st', s, begin, end, count, hist);
      }
    }
  }

  lemma ShiftTruthful(own: Store, st': Store, s: int, begin: int, end: int, count: nat, hist: History)
    requires s in own.slots.slotForSeq && 0 < begin <= end && Truthful(own, hist, count)
    requires ShiftApplied(own, st', SlotOf(own, s), begin, end, count) && OthersKept(own, st', s)
    ensures s in hist && Truthful(st', hist[s := ClosedPast(hist[s], begin, end)], count)
  {
    var k := SlotOf(own, s);
    assert TrueRing(RingAt(own.rings, k, count), hist[s]);
    if k in own.rings {
      ShiftedTrue(own.rings[k], st'.rings[k], begin, end, hist[s]);
    } else {
      NewRingOrdered(count);
      EmptyTrue(NewRing(count), ClosedPast(hist[s], begin, end));
    }
    OneTruthful(own, st', s, hist, ClosedPast(hist[s], begin, end), count);
  }

  lemma ShiftedCheckpoints(r: Ring, r': Ring, begin: int, end: int)
    requires 0 < begin <= end && |r'.entries| == |r.entries|
    requires RingShifted(r, r', begin, end) || Checkpoints(r) == Checkpoints(r') == {}
    ensures Checkpoints(r') == Views.Closed(Checkpoints(r), begin, end)
  {
    forall p | p in Views.Closed(Checkpoints(r), begin, end)
      ensures p in Checkpoints(r')
    {
      var q :| q in Checkpoints(r) && !(begin <= q < end) && p == if q >= end then q + begin - end else q;
      var i :| 0 <= i < |r.entries| && r.entries[i].Valid() && r.entries[i].pos == q;
      assert r'.entries[i].pos == p;
    }
    forall p | p in Checkpoints(r')
      ensures p in Views.Closed(Checkpoints(r), begin, end)
    {
      var i :| 0 <= i < |r'.entries| && r'.entries[i].Valid() && r'.entries[i].pos == p;
      assert r.entries[i].pos in Checkpoints(r);
    }
  }

  // ----- Starting a batch -----

  /** Every sequence of the batch has equally many tokens. */
  ghost predicate Even(seqs: seq<int>) {
    forall s, t | s in seqs && t in seqs :: Occurrences(seqs, s, |seqs|) == Occurrences(seqs, t, |seqs|)
  }

  /** Old sequences have their slots, states and checkpoints; the new ones own a slot with a zero state. */
  ghost predicate Started(a: Store, b: Store, batch: Batch, seqs: seq<int>, count: nat) {
    && RecurrentStore.Ok(a, count) && RecurrentStore.Ok(b, count) && |a.states| == |b.states|
    && Elements(seqs) == Elements(batch.sequences)
    && b.slots.slotForSeq.Keys == a.slots.slotForSeq.Keys + Elements(seqs)
    && KeepsSlots(a, b) && StatesKept(a, b) && NewZeroed(a, b) && SameRings(a, b, count)
  }

  /** A checkpoint at its highest position for each sequence that has come far enough. */
  ghost predicate Planned(a: Store, batch: Batch, pass: Pass, policy: Policy)
    requires batch.Valid()
  {
    if policy.count == 0 then pass.planned == []
    else
      && |pass.planned| == |pass.seqs| == |pass.slots|
      && forall i | 0 <= i < |pass.seqs| ::
           PlannedWell(batch, pass.seqs[i], RingAt(a.rings, pass.slots[i], policy.count),
                       policy.minPos, policy.interval, pass.planned[i])
  }

  /** When checkpoints are taken. */
  datatype Policy = Policy(count: nat, minPos: int, interval: int) {
    predicate Valid() {
      0 <= minPos && 1 <= interval
    }
  }

  /** The sequences of a pass, their slots, and the positions at which checkpoints are planned. */
  datatype Pass = Pass(seqs: seq<int>, slots: seq<int>, planned: seq<int>)

  /** What starting a pass does to the slots. It is refused exactly when the sequences do not have equally many tokens,
      and the slots run out only with more sequences than slots. Otherwise every sequence has a slot, new ones a
      zeroed one, and the checkpoints to come are planned above what the slots hold. Either way old sequences keep
      what they have, and a faithful store stays faithful. */
  ghost predicate Begun(a: Store, h: History, b: Store, h': History, batch: Batch, o: Outcome, pass: Pass,
                        tops: seq<int>, policy: Policy)
    requires batch.Valid()
  {
    && Grown(a, b, policy.count)
    && (o == Outcome.Ok || o == Err(NotSupported) || o == Err(KvCacheFull))
    && (o == Err(NotSupported) <==> !Even(batch.sequences))
    && (o == Err(NotSupported) ==> b == a)
    && OnlyBatch(a, b, batch.sequences)
    && (|a.slots.slotForSeq.Keys + Elements(batch.sequences)| <= |a.states| ==> o != Err(KvCacheFull))
    && (o.Ok? ==> Placed(a, b, batch, pass, tops, policy))
    && h' == Extended(h, b.slots.slotForSeq.Keys)
    && (Tidy(a, policy.count) ==> Tidy(b, policy.count))
    && (Tidy(a, policy.count) && Truthful(a, h, policy.count) ==> Truthful(b, h', policy.count))
  }

  ghost predicate Placed(a: Store, b: Store, batch: Batch, pass: Pass, tops: seq<int>, policy: Policy)
    requires batch.Valid()
  {
    && Started(a, b, batch, pass.seqs, policy.count) && HaveSlots(b, pass.seqs, pass.slots) && Different(pass.seqs)
    && Planned(a, batch, pass, policy) && tops == Tops(batch, pass.seqs)
    && PlansAbove(b, pass.seqs, pass.planned, policy.count) && PlansTop(pass.planned, tops)
  }

  method StartBatch(st: Store, b: Batch, policy: Policy, ghost hist: History)
    returns (o: Outcome, st': Store, pass: Pass, ghost hist': History, ghost tops: seq<int>)
    requires RecurrentStore.Ok(st, policy.count) && b.Valid() && policy.Valid()
    ensures RecurrentStore.Ok(st', policy.count) && Begun(st, hist, st', hist', b, o, pass, tops, policy)
  {
    o, st', pass := PlaceBatch(st, b, policy);
    tops := Tops(b, pass.seqs);
    hist' := Extended(hist, st'.slots.slotForSeq.Keys);
    GrownFaithful(st, st', hist, policy.count);
  }

  method PlaceBatch(st: Store, b: Batch, policy: Policy) returns (o: Outcome, st': Store, pass: Pass)
    requires RecurrentStore.Ok(st, policy.count) && b.Valid() && policy.Valid()
    ensures Grown(st, st', policy.count) && OnlyBatch(st, st', b.sequences)
    ensures o == Outcome.Ok || o == Err(NotSupported) || o == Err(KvCacheFull)
    ensures o == Err(NotSupported) <==> !Even(b.sequences)
    ensures o == Err(NotSupported) ==> st' == st
    ensures |st.slots.slotForSeq.Keys + Elements(b.sequences)| <= |st.states| ==> o != Err(KvCacheFull)
    ensures o.Ok? ==> Placed(st, st', b, pass, Tops(b, pass.seqs), policy)
  {
    if b.Size() == 0 {
      assert b.sequences == [] && Elements([]) == {};
      return Outcome.Ok, st, Pass([], [], []);
    }
    var seqs := Unique(b.sequences);
    var even := EqualCounts(b.sequences, seqs);
    EvenCounts(b.sequences, seqs);
    if !even {
      return Err(NotSupported), st, Pass(seqs, [], []);
    }
    var ok, slots;
    ok, st', slots := AssignSlots(st, seqs, policy.count);
    if !ok {
      return Err(KvCacheFull), st', Pass(seqs, slots, []);
    }
    var planned;
    st', planned := PlanBatch(st, st', b, seqs, slots, policy);
    return Outcome.Ok, st', Pass(seqs, slots, planned);
  }

  /** Plans the checkpoints of a batch whose sequences have their slots. */
  method PlanBatch(ghost start: Store, st: Store, b: Batch, seqs: seq<int>, slots: seq<int>, policy: Policy)
    returns (st': Store, planned: seq<int>)
    requires b.Valid() && policy.Valid() && Started(start, st, b, seqs, policy.count) && st.rings == start.rings
    requires HaveSlots(st, seqs, slots) && Different(seqs)
    ensures Grown(start, st', policy.count) && Placed(start, st', b, Pass(seqs, slots, planned), Tops(b, seqs), policy)
  {
    var rings;
    planned, rings := PlanCheckpoints(st.rings, seqs, slots, b, policy.minPos, policy.interval, policy.count);
    StartedWithRings(start, st, rings, b, seqs, slots, policy.count);
    st' := st.(rings := rings);
    PlannedReady(start, st', b, Pass(seqs, slots, planned), policy);
  }

  /** Making empty stores for slots that had none changes no checkpoints. */
  lemma StartedWithRings(a: Store, b: Store, rings: map<int, Ring>, batch: Batch, seqs: seq<int>, slots: seq<int>,
                         count: nat)
    requires Started(a, b, batch, seqs, count) && b.rings == a.rings && HaveSlots(b, seqs, slots)
    requires forall k | k in rings :: RingOk(rings[k], count)
    requires forall k | k in a.rings :: k in rings && rings[k] == a.rings[k]
    requires forall k | k in rings && k !in a.rings :: k in slots && rings[k] == NewRing(count)
    ensures Started(a, b.(rings := rings), batch, seqs, count) && HaveSlots(b.(rings := rings), seqs, slots)
    ensures Grown(a, b.(rings := rings), count)
  {
    forall k | k in rings
      ensures 0 <= k < |b.states|
    {
      if k !in a.rings {
        var i :| 0 <= i < |slots| && slots[i] == k;
        SlotInUse(b.slots, seqs[i]);
      }
    }
  }

  /** The positions a batch brings its sequences to. */
  function Tops(b: Batch, seqs: seq<int>): (r: seq<int>)
    requires b.Valid()
    ensures |r| == |seqs|
  {
    seq(|seqs|, i requires 0 <= i < |seqs| => HighestIn(b, seqs[i], b.Size()))
  }

  lemma PlannedReady(a: Store, b: Store, batch: Batch, pass: Pass, policy: Policy)
    requires batch.Valid() && policy.Valid() && HaveSlots(b, pass.seqs, pass.slots) && SameRings(a, b, policy.count)
    requires Planned(a, batch, pass, policy)
    ensures PlansAbove(b, pass.seqs, pass.planned, policy.count) && PlansTop(pass.planned, Tops(batch, pass.seqs))
  {
    forall i | 0 <= i < |pass.seqs| && PlanAt(pass.planned, i) >= 0
      ensures PlanAbove(b, pass.seqs[i], PlanAt(pass.planned, i), policy.count)
      ensures PlanAt(pass.planned, i) == Tops(batch, pass.seqs)[i]
    {
      var ring := RingAt(a.rings, pass.slots[i], policy.count);
      assert PlannedWell(batch, pass.seqs[i], ring, policy.minPos, policy.interval, pass.planned[i]);
      assert RingAt(b.rings, pass.slots[i], policy.count) == ring;
    }
  }

  // ----- The sequences of a batch -----

  /** The tokens of the first m sequences among the first n tokens. */
  function SumOf(seqs: seq<int>, unique: seq<int>, n: nat, m: nat): nat
    requires n <= |seqs| && m <= |unique|
  {
    if m == 0 then 0 else SumOf(seqs, unique, n, m - 1) + Occurrences(seqs, unique[m - 1], n)
  }

  lemma {:induction false} SumNext(seqs: seq<int>, unique: seq<int>, n: nat, m: nat)
    requires n < |seqs| && m <= |unique| && Different(unique)
    ensures SumOf(seqs, unique, n + 1, m) == SumOf(seqs, unique, n, m) + if seqs[n] in unique[..m] then 1 else 0
  {
    if m > 0 {
      SumNext(seqs, unique, n, m - 1);
      assert unique[..m] == unique[..m - 1] + [unique[m - 1]];
    }
  }

  /** Every token belongs to one of the sequences. */
  lemma {:induction false} SumIsAll(seqs: seq<int>, unique: seq<int>, n: nat)
    requires n <= |seqs| && Different(unique) && forall i | 0 <= i < |seqs| :: seqs[i] in unique
    ensures SumOf(seqs, unique, n, |unique|) == n
  {
    if n == 0 {
      SumIsTimes(seqs, unique, 0, |unique|, 0);
    } else {
      SumIsAll(seqs, unique, n - 1);
      SumNext(seqs, unique, n - 1, |unique|);
      assert unique[..|unique|] == unique;
    }
  }

  lemma {:induction false} SumIsTimes(seqs: seq<int>, unique: seq<int>, n: nat, m: nat, c: nat)
    requires n <= |seqs| && m <= |unique| && forall i | 0 <= i < |unique| :: Occurrences(seqs, unique[i], n) == c
    ensures SumOf(seqs, unique, n, m) == Rounding.Times(c, m)
  {
    if m > 0 {
      SumIsTimes(seqs, unique, n, m - 1, c);
    }
  }

  ghost predicate AllCount(seqs: seq<int>, unique: seq<int>, c: int) {
    forall i | 0 <= i < |unique| :: Occurrences(seqs, unique[i], |seqs|) == c
  }

  lemma SameMembers(seqs: seq<int>, unique: seq<int>)
    requires Elements(unique) == Elements(seqs)
    ensures forall s :: s in seqs <==> s in unique
  {
    forall s
      ensures s in seqs <==> s in unique
    {
      assert s in Elements(unique) <==> s in Elements(seqs);
    }
  }

  lemma TimesDiv(m: nat, c: nat)
    requires m > 0
    ensures Rounding.Times(c, m) / m == c
  {
    var d := Rounding.Times(c, m) / m;
    Rounding.DivTimes(Rounding.Times(c, m), m);
    if d < c {
      Rounding.TimesApart(d, c, m);
    } else if c < d {
      Rounding.TimesApart(c, d, m);
    }
  }

  /** If all sequences have equally many tokens, they have the average number. */
  lemma AverageCount(seqs: seq<int>, unique: seq<int>, c: nat)
    requires Elements(unique) == Elements(seqs) && Different(unique) && unique != [] && AllCount(seqs, unique, c)
    ensures c == |seqs| / |unique|
  {
    forall i | 0 <= i < |seqs|
      ensures seqs[i] in unique
    {
      assert seqs[i] in Elements(seqs);
      assert seqs[i] in Elements(unique);
    }
    SumIsAll(seqs, unique, |seqs|);
    SumIsTimes(seqs, unique, |seqs|, |unique|, c);
    TimesDiv(|unique|, c);
  }

  /** All sequences have the average number of tokens exactly when they have equally many. */
  lemma EvenCounts(seqs: seq<int>, unique: seq<int>)
    requires Elements(unique) == Elements(seqs) && Different(unique) && unique != []
    ensures Even(seqs) <==> AllCount(seqs, unique, |seqs| / |unique|)
  {
    SameMembers(seqs, unique);
    if Even(seqs) {
      var c := Occurrences(seqs, unique[0], |seqs|);
      forall i | 0 <= i < |unique|
        ensures Occurrences(seqs, unique[i], |seqs|) == c
      {
        assert unique[i] in seqs && unique[0] in seqs;
      }
      AverageCount(seqs, unique, c);
    }
  }

  function Occurrences(seqs: seq<int>, s: int, n: nat): nat
    requires n <= |seqs|
  {
    if n == 0 then 0 else Occurrences(seqs, s, n - 1) + if seqs[n - 1] == s then 1 else 0
  }

  /** The different sequences of a batch, in order of first appearance. */
  method Unique(seqs: seq<int>) returns (r: seq<int>)
    ensures Elements(r) == Elements(seqs)
    ensures forall i, j | 0 <= i < j < |r| :: r[i] != r[j]
    ensures seqs != [] ==> r != []
  {
    r := [];
    for i := 0 to |seqs|
      invariant Elements(r) == Elements(seqs[..i])
      invariant forall k, l | 0 <= k < l < |r| :: r[k] != r[l]
      invariant i > 0 ==> r != []
    {
      ElementsNext(seqs, i);
      if seqs[i] !in r {
        assert Elements(r + [seqs[i]]) == Elements(r) + {seqs[i]};
        r := r + [seqs[i]];
      } else {
        assert seqs[i] in Elements(r);
      }
    }
    assert seqs[..|seqs|] == seqs;
  }

  method CountOf(seqs: seq<int>, s: int) returns (c: nat)
    ensures c == Occurrences(seqs, s, |seqs|)
  {
    c := 0;
    for i := 0 to |seqs|
      invariant c == Occurrences(seqs, s, i)
    {
      if seqs[i] == s {
        c := c + 1;
      }
    }
  }

  /** Whether every sequence has the same number of tokens. */
  method EqualCounts(seqs: seq<int>, unique: seq<int>) returns (even: bool)
    requires unique != []
    ensures even <==> AllCount(seqs, unique, |seqs| / |unique|)
  {
    var want := |seqs| / |unique|;
    for i := 0 to |unique|
      invariant forall k | 0 <= k < i :: Occurrences(seqs, unique[k], |seqs|) == want
    {
      var c := CountOf(seqs, unique[i]);
      if c != want {
        return false;
      }
    }
    even := true;
  }
}
