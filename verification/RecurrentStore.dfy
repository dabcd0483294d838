/** The slots of a recurrent cache with their states and checkpoints, as values. */
module RecurrentStore {
  import opened Prelude
  import opened Slots
  import opened CheckpointRing
  import KvCells

  /** Everything a slot carries: its state and its checkpoints. A restore names a checkpoint by slot and index. */
  datatype Store = Store(slots: Slots, states: seq<int>, rings: map<int, Ring>)

  datatype Restore = Restore(slot: int, idx: int, pos: int)

  ghost predicate RingOk(r: Ring, count: nat) {
    Sized(r) && Bounded(r) && |r.entries| == count
  }

  ghost predicate Ok(st: Store, count: nat) {
    && Sound(st.slots) && |st.states| == |st.slots.refCount|
    && (forall k | k in st.rings :: RingOk(st.rings[k], count))
    && (forall k | k in st.rings :: 0 <= k < |st.states|)
  }

  function SlotOf(st: Store, s: int): int
    requires s in st.slots.slotForSeq
  {
    st.slots.slotForSeq[s]
  }

  // ----- What a sequence sees -----

  ghost predicate Same(a: Store, b: Store, s: int)
    requires s in a.slots.slotForSeq && s in b.slots.slotForSeq
    requires 0 <= SlotOf(a, s) < |a.states| && 0 <= SlotOf(b, s) < |b.states|
  {
    && a.states[SlotOf(a, s)] == b.states[SlotOf(b, s)]
    && (SlotOf(a, s) in a.rings <==> SlotOf(b, s) in b.rings)
    && (SlotOf(a, s) in a.rings ==> a.rings[SlotOf(a, s)] == b.rings[SlotOf(b, s)])
  }

  /** Every sequence but s keeps its slot, its state and its checkpoints. */
  ghost predicate OthersKept(a: Store, b: Store, s: int)
    requires Sound(a.slots) && Sound(b.slots) && |a.states| == |a.slots.refCount| && |b.states| == |b.slots.refCount|
  {
    forall t | t != s ::
      && (t in a.slots.slotForSeq <==> t in b.slots.slotForSeq)
      && (t in a.slots.slotForSeq ==> SlotOf(a, t) == SlotOf(b, t) && Same(a, b, t))
  }

  /** s is the only user of its slot. */
  ghost predicate Owns(st: Store, s: int) {
    && s in st.slots.slotForSeq && 0 <= SlotOf(st, s) < |st.slots.refCount| && st.slots.refCount[SlotOf(st, s)] == 1
  }

  // ----- Copy on write -----

  function RingAt(rings: map<int, Ring>, k: int, count: nat): Ring {
    if k in rings then rings[k] else NewRing(count)
  }

  /** Checkpoints are copied only if the source has any; otherwise the destination keeps what it had. */
  ghost function CopiedRings(rings: map<int, Ring>, src: int, dst: int, count: nat): map<int, Ring>
    requires forall k | k in rings :: RingOk(rings[k], count)
  {
    if count == 0 || src !in rings || rings[src].size == 0 then rings
    else
      assert RingOk(rings[src], count) && (dst in rings ==> RingOk(rings[dst], count));
      rings[dst := CopiedRing(rings[src], RingAt(rings, dst, count))]
  }

  method CopyCheckpoints(rings: map<int, Ring>, src: int, dst: int, count: nat) returns (r: map<int, Ring>)
    requires forall k | k in rings :: RingOk(rings[k], count)
    ensures r == CopiedRings(rings, src, dst, count)
  {
    if count == 0 {
      return rings;
    }
    if src !in rings || rings[src].size == 0 {
      return rings;
    }
    var from, to := rings[src], RingAt(rings, dst, count);
    assert RingOk(from, count) && (dst in rings ==> RingOk(rings[dst], count));
    var entries := [];
    for i := 0 to |from.entries|
      invariant |entries| == i
      invariant forall k | 0 <= k < i :: entries[k] == CopiedEntry(from.entries[k], to.entries[k])
    {
      entries := entries + [CopiedEntry(from.entries[i], to.entries[i])];
    }
    assert entries == CopiedRing(from, to).entries;
    r := rings[dst := Ring(entries, from.size, from.next, from.lastPos)];
  }

  lemma NewRingOk(count: nat)
    ensures RingOk(NewRing(count), count)
  {
    ValidCountZero(NewRing(count).entries, count);
  }

  lemma CopiedRingsOk(rings: map<int, Ring>, src: int, dst: int, count: nat)
    requires forall k | k in rings :: RingOk(rings[k], count)
    ensures forall k | k in CopiedRings(rings, src, dst, count) :: RingOk(CopiedRings(rings, src, dst, count)[k], count)
  {
    if count != 0 && src in rings && rings[src].size != 0 {
      CopiedSized(rings[src], RingAt(rings, dst, count));
    }
  }

  /** The store after s has left its shared slot for a private copy. */
  ghost function DetachedStore(st: Store, s: int, count: nat): Store
    requires s in st.slots.slotForSeq && st.slots.free != [] && 0 <= Top(st.slots) < |st.slots.refCount| == |st.states|
    requires 0 <= SlotOf(st, s) < |st.slots.refCount| && st.slots.refCount[SlotOf(st, s)] > 0
    requires forall k | k in st.rings :: RingOk(st.rings[k], count)
  {
    var from, to := SlotOf(st, s), Top(st.slots);
    Store(Detached(st.slots, s), st.states[to := st.states[from]], CopiedRings(st.rings, from, to, count))
  }

  /** Copy on write gives s a private slot with the state it had, and no other sequence notices. */
  lemma DetachKeeps(st: Store, s: int, count: nat)
    requires Ok(st, count) && s in st.slots.slotForSeq && st.slots.refCount[SlotOf(st, s)] > 1 && st.slots.free != []
    ensures Ok(DetachedStore(st, s, count), count) && OthersKept(st, DetachedStore(st, s, count), s)
    ensures Owns(DetachedStore(st, s, count), s)
    ensures DetachedStore(st, s, count).states[SlotOf(DetachedStore(st, s, count), s)] == st.states[SlotOf(st, s)]
  {
    var b := DetachedStore(st, s, count);
    DetachedSound(st.slots, s);
    CopiedRingsOk(st.rings, SlotOf(st, s), Top(st.slots), count);
    forall t | t != s && t in st.slots.slotForSeq
      ensures SlotOf(st, t) == SlotOf(b, t) && Same(st, b, t)
    {
      SlotInUse(st.slots, t);
    }
  }

  /** Leaves a shared slot, unless there is no free one. */
  method Detach(st: Store, s: int, count: nat) returns (ok: bool, st': Store)
    requires Ok(st, count) && s in st.slots.slotForSeq && st.slots.refCount[SlotOf(st, s)] > 1
    ensures !ok ==> st' == st && |st.slots.slotForSeq| > |st.slots.refCount|
    ensures ok <==> st.slots.free != []
    ensures ok ==> st' == DetachedStore(st, s, count) && Ok(st', count) && OthersKept(st, st', s) && Owns(st', s)
    ensures ok ==> st'.states[SlotOf(st', s)] == st.states[SlotOf(st, s)]
  {
    if |st.slots.free| == 0 {
      FullMeansBusy(st.slots, SlotOf(st, s));
      return false, st;
    }
    DetachKeeps(st, s, count);
    var from, to := SlotOf(st, s), Top(st.slots);
    var rings := CopyCheckpoints(st.rings, from, to, count);
    st' := Store(Detached(st.slots, s), st.states[to := st.states[from]], rings);
    ok := true;
  }

  // ----- New sequences, sharing, release -----

  /** A sequence without a slot gets one of its own. State and checkpoints are still what a former user left. */
  method Allocate(st: Store, s: int, count: nat) returns (ok: bool, st': Store)
    requires Ok(st, count) && s !in st.slots.slotForSeq
    ensures !ok ==> st' == st && |st.slots.slotForSeq| >= |st.slots.refCount|
    ensures ok <==> st.slots.free != []
    ensures ok ==> Ok(st', count) && OthersKept(st, st', s) && Owns(st', s)
    ensures st'.states == st.states && st'.rings == st.rings
    ensures ok ==> st'.slots == Allocated(st.slots, s)
  {
    if |st.slots.free| == 0 {
      FullMeansBusy(st.slots, 0);
      return false, st;
    }
    AllocatedSound(st.slots, s);
    forall t | t in st.slots.slotForSeq
      ensures SlotOf(st, t) != Top(st.slots)
    {
      SlotInUse(st.slots, t);
    }
    st' := Store(Allocated(st.slots, s), st.states, st.rings);
    ok := true;
  }

  function SharedStore(st: Store, src: int, dst: int): Store
    requires Sound(st.slots)
  {
    SharedSound(st.slots, src, dst);
    Store(Shared(st.slots, src, dst), st.states, st.rings)
  }

  /** Sharing changes nothing for any sequence but dst, which now sees what src sees. */
  lemma SharedKeeps(st: Store, src: int, dst: int, count: nat)
    requires Ok(st, count)
    ensures var b := SharedStore(st, src, dst);
            && Ok(b, count) && OthersKept(st, b, dst)
            && (src in st.slots.slotForSeq && src != dst ==>
                dst in b.slots.slotForSeq && SlotOf(b, dst) == SlotOf(st, src))
            && (src !in st.slots.slotForSeq || src == dst ==> dst !in b.slots.slotForSeq)
  {
    SharedSound(st.slots, src, dst);
  }

  /** A sequence gives up its slot; a slot nobody uses any more is freed and its checkpoints are cleared. */
  function ReleasedStore(st: Store, s: int): Store
    requires Sound(st.slots)
  {
    ReleasedSound(st.slots, s);
    if s !in st.slots.slotForSeq then st
    else
      var k := SlotOf(st, s);
      Store(Released(st.slots, s), st.states,
            if st.slots.refCount[k] == 1 && k in st.rings then st.rings[k := Reset(st.rings[k])] else st.rings)
  }

  lemma ReleasedKeeps(st: Store, s: int, count: nat)
    requires Ok(st, count)
    ensures Ok(ReleasedStore(st, s), count) && OthersKept(st, ReleasedStore(st, s), s)
    ensures s !in ReleasedStore(st, s).slots.slotForSeq
  {
    ReleasedSound(st.slots, s);
    if s in st.slots.slotForSeq {
      var k, b := SlotOf(st, s), ReleasedStore(st, s);
      ReleasedRings(st, s, count);
      forall t | t != s && t in st.slots.slotForSeq
        ensures t in b.slots.slotForSeq && SlotOf(b, t) == SlotOf(st, t) && Same(st, b, t)
      {
        if st.slots.refCount[k] == 1 {
          SoleOwner(st.slots, s, t);
        }
      }
    }
  }

  lemma ReleasedRings(st: Store, s: int, count: nat)
    requires Ok(st, count)
    ensures forall k | k in ReleasedStore(st, s).rings ::
      RingOk(ReleasedStore(st, s).rings[k], count) && 0 <= k < |st.states|
  {
    if s in st.slots.slotForSeq && SlotOf(st, s) in st.rings {
      var ring := st.rings[SlotOf(st, s)];
      assert RingOk(ring, count);
      ResetSized(ring);
    }
  }

  // ----- Restoring -----

  /** The checkpoint a restore names, if it is there and complete. */
  function RestoreEntry(st: Store, r: Restore): Option<Entry> {
    if r.slot !in st.rings || r.idx < 0 || r.idx >= |st.rings[r.slot].entries| then None
    else
      var e := st.rings[r.slot].entries[r.idx];
      if e.pos < 0 || e.data.None? then None else Some(e)
  }

  /** The restore names a checkpoint in s's own slot, at the position it says. */
  ghost predicate Names(st: Store, s: int, r: Restore) {
    && s in st.slots.slotForSeq && r.slot == SlotOf(st, s)
    && RestoreEntry(st, r).Some? && RestoreEntry(st, r).value.pos == r.pos
  }

  /** The checkpoint is written back into its slot and the later ones are dropped; other slots are as they were. */
  ghost predicate RestoreApplied(a: Store, b: Store, r: Restore, count: nat) {
    && Ok(a, count) && Ok(b, count) && RestoreEntry(a, r).Some? && b.slots == a.slots && 0 <= r.slot < |a.states|
    && b.states == a.states[r.slot := RestoreEntry(a, r).value.data.value]
    && b.rings.Keys == a.rings.Keys && (forall k | k in a.rings && k != r.slot :: b.rings[k] == a.rings[k])
    && RingPruned(a.rings[r.slot], b.rings[r.slot], r.pos)
    && (RestoreEntry(a, r).value.pos == r.pos && Distinct(a.rings[r.slot].entries) ==> Ordered(b.rings[r.slot]))
  }

  method ApplyRestore(st: Store, r: Restore, count: nat) returns (ok: bool, st': Store)
    requires Ok(st, count)
    ensures ok <==> RestoreEntry(st, r).Some?
    ensures !ok ==> st' == st
    ensures ok ==> RestoreApplied(st, st', r, count)
  {
    var e := RestoreEntry(st, r);
    if e.None? {
      return false, st;
    }
    assert RingOk(st.rings[r.slot], count);
    assert st.rings[r.slot].entries[r.idx].pos in Checkpoints(st.rings[r.slot]);
    var pruned := PruneAfter(st.rings[r.slot], r.pos);
    st' := Store(st.slots, st.states[r.slot := e.value.data.value], st.rings[r.slot := pruned]);
    ok := true;
  }

  ghost predicate Shares(st: Store, s: int) {
    s in st.slots.slotForSeq && 0 <= SlotOf(st, s) < |st.slots.refCount| && st.slots.refCount[SlotOf(st, s)] > 1
  }

  /** The restore noted for s would be applied to a slot that another sequence uses. */
  ghost predicate Strays(st: Store, s: int, r: Restore) {
    !Shares(st, s) && exists t | t in st.slots.slotForSeq && t != s :: SlotOf(st, t) == r.slot
  }

  /** s has a private slot if it had a shared one, and the restore follows it. */
  ghost predicate Followed(a: Store, b: Store, s: int, r: Restore, r': Restore, count: nat) {
    && Ok(a, count) && Ok(b, count) && OthersKept(a, b, s)
    && (if Shares(a, s) then
          CanDetach(a, s, count) && b == DetachedStore(a, s, count) && Owns(b, s) && r' == r.(slot := SlotOf(b, s))
        else b == a && r' == r)
    && (Names(a, s, r) ==> SameRestore(a, b, s, r, r'))
  }

  /** Both restores name the same checkpoint, one of them in a slot of s's own. */
  ghost predicate SameRestore(a: Store, b: Store, s: int, r: Restore, r': Restore)
    requires Names(a, s, r)
  {
    && Names(b, s, r') && Owns(b, s) && r'.pos == r.pos
    && RestoreEntry(b, r').value.data == RestoreEntry(a, r).value.data
    && Checkpoints(b.rings[r'.slot]) == Checkpoints(a.rings[r.slot])
  }

  /** Makes the slot to be restored private, and follows it with the restore. */
  method DetachForRestore(st: Store, s: int, r: Restore, count: nat) returns (ok: bool, st': Store, r': Restore)
    requires Ok(st, count)
    ensures !ok ==> st' == st && r' == r && Shares(st, s) && |st.slots.slotForSeq| > |st.slots.refCount|
    ensures !ok ==> st.slots.free == []
    ensures ok ==> Followed(st, st', s, r, r', count)
  {
    ok, st', r' := true, st, r;
    if s in st.slots.slotForSeq {
      SlotInUse(st.slots, s);
      if st.slots.refCount[SlotOf(st, s)] > 1 {
        ok, st' := Detach(st, s, count);
        if ok {
          r' := r.(slot := SlotOf(st', s));
          if Names(st, s, r) {
            ValidMeansSize(st.rings[r.slot], r.idx);
            DetachedNames(st, s, r, count);
          }
        }
      }
    }
  }

  /** Restoring into a slot of one's own: the state is the checkpoint's, and later checkpoints are gone. */
  lemma RestoredOwn(st: Store, s: int, r: Restore, count: nat, st': Store)
    requires RestoreApplied(st, st', r, count) && Names(st, s, r) && Owns(st, s)
    ensures OthersKept(st, st', s) && Owns(st', s) && st'.states[SlotOf(st', s)] == RestoreEntry(st, r).value.data.value
    ensures Checkpoints(st'.rings[r.slot]) == UpTo(Checkpoints(st.rings[r.slot]), r.pos)
  {
    forall t | t != s && t in st.slots.slotForSeq
      ensures SlotOf(st, t) != r.slot
    {
      SoleOwner(st.slots, s, t);
    }
    RestoredOthers(st, s, r, count, st');
    PrunedCheckpoints(st.rings[r.slot], st'.rings[r.slot], r.pos);
  }

  /** A restore changes only the sequences that use its slot. */
  lemma RestoredOthers(st: Store, s: int, r: Restore, count: nat, st': Store)
    requires RestoreApplied(st, st', r, count)
    requires forall t | t in st.slots.slotForSeq && t != s :: SlotOf(st, t) != r.slot
    ensures OthersKept(st, st', s)
  {
  }

  lemma OthersKeptTwice(a: Store, b: Store, c: Store, s: int, count: nat)
    requires Ok(a, count) && Ok(b, count) && Ok(c, count) && OthersKept(a, b, s) && OthersKept(b, c, s)
    ensures OthersKept(a, c, s)
  {
  }

  /** The checkpoints of slot k are shifted; everything else is as it was. */
  ghost predicate ShiftApplied(a: Store, b: Store, k: int, begin: int, end: int, count: nat) {
    && Ok(a, count) && Ok(b, count) && b.slots == a.slots && b.states == a.states && b.rings.Keys == a.rings.Keys
    && (forall j | j in a.rings && j != k :: b.rings[j] == a.rings[j])
    && (k in a.rings ==> RingShifted(a.rings[k], b.rings[k], begin, end))
    && (k in a.rings && Distinct(a.rings[k].entries) ==> Ordered(b.rings[k]))
  }

  /** The checkpoints of s's slot with positions [begin, end) dropped and later ones lowered. */
  method ShiftCheckpoints(st: Store, s: int, begin: int, end: int, count: nat) returns (st': Store)
    requires Ok(st, count) && Owns(st, s) && 0 <= begin <= end
    ensures ShiftApplied(st, st', SlotOf(st, s), begin, end, count) && OthersKept(st, st', s)
  {
    st' := st;
    var k := SlotOf(st, s);
    if k in st.rings {
      assert RingOk(st.rings[k], count);
      var shifted := ShiftRange(st.rings[k], begin, end);
      st' := st.(rings := st.rings[k := shifted]);
      forall t | t != s && t in st.slots.slotForSeq
        ensures SlotOf(st, t) != k
      {
        SoleOwner(st.slots, s, t);
      }
    }
  }

  lemma DetachedNames(st: Store, s: int, r: Restore, count: nat)
    requires Ok(st, count) && Names(st, s, r) && st.slots.refCount[SlotOf(st, s)] > 1 && st.slots.free != []
    requires st.rings[r.slot].size > 0
    ensures var b := DetachedStore(st, s, count);
            var r' := r.(slot := SlotOf(b, s));
            && Names(b, s, r') && RestoreEntry(b, r').value.data == RestoreEntry(st, r).value.data
            && Checkpoints(b.rings[r'.slot]) == Checkpoints(st.rings[r.slot])
  {
    var b := DetachedStore(st, s, count);
    var src, dst := st.rings[r.slot], RingAt(st.rings, Top(st.slots), count);
    CopiedCheckpoints(src, dst);
  }

  /** A sequence with checkpoints takes them along to its private slot. */
  lemma DetachedCheckpoints(st: Store, s: int, count: nat)
    requires Ok(st, count) && s in st.slots.slotForSeq && st.slots.refCount[SlotOf(st, s)] > 1 && st.slots.free != []
    requires Checkpoints(RingAt(st.rings, SlotOf(st, s), count)) != {}
    ensures Checkpoints(RingAt(DetachedStore(st, s, count).rings, Top(st.slots), count)) ==
            Checkpoints(RingAt(st.rings, SlotOf(st, s), count))
  {
    var src, dst := RingAt(st.rings, SlotOf(st, s), count), RingAt(st.rings, Top(st.slots), count);
    var p :| p in Checkpoints(src);
    var i :| 0 <= i < |src.entries| && src.entries[i].Valid() && src.entries[i].pos == p;
    assert SlotOf(st, s) in st.rings && RingOk(src, count);
    ValidMeansSize(src, i);
    CopiedCheckpoints(src, dst);
  }

  lemma CopiedCheckpoints(src: Ring, dst: Ring)
    requires |src.entries| == |dst.entries|
    ensures Checkpoints(CopiedRing(src, dst)) == Checkpoints(src)
  {
    var c := CopiedRing(src, dst);
    assert forall i | 0 <= i < |src.entries| :: c.entries[i].pos == src.entries[i].pos;
  }

  function UpTo(ps: set<int>, pos: int): set<int> {
    set p | p in ps && p <= pos
  }

  lemma PrunedCheckpoints(r: Ring, r': Ring, pos: int)
    requires RingPruned(r, r', pos)
    ensures Checkpoints(r') == UpTo(Checkpoints(r), pos)
  {
    forall p | p in Checkpoints(r) && p <= pos
      ensures p in Checkpoints(r')
    {
      var i :| 0 <= i < |r.entries| && r.entries[i].Valid() && r.entries[i].pos == p;
      assert r'.entries[i].pos == p;
    }
  }

  // ----- Batches -----

  function Elements(seqs: seq<int>): set<int> {
    set s | s in seqs
  }

  /** The sequences of a batch use the slots listed. */
  ghost predicate HaveSlots(st: Store, seqs: seq<int>, slots: seq<int>) {
    |slots| == |seqs| && forall i | 0 <= i < |seqs| :: seqs[i] in st.slots.slotForSeq && SlotOf(st, seqs[i]) == slots[i]
  }

  ghost predicate Different(seqs: seq<int>) {
    forall i, j | 0 <= i < j < |seqs| :: seqs[i] != seqs[j]
  }

  /** Both stores give every sequence of the first the same slot. */
  ghost predicate KeepsSlots(a: Store, b: Store) {
    forall t | t in a.slots.slotForSeq :: t in b.slots.slotForSeq && SlotOf(b, t) == SlotOf(a, t)
  }

  function Zeroed(states: seq<int>, slots: seq<int>): (r: seq<int>)
    ensures |r| == |states|
  {
    seq(|states|, k requires 0 <= k < |states| => if k in slots then 0 else states[k])
  }

  /** A slot for every sequence of a batch: old sequences keep theirs with its state, new ones own a zeroed one.
      With at most as many sequences as slots it cannot fail. Checkpoints stay where they are. */
  method AssignSlots(st: Store, seqs: seq<int>, count: nat) returns (ok: bool, st': Store, slots: seq<int>)
    requires Ok(st, count)
    ensures Ok(st', count) && |st'.states| == |st.states| && KeepsSlots(st, st') && st'.rings == st.rings
    ensures NewOwn(st, st')
    ensures |st.slots.slotForSeq.Keys + Elements(seqs)| <= |st.states| ==> ok
    ensures ok ==> HaveSlots(st', seqs, slots)
    ensures st'.slots.slotForSeq.Keys <= st.slots.slotForSeq.Keys + Elements(seqs)
    ensures ok ==> st'.slots.slotForSeq.Keys == st.slots.slotForSeq.Keys + Elements(seqs)
    ensures StatesKept(st, st')
    ensures ok ==> NewZeroed(st, st')
  {
    assert seqs[..|seqs|] == seqs;
    var newSlots;
    ok, st', slots, newSlots := GiveSlots(st, seqs, count);
    if ok {
      st' := st'.(states := Zeroed(st.states, newSlots));
    }
  }

  /** The slots, without zeroing those of new sequences, which are listed. */
  method GiveSlots(st: Store, seqs: seq<int>, count: nat)
    returns (ok: bool, st': Store, slots: seq<int>, newSlots: seq<int>)
    requires Ok(st, count)
    ensures |slots| <= |seqs| && Giving(st, st', seqs, slots, newSlots, count)
    ensures |st.slots.slotForSeq.Keys + Elements(seqs)| <= |st.states| ==> ok
    ensures ok ==> |slots| == |seqs|
  {
    st', slots, newSlots := st, [], [];
    assert Elements(seqs[..0]) == {};
    for i := 0 to |seqs|
      invariant |slots| == i && Giving(st, st', seqs, slots, newSlots, count)
    {
      ok, st', slots, newSlots := GiveSlot(st, st', seqs, slots, newSlots, count);
      if !ok {
        return;
      }
    }
    ok := true;
  }

  /** The next sequence of the batch gets its slot. */
  method GiveSlot(ghost start: Store, st: Store, seqs: seq<int>, slots: seq<int>, news: seq<int>, count: nat)
    returns (ok: bool, st': Store, slots': seq<int>, news': seq<int>)
    requires |slots| < |seqs| && Giving(start, st, seqs, slots, news, count)
    ensures !ok ==> st' == st && slots' == slots && news' == news
    ensures |start.slots.slotForSeq.Keys + Elements(seqs)| <= |start.states| ==> ok
    ensures ok ==> |slots'| == |slots| + 1 && Giving(start, st', seqs, slots', news', count)
  {
    slots' := slots;
    var slot;
    ok, st', slot, news' := SlotFor(st, seqs[|slots|], count, news, start);
    if !ok {
      TooMany(start.slots.slotForSeq.Keys, seqs, |slots|);
      return;
    }
    AssignedNext(start, st, st', seqs, slots, slot);
    slots' := slots + [slot];
  }

  /** Some sequences of the batch have got their slots; nothing else has changed. */
  ghost predicate Giving(a: Store, b: Store, seqs: seq<int>, slots: seq<int>, news: seq<int>, count: nat) {
    && Ok(b, count) && b.states == a.states && b.rings == a.rings && |slots| <= |seqs|
    && Assigned(a, b, seqs, slots) && NewListed(a, b, news)
  }

  /** The new sequences own their slots. */
  ghost predicate NewOwn(a: Store, b: Store) {
    forall t | t in b.slots.slotForSeq && t !in a.slots.slotForSeq :: Owns(b, t)
  }

  /** The old sequences have the states they had. */
  ghost predicate StatesKept(a: Store, b: Store)
    requires Sound(a.slots) && |a.states| == |b.states| == |a.slots.refCount|
  {
    forall t | t in a.slots.slotForSeq :: b.states[SlotOf(a, t)] == a.states[SlotOf(a, t)]
  }

  /** Nobody outside the batch gets a slot, and old sequences have the states they had. */
  ghost predicate OnlyBatch(a: Store, b: Store, seqs: seq<int>)
    requires Sound(a.slots) && |a.states| == |b.states| == |a.slots.refCount|
  {
    b.slots.slotForSeq.Keys <= a.slots.slotForSeq.Keys + Elements(seqs) && StatesKept(a, b)
  }

  /** The new sequences own a slot with a zero state. */
  ghost predicate NewZeroed(a: Store, b: Store)
    requires Sound(b.slots) && |b.states| == |b.slots.refCount|
  {
    forall t | t in b.slots.slotForSeq && t !in a.slots.slotForSeq :: Owns(b, t) && b.states[SlotOf(b, t)] == 0
  }

  /** news are the slots given to new sequences, each to one. */
  ghost predicate NewListed(a: Store, b: Store, news: seq<int>) {
    && (forall t | t in b.slots.slotForSeq && t !in a.slots.slotForSeq :: Owns(b, t) && SlotOf(b, t) in news)
    && (forall t | t in a.slots.slotForSeq :: SlotOf(a, t) !in news)
  }

  /** The first sequences of the batch have the slots listed; the others have what they had. */
  ghost predicate Assigned(a: Store, b: Store, seqs: seq<int>, slots: seq<int>) {
    && |slots| <= |seqs| && KeepsSlots(a, b)
    && (forall k | 0 <= k < |slots| :: seqs[k] in b.slots.slotForSeq && SlotOf(b, seqs[k]) == slots[k])
    && b.slots.slotForSeq.Keys == a.slots.slotForSeq.Keys + Elements(seqs[..|slots|])
  }

  lemma AssignedNext(a: Store, b: Store, c: Store, seqs: seq<int>, slots: seq<int>, slot: int)
    requires Assigned(a, b, seqs, slots) && |slots| < |seqs| && KeepsSlots(b, c)
    requires seqs[|slots|] in c.slots.slotForSeq && SlotOf(c, seqs[|slots|]) == slot
    requires c.slots.slotForSeq.Keys == b.slots.slotForSeq.Keys + {seqs[|slots|]}
    ensures Assigned(a, c, seqs, slots + [slot])
  {
    ElementsNext(seqs, |slots|);
    StillSlots(b, c, seqs, slots);
  }

  lemma ElementsNext(seqs: seq<int>, i: nat)
    requires i < |seqs|
    ensures Elements(seqs[..i + 1]) == Elements(seqs[..i]) + {seqs[i]}
  {
  }

  lemma StillSlots(a: Store, b: Store, seqs: seq<int>, slots: seq<int>)
    requires KeepsSlots(a, b) && |slots| <= |seqs|
    requires forall k | 0 <= k < |slots| :: seqs[k] in a.slots.slotForSeq && SlotOf(a, seqs[k]) == slots[k]
    ensures forall k | 0 <= k < |slots| :: seqs[k] in b.slots.slotForSeq && SlotOf(b, seqs[k]) == slots[k]
  {
  }

  /** The slot of s, which a new sequence is given first. */
  method SlotFor(st: Store, s: int, count: nat, news: seq<int>, ghost start: Store)
    returns (ok: bool, st': Store, slot: int, news': seq<int>)
    requires Ok(st, count) && KeepsSlots(start, st) && NewListed(start, st, news)
    ensures Ok(st', count) && st'.states == st.states && st'.rings == st.rings && KeepsSlots(st, st')
    ensures !ok ==> st' == st && news' == news && s !in st.slots.slotForSeq && |st.slots.slotForSeq.Keys| >= |st.states|
    ensures ok ==> s in st'.slots.slotForSeq && SlotOf(st', s) == slot
    ensures ok ==> st'.slots.slotForSeq.Keys == st.slots.slotForSeq.Keys + {s}
    ensures ok ==> NewListed(start, st', news')
  {
    ok, st', news' := true, st, news;
    slot := 0;
    if s !in st.slots.slotForSeq {
      ok, st' := Allocate(st, s, count);
      if !ok {
        assert |st.slots.slotForSeq| == |st.slots.slotForSeq.Keys|;
        return;
      }
      news' := news + [SlotOf(st', s)];
      ListedNext(start, st, st', s, news);
    }
    slot := SlotOf(st', s);
  }

  lemma ListedNext(a: Store, b: Store, c: Store, s: int, news: seq<int>)
    requires Sound(b.slots) && KeepsSlots(a, b) && NewListed(a, b, news) && s !in b.slots.slotForSeq
    requires b.slots.free != []
    requires c.slots == Allocated(b.slots, s)
    ensures NewListed(a, c, news + [SlotOf(c, s)])
  {
    forall t | t in b.slots.slotForSeq
      ensures SlotOf(b, t) != Top(b.slots)
    {
      SlotInUse(b.slots, t);
    }
  }

  lemma TooMany(keys: set<int>, seqs: seq<int>, i: nat)
    requires i < |seqs| && seqs[i] !in keys + Elements(seqs[..i])
    ensures |keys + Elements(seqs[..i])| < |keys + Elements(seqs)|
  {
    var some := keys + Elements(seqs[..i]);
    var all := keys + Elements(seqs);
    var more := some + {seqs[i]};
    assert more <= all;
    assert all == more + (all - more);
  }

  /** Sequences keep their states. */
  ghost predicate KeepsStates(a: Store, b: Store)
    requires Sound(a.slots) && Sound(b.slots) && |a.states| == |a.slots.refCount| && |b.states| == |b.slots.refCount|
  {
    && a.slots.slotForSeq.Keys == b.slots.slotForSeq.Keys
    && forall t | t in a.slots.slotForSeq :: a.states[SlotOf(a, t)] == b.states[SlotOf(b, t)]
  }

  ghost predicate CanDetach(st: Store, s: int, count: nat) {
    Ok(st, count) && s in st.slots.slotForSeq && st.slots.refCount[SlotOf(st, s)] > 1 && st.slots.free != []
  }

  /** What copy on write does for the first n sequences, one after the other. */
  ghost function DetachedTo(st: Store, seqs: seq<int>, n: nat, count: nat): Store
    requires n <= |seqs|
  {
    if n == 0 then st
    else
      var b := DetachedTo(st, seqs, n - 1, count);
      if CanDetach(b, seqs[n - 1], count) then DetachedStore(b, seqs[n - 1], count) else b
  }

  /** Every sequence that is not listed keeps its slot, state and checkpoints. */
  ghost predicate OthersSame(a: Store, b: Store, seqs: seq<int>)
    requires Sound(a.slots) && Sound(b.slots) && |a.states| == |a.slots.refCount| && |b.states| == |b.slots.refCount|
    requires a.slots.slotForSeq.Keys == b.slots.slotForSeq.Keys
  {
    forall t | t in a.slots.slotForSeq && t !in seqs :: SlotOf(b, t) == SlotOf(a, t) && Same(a, b, t)
  }

  lemma {:induction false} DetachedToKeeps(st: Store, seqs: seq<int>, n: nat, count: nat)
    requires Ok(st, count) && n <= |seqs|
    ensures var b := DetachedTo(st, seqs, n, count);
            Ok(b, count) && |b.states| == |st.states| && KeepsStates(st, b) && OthersSame(st, b, seqs)
  {
    if n > 0 {
      DetachedToKeeps(st, seqs, n - 1, count);
      var b, s := DetachedTo(st, seqs, n - 1, count), seqs[n - 1];
      if CanDetach(b, s, count) {
        DetachKeeps(b, s, count);
        DetachedToNext(st, b, DetachedStore(b, s, count), s, seqs, count);
      }
    }
  }

  lemma DetachedToNext(a: Store, b: Store, c: Store, s: int, seqs: seq<int>, count: nat)
    requires Ok(a, count) && Ok(b, count) && Ok(c, count) && KeepsStates(a, b) && OthersSame(a, b, seqs) && s in seqs
    requires s in b.slots.slotForSeq && s in c.slots.slotForSeq && OthersKept(b, c, s)
    requires c.states[SlotOf(c, s)] == b.states[SlotOf(b, s)]
    ensures KeepsStates(a, c) && OthersSame(a, c, seqs)
  {
    forall t
      ensures t in b.slots.slotForSeq.Keys <==> t in c.slots.slotForSeq.Keys
    {
      assert t != s ==> (t in b.slots.slotForSeq <==> t in c.slots.slotForSeq);
    }
  }

  ghost predicate OwnFirst(st: Store, seqs: seq<int>, n: nat)
    requires n <= |seqs|
  {
    forall k | 0 <= k < n :: Owns(st, seqs[k])
  }

  /** Gives every sequence of the batch a slot of its own, holding the state it had; every other sequence keeps
      its slot, state and checkpoints. With at most as many sequences as slots it cannot fail. */
  method EnsureWritable(st: Store, seqs: seq<int>, slots: seq<int>, count: nat)
    returns (ok: bool, st': Store, slots': seq<int>, ghost n: nat)
    requires Ok(st, count) && HaveSlots(st, seqs, slots) && Different(seqs)
    ensures n <= |seqs| && st' == DetachedTo(st, seqs, n, count)
    ensures Ok(st', count) && |st'.states| == |st.states| && KeepsStates(st, st') && OthersSame(st, st', seqs)
    ensures |st.slots.slotForSeq| <= |st.states| ==> ok
    ensures ok ==> OwnFirst(st', seqs, |seqs|) && HaveSlots(st', seqs, slots')
  {
    st', slots', n := st, slots, 0;
    for i := 0 to |seqs|
      invariant n == i && st' == DetachedTo(st, seqs, i, count) && Ok(st', count)
      invariant HaveSlots(st', seqs, slots') && OwnFirst(st', seqs, i)
    {
      DetachedToKeeps(st, seqs, i, count);
      ok, st', slots' := MakePrivate(st', seqs, slots', i, count);
      if !ok {
        assert |st.slots.slotForSeq| == |st.slots.slotForSeq.Keys| ==
               |st'.slots.slotForSeq.Keys| == |st'.slots.slotForSeq|;
        return;
      }
      n := n + 1;
    }
    DetachedToKeeps(st, seqs, |seqs|, count);
    ok := true;
  }

  /** Copy on write for the i-th sequence. */
  method MakePrivate(st: Store, seqs: seq<int>, slots: seq<int>, i: nat, count: nat)
    returns (ok: bool, st': Store, slots': seq<int>)
    requires Ok(st, count) && i < |seqs| && HaveSlots(st, seqs, slots) && Different(seqs) && OwnFirst(st, seqs, i)
    ensures !ok ==> st' == st && |st.slots.slotForSeq| > |st.slots.refCount|
    ensures ok ==> st' == if CanDetach(st, seqs[i], count) then DetachedStore(st, seqs[i], count) else st
    ensures ok ==> Ok(st', count) && HaveSlots(st', seqs, slots') && OwnFirst(st', seqs, i + 1)
  {
    var s := seqs[i];
    ok, st', slots' := true, st, slots;
    SlotInUse(st.slots, s);
    if st.slots.refCount[SlotOf(st, s)] > 1 {
      ok, st' := Detach(st, s, count);
      if ok {
        DetachedOwners(st, s, count, seqs, i);
        slots' := slots[i := SlotOf(st', s)];
      }
    }
  }

  /** Detaching one sequence leaves the sole owners among the earlier ones what they were. */
  lemma DetachedOwners(st: Store, s: int, count: nat, seqs: seq<int>, i: nat)
    requires CanDetach(st, s, count) && i < |seqs| && seqs[i] == s && Different(seqs) && OwnFirst(st, seqs, i)
    ensures OwnFirst(DetachedStore(st, s, count), seqs, i)
  {
    var b := DetachedStore(st, s, count);
    forall k | 0 <= k < i
      ensures Owns(b, seqs[k])
    {
      assert Owns(st, seqs[k]) && seqs[k] != s;
      SlotInUse(st.slots, seqs[k]);
    }
  }

  // ----- Taking checkpoints -----

  /** The highest position of s among the first n tokens of a batch, or -1. */
  function HighestIn(b: KvCells.Batch, s: int, n: nat): int
    requires b.Valid() && n <= b.Size()
  {
    if n == 0 then -1
    else if b.sequences[n - 1] == s then Max(HighestIn(b, s, n - 1), b.positions[n - 1]) else HighestIn(b, s, n - 1)
  }

  method Highest(b: KvCells.Batch, s: int) returns (pos: int)
    requires b.Valid()
    ensures pos == HighestIn(b, s, b.Size())
  {
    pos := -1;
    for i := 0 to b.Size()
      invariant pos == HighestIn(b, s, i)
    {
      if b.sequences[i] == s {
        pos := Max(pos, b.positions[i]);
      }
    }
  }

  /** A planned checkpoint lies above everything its slot has saved; -1 means none is planned. */
  ghost predicate PlannedWell(b: KvCells.Batch, s: int, ring: Ring, minPos: int, interval: int, pos: int)
    requires b.Valid()
  {
    var top := HighestIn(b, s, b.Size());
    pos == if top >= minPos && (ring.lastPos < 0 || top - ring.lastPos >= interval) then top else -1
  }

  /** Which sequences of a batch get a checkpoint, at their highest position: far enough above their last one. */
  method PlanCheckpoints(rings: map<int, Ring>, seqs: seq<int>, slots: seq<int>, b: KvCells.Batch, minPos: int,
                         interval: int, count: nat)
    returns (planned: seq<int>, r: map<int, Ring>)
    requires b.Valid() && |slots| == |seqs| && 0 <= minPos && 1 <= interval
    requires forall k | k in rings :: RingOk(rings[k], count)
    ensures count == 0 ==> planned == [] && r == rings
    ensures count > 0 ==> |planned| == |seqs|
    ensures forall k | k in r :: RingOk(r[k], count)
    ensures forall k | k in rings :: k in r && r[k] == rings[k]
    ensures forall k | k in r && k !in rings :: k in slots && r[k] == NewRing(count)
    ensures forall i | 0 <= i < |planned| :: planned[i] >= 0 ==> slots[i] in r && planned[i] > r[slots[i]].lastPos
    ensures forall i | 0 <= i < |planned| ::
      PlannedWell(b, seqs[i], RingAt(rings, slots[i], count), minPos, interval, planned[i])
  {
    planned, r := [], rings;
    if count == 0 {
      return;
    }
    NewRingOk(count);
    for i := 0 to |seqs|
      invariant |planned| == i
      invariant forall k | k in r :: RingOk(r[k], count)
      invariant forall k | k in rings :: k in r && r[k] == rings[k]
      invariant forall k | k in r && k !in rings :: k in slots && r[k] == NewRing(count)
      invariant forall k | 0 <= k < i :: planned[k] >= 0 ==> slots[k] in r && planned[k] > r[slots[k]].lastPos
      invariant forall k | 0 <= k < i ::
        PlannedWell(b, seqs[k], RingAt(rings, slots[k], count), minPos, interval, planned[k])
    {
      var pos := Highest(b, seqs[i]);
      var plan := -1;
      if pos >= minPos {
        var ring := RingAt(r, slots[i], count);
        r := r[slots[i] := ring];
        if ring.lastPos < 0 || pos - ring.lastPos >= interval {
          plan := pos;
        }
      }
      planned := planned + [plan];
    }
  }

  /** Saves a state as the checkpoint of a slot at pos. Only the overwritten checkpoint is lost. */
  method SaveCheckpoint(ring: Ring, pos: int, state: int, count: nat) returns (r: Ring)
    requires RingOk(ring, count) && count > 0 && 0 <= pos < MAX_INT32
    ensures r == SavedRing(ring, pos, state) && RingOk(r, count)
    ensures r.lastPos == pos && r.entries[ring.next] == Entry(pos, Some(state))
    ensures Ordered(ring) && pos > ring.lastPos ==> Ordered(r)
    ensures Checkpoints(ring) - {ring.entries[ring.next].pos} <= Checkpoints(r) <= Checkpoints(ring) + {pos}
    ensures pos in Checkpoints(r)
  {
    var recorded, idx := Record(ring, pos);
    r := recorded.(entries := recorded.entries[idx := Entry(pos, Some(state))]);
    SavedKeeps(ring, pos, state);
  }

  /** The store after slot k has got a new state, saved at plan if that is a position. */
  ghost function UpdatedStore(st: Store, k: int, state: int, plan: int, count: nat): Store
    requires Ok(st, count) && 0 <= k < |st.states|
  {
    Store(st.slots, st.states[k := state],
          if plan < 0 || count == 0 then st.rings else
            NewRingOk(count);
            assert RingOk(RingAt(st.rings, k, count), count);
            st.rings[k := SavedRing(RingAt(st.rings, k, count), plan, state)])
  }

  lemma UpdatedKeeps(st: Store, k: int, state: int, plan: int, count: nat)
    requires Ok(st, count) && 0 <= k < |st.states| && plan < MAX_INT32
    ensures Ok(UpdatedStore(st, k, state, plan, count), count)
    ensures plan >= 0 && count > 0 ==> Saved(UpdatedStore(st, k, state, plan, count), k, plan, state)
    ensures forall j | 0 <= j < |st.states| && j != k :: Untouched(st, UpdatedStore(st, k, state, plan, count), j)
  {
    if plan >= 0 && count > 0 {
      NewRingOk(count);
      var ring := RingAt(st.rings, k, count);
      assert RingOk(ring, count);
      SavedKeeps(ring, plan, state);
    }
  }

  /** Writes one slot's new state, and saves it if a checkpoint is planned. */
  method UpdateState(st: Store, slot: int, state: int, plan: int, count: nat) returns (st': Store)
    requires Ok(st, count) && 0 <= slot < |st.states| && plan < MAX_INT32
    ensures st' == UpdatedStore(st, slot, state, plan, count) && Ok(st', count)
  {
    UpdatedKeeps(st, slot, state, plan, count);
    var rings := st.rings;
    if plan >= 0 && count > 0 {
      NewRingOk(count);
      var ring := RingAt(st.rings, slot, count);
      assert RingOk(ring, count);
      ring := SaveCheckpoint(ring, plan, state, count);
      rings := rings[slot := ring];
    }
    st' := Store(st.slots, st.states[slot := state], rings);
  }

  /** The position planned for the i-th sequence of a batch; without checkpoints there are no plans. */
  function PlanAt(planned: seq<int>, i: nat): int {
    if i < |planned| then planned[i] else -1
  }

  ghost predicate SlotsListed(st: Store, slots: seq<int>) {
    && (forall i | 0 <= i < |slots| :: 0 <= slots[i] < |st.states|)
    && (forall i, j | 0 <= i < j < |slots| :: slots[i] != slots[j])
  }

  /** The first n slots of a batch have been updated. */
  ghost predicate UpdatedTo(a: Store, b: Store, slots: seq<int>, news: seq<int>, planned: seq<int>, n: nat, count: nat)
    requires |slots| == |news| && n <= |slots| && SlotsListed(a, slots)
  {
    && Ok(a, count) && Ok(b, count) && b.slots == a.slots && |b.states| == |a.states|
    && (forall i | 0 <= i < n :: SlotUpdated(a, b, slots[i], news[i], PlanAt(planned, i), count))
    && (forall k | 0 <= k < |a.states| && k !in slots[..n] :: Untouched(a, b, k))
  }

  /** Slot k has the new state, and the planned checkpoint on top of the ones it had. */
  ghost predicate SlotUpdated(a: Store, b: Store, k: int, state: int, plan: int, count: nat)
    requires Ok(a, count) && 0 <= k < |a.states| && |b.states| == |a.states|
  {
    Untouched(UpdatedStore(a, k, state, plan, count), b, k)
  }

  /** Writes the new states of a batch whose sequences own their slots, saving the planned checkpoints. */
  method UpdateStates(st: Store, slots: seq<int>, news: seq<int>, planned: seq<int>, count: nat) returns (st': Store)
    requires Ok(st, count) && |slots| == |news| && SlotsListed(st, slots)
    requires forall i | 0 <= i < |planned| :: planned[i] < MAX_INT32
    ensures UpdatedTo(st, st', slots, news, planned, |slots|, count)
  {
    st' := st;
    for i := 0 to |slots|
      invariant UpdatedTo(st, st', slots, news, planned, i, count)
    {
      ghost var before := st';
      st' := UpdateState(st', slots[i], news[i], PlanAt(planned, i), count);
      UpdatedNext(st, before, st', slots, news, planned, i, count);
    }
  }

  lemma UpdatedNext(a: Store, b: Store, c: Store, slots: seq<int>, news: seq<int>, planned: seq<int>, n: nat,
                    count: nat)
    requires |slots| == |news| && n < |slots| && SlotsListed(a, slots)
    requires UpdatedTo(a, b, slots, news, planned, n, count)
    requires c == UpdatedStore(b, slots[n], news[n], PlanAt(planned, n), count) && PlanAt(planned, n) < MAX_INT32
    ensures UpdatedTo(a, c, slots, news, planned, n + 1, count)
  {
    var k := slots[n];
    UpdatedKeeps(b, k, news[n], PlanAt(planned, n), count);
    assert slots[..n + 1] == slots[..n] + [k];
    assert k !in slots[..n];
    assert Untouched(a, b, k);
    assert RingAt(a.rings, k, count) == RingAt(b.rings, k, count);
    forall i | 0 <= i < n + 1
      ensures SlotUpdated(a, c, slots[i], news[i], PlanAt(planned, i), count)
    {
      if i < n {
        assert SlotUpdated(a, b, slots[i], news[i], PlanAt(planned, i), count) && Untouched(b, c, slots[i]);
      }
    }
    forall j | 0 <= j < |a.states| && j !in slots[..n + 1]
      ensures Untouched(a, c, j)
    {
      assert Untouched(a, b, j) && Untouched(b, c, j);
    }
  }

  /** The slot has a checkpoint at pos with this state. */
  ghost predicate Saved(st: Store, slot: int, pos: int, state: int) {
    slot in st.rings && exists i | 0 <= i < |st.rings[slot].entries| ::
      st.rings[slot].entries[i] == Entry(pos, Some(state))
  }

  /** The slot has the same state and checkpoints in both. */
  ghost predicate Untouched(a: Store, b: Store, k: nat)
    requires k < |a.states| && k < |b.states|
  {
    a.states[k] == b.states[k] && (k in a.rings <==> k in b.rings) && (k in a.rings ==> a.rings[k] == b.rings[k])
  }
}
