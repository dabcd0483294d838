/** The recurrent states against the KV cache: a sequence goes on from the state it had after its last position. */
module RecurrentSync {
  import opened Prelude
  import opened KvCells
  import Kv = Causal
  import Slots
  import opened RecurrentStore
  import opened RecurrentTruth
  import opened Recurrent
  import Views = CausalRuns

  ghost predicate IsTop(ps: set<int>, t: int) {
    t in ps && forall p | p in ps :: p <= t
  }

  /** The state is the one recorded at the last position held, and every recorded position is held. */
  ghost predicate Aligned(past: Past, ps: set<int>, state: int) {
    past.Keys <= ps && if ps == {} then state == 0 else exists t :: IsTop(ps, t) && t in past && past[t] == state
  }

  /** The state of s belongs to the positions that the KV cache holds for it; without a slot it has none. */
  ghost predicate InStep(cells: seq<Cell>, st: Store, hist: History, s: int) {
    if s in st.slots.slotForSeq then
      && s in hist && 0 <= SlotOf(st, s) < |st.states|
      && Aligned(hist[s], Positions(cells, s), st.states[SlotOf(st, s)])
    else s !in hist && Positions(cells, s) == {}
  }

  ghost predicate Synced(c: HybridCache, s: int)
    reads c, c.kv
  {
    InStep(c.kv.cells, c.store, c.hist, s)
  }

  lemma NewInStep(cells: seq<Cell>, st: Store, s: int)
    requires st.slots.slotForSeq == map[] && forall i | 0 <= i < |cells| :: cells[i].Free()
    ensures InStep(cells, st, map[], s)
  {
  }

  // ----- Those who are not concerned -----

  lemma OthersInStep(cells: seq<Cell>, a: Store, h: History, cells': seq<Cell>, b: Store, h': History, s: int,
                     count: nat)
    requires RecurrentStore.Ok(a, count) && RecurrentStore.Ok(b, count) && OthersKept(a, b, s)
    requires Kv.OthersUntouched(cells, cells', s) && h' - {s} == h - {s}
    ensures forall t | t != s :: InStep(cells', b, h', t) <==> InStep(cells, a, h, t)
  {
    forall t | t != s
      ensures InStep(cells', b, h', t) <==> InStep(cells, a, h, t)
    {
      UntouchedPositions(cells, cells', s, t);
      SamePast(h, h', s, t);
    }
  }

  lemma UntouchedPositions(cells: seq<Cell>, cells': seq<Cell>, s: int, t: int)
    requires Kv.OthersUntouched(cells, cells', s) && t != s
    ensures Positions(cells', t) == Positions(cells, t)
  {
    assert forall i | 0 <= i < |cells| :: cells'[i].Holds(t) <==> cells[i].Holds(t);
  }

  lemma SamePast(h: History, h': History, s: int, t: int)
    requires h' - {s} == h - {s} && t != s
    ensures (t in h' <==> t in h) && (t in h ==> h'[t] == h[t])
  {
    assert t in h <==> t in h - {s};
    assert t in h' <==> t in h' - {s};
    if t in h {
      assert h'[t] == (h' - {s})[t] == (h - {s})[t];
    }
  }

  // ----- A pass -----

  /** The batch takes s beyond the positions it has. */
  ghost predicate Continues(cells: seq<Cell>, b: Batch, s: int)
    requires b.Valid()
  {
    s in b.sequences ==> forall p | p in Positions(cells, s) :: p < HighestIn(b, s, b.Size())
  }

  lemma {:induction false} HighestMeaning(b: Batch, s: int, n: nat)
    requires b.Valid() && n <= b.Size()
    ensures HighestIn(b, s, n) < MAX_INT32
    ensures forall i | 0 <= i < n && b.sequences[i] == s :: b.positions[i] <= HighestIn(b, s, n)
    ensures HighestIn(b, s, n) == -1 ||
            exists i | 0 <= i < n :: b.sequences[i] == s && b.positions[i] == HighestIn(b, s, n)
  {
    if n > 0 {
      HighestMeaning(b, s, n - 1);
    }
  }

  lemma BatchTop(b: Batch, s: int)
    requires b.Valid() && s in b.sequences
    ensures IsTop(Views.BatchPositions(b, s), HighestIn(b, s, b.Size()))
  {
    HighestMeaning(b, s, b.Size());
  }

  /** Without a window a pass only adds the positions of the batch. */
  lemma PassPositions(cells: seq<Cell>, b: Batch, loc: int, cells': seq<Cell>, s: int)
    requires b.Valid() && Kv.Forwarded(cells, b, MAX_INT32, Kv.Fits(cells, b, MAX_INT32), loc, cells')
    ensures Positions(cells', s) ==
            Positions(cells, s) + if Kv.Fits(cells, b, MAX_INT32) then Views.BatchPositions(b, s) else {}
  {
    Views.ForwardPositions(Views.Config(MAX_INT32, MAX_INT32, 0), cells, b, cells', s);
  }

  lemma NoBatchPositions(b: Batch, s: int)
    requires b.Valid() && s !in b.sequences
    ensures Views.BatchPositions(b, s) == {}
  {
  }

  lemma AlignedNext(past: Past, ps: set<int>, more: set<int>, t: int, state: int)
    requires past.Keys <= ps && IsTop(more, t) && forall p | p in ps :: p < t
    ensures Aligned(past[t := state], ps + more, state)
  {
    assert IsTop(ps + more, t);
  }

  lemma NotAligned(past: Past, ps: set<int>, more: set<int>, t: int, state: int)
    requires past.Keys <= ps && IsTop(more, t) && forall p | p in ps :: p < t
    ensures !Aligned(past, ps + more, state)
  {
    assert t in ps + more && t !in past;
  }

  /** What a pass that is not completed does to s: it is out of step exactly if it was in the batch. */
  lemma HalfPass(cells: seq<Cell>, a: Store, h: History, b: Batch, loc: int, cells': seq<Cell>, c: Store, count: nat,
                 s: int)
    requires b.Valid() && Kv.Fits(cells, b, MAX_INT32) && Kv.Forwarded(cells, b, MAX_INT32, true, loc, cells')
    requires Advanced(a, c, b.sequences, count) && InStep(cells, a, h, s) && Continues(cells, b, s)
    ensures InStep(cells', c, Extended(h, c.slots.slotForSeq.Keys), s) <==> s !in b.sequences
  {
    PassPositions(cells, b, loc, cells', s);
    if s in b.sequences {
      BatchTop(b, s);
      var t, past := HighestIn(b, s, b.Size()), if s in h then h[s] else map[];
      if s in c.slots.slotForSeq {
        NotAligned(past, Positions(cells, s), Views.BatchPositions(b, s), t, c.states[SlotOf(c, s)]);
      }
      assert t in Positions(cells', s);
    } else {
      NoBatchPositions(b, s);
      NotInBatch(b.sequences, s);
    }
  }

  lemma NotInBatch(seqs: seq<int>, s: int)
    ensures s in Elements(seqs) <==> s in seqs
  {
  }

  /** Old sequences keep their states, and only those of the batch get slots. */
  ghost predicate Advanced(a: Store, b: Store, seqs: seq<int>, count: nat) {
    && RecurrentStore.Ok(a, count) && RecurrentStore.Ok(b, count)
    && a.slots.slotForSeq.Keys <= b.slots.slotForSeq.Keys <= a.slots.slotForSeq.Keys + Elements(seqs)
    && forall t | t in a.slots.slotForSeq :: b.states[SlotOf(b, t)] == a.states[SlotOf(a, t)]
  }

  lemma BegunAdvances(a: Store, h: History, b: Store, h': History, batch: Batch, o: Kv.Outcome, pass: Pass,
                      tops: seq<int>, policy: Policy)
    requires batch.Valid() && Begun(a, h, b, h', batch, o, pass, tops, policy)
    ensures Advanced(a, b, batch.sequences, policy.count)
  {
    forall t | t in a.slots.slotForSeq.Keys
      ensures t in b.slots.slotForSeq.Keys
    {
    }
  }

  lemma PrivateAdvances(a: Store, b: Store, c: Store, all: seq<int>, seqs: seq<int>, slots: seq<int>, planned: seq<int>,
                        o: Kv.Outcome, hist: History, count: nat)
    requires Advanced(a, b, all, count) && Privatized(b, c, seqs, slots, planned, o, hist, count)
    ensures Advanced(a, c, all, count)
  {
    forall t | t in a.slots.slotForSeq
      ensures c.states[SlotOf(c, t)] == a.states[SlotOf(a, t)]
    {
      assert t in b.slots.slotForSeq;
    }
  }

  /** The sequences of the batch have the new states, the others theirs. */
  ghost predicate StatesWritten(c: Store, d: Store, seqs: seq<int>, news: seq<int>, count: nat) {
    && RecurrentStore.Ok(c, count) && RecurrentStore.Ok(d, count) && d.slots == c.slots && |news| == |seqs|
    && Different(seqs)
    && (forall i | 0 <= i < |seqs| :: seqs[i] in d.slots.slotForSeq && d.states[SlotOf(d, seqs[i])] == news[i])
    && forall t | t in c.slots.slotForSeq && t !in seqs :: d.states[SlotOf(d, t)] == c.states[SlotOf(c, t)]
  }

  lemma UpdateWrites(c: Store, d: Store, seqs: seq<int>, slots: seq<int>, news: seq<int>, planned: seq<int>, count: nat)
    requires HaveSlots(c, seqs, slots) && Different(seqs) && OwnFirst(c, seqs, |seqs|)
    requires |slots| == |news| && SlotsListed(c, slots) && UpdatedTo(c, d, slots, news, planned, |slots|, count)
    ensures StatesWritten(c, d, seqs, news, count)
  {
    assert slots[..|slots|] == slots;
    forall i | 0 <= i < |seqs|
      ensures seqs[i] in d.slots.slotForSeq && d.states[SlotOf(d, seqs[i])] == news[i]
    {
      assert SlotUpdated(c, d, slots[i], news[i], PlanAt(planned, i), count);
    }
    forall t | t in c.slots.slotForSeq && t !in seqs
      ensures d.states[SlotOf(d, t)] == c.states[SlotOf(c, t)]
    {
      NotListed(c, seqs, slots, t);
      assert Untouched(c, d, SlotOf(c, t));
    }
  }

  /** A completed pass keeps s in step: in the batch it has come to its highest position with the new state. */
  lemma FullPass(cells: seq<Cell>, a: Store, h: History, b: Batch, loc: int, cells': seq<Cell>, c: Store, d: Store,
                 seqs: seq<int>, news: seq<int>, count: nat, s: int)
    requires b.Valid() && Kv.Fits(cells, b, MAX_INT32) && Kv.Forwarded(cells, b, MAX_INT32, true, loc, cells')
    requires Advanced(a, c, b.sequences, count) && InStep(cells, a, h, s) && Continues(cells, b, s)
    requires StatesWritten(c, d, seqs, news, count) && Elements(seqs) == Elements(b.sequences)
    ensures InStep(cells', d, Written(Extended(h, c.slots.slotForSeq.Keys), seqs, Tops(b, seqs), news, |seqs|), s)
  {
    var h1 := Extended(h, c.slots.slotForSeq.Keys);
    PassPositions(cells, b, loc, cells', s);
    WrittenAt(h1, seqs, Tops(b, seqs), news, |seqs|);
    assert seqs[..|seqs|] == seqs;
    NotInBatch(b.sequences, s);
    NotInBatch(seqs, s);
    if s in seqs {
      var i :| 0 <= i < |seqs| && seqs[i] == s;
      BatchTop(b, s);
      AlignedNext(h1[s], Positions(cells, s), Views.BatchPositions(b, s), Tops(b, seqs)[i], news[i]);
    } else {
      NoBatchPositions(b, s);
    }
  }

  /** Every sequence of the batch is in step and goes on. */
  ghost predicate AllContinue(cells: seq<Cell>, st: Store, h: History, b: Batch)
    requires b.Valid()
  {
    forall s | s in b.sequences :: InStep(cells, st, h, s) && Continues(cells, b, s)
  }

  /** Sequences in step that go on are above their past. */
  lemma StepsAppend(cells: seq<Cell>, a: Store, h: History, b: Batch, keys: set<int>, seqs: seq<int>)
    requires b.Valid() && Elements(seqs) == Elements(b.sequences)
    ensures AllContinue(cells, a, h, b) ==> Appending(Extended(h, keys), seqs, Tops(b, seqs))
  {
    var past := Extended(h, keys);
    forall i, p | AllContinue(cells, a, h, b) && 0 <= i < |seqs| && seqs[i] in past && p in past[seqs[i]]
      ensures p < Tops(b, seqs)[i]
    {
      NotInBatch(seqs, seqs[i]);
      NotInBatch(b.sequences, seqs[i]);
      assert InStep(cells, a, h, seqs[i]) && Continues(cells, b, seqs[i]);
    }
  }

  lemma PlansInRange(a: Store, b: Batch, pass: Pass, policy: Policy)
    requires b.Valid() && Planned(a, b, pass, policy)
    ensures forall i | 0 <= i < |pass.planned| :: pass.planned[i] < MAX_INT32
  {
    forall i | 0 <= i < |pass.planned|
      ensures pass.planned[i] < MAX_INT32
    {
      HighestMeaning(b, pass.seqs[i], b.Size());
      assert PlannedWell(b, pass.seqs[i], RingAt(a.rings, pass.slots[i], policy.count),
                         policy.minPos, policy.interval, pass.planned[i]);
    }
  }

  // ----- Sharing and rolling back -----

  /** The KV cache holds every position below n at which s had a state. */
  ghost predicate Reached(cells: seq<Cell>, hist: History, s: int, n: int) {
    forall p | s in hist && p in hist[s] && p < n :: p in Positions(cells, s)
  }

  /** A rollback in a faithful cache brings s into step, even if it was not. */
  lemma RolledInStep(cells: seq<Cell>, a: Store, h: History, cells': seq<Cell>, b: Store, h': History, s: int,
                     target: int, keep: int, count: nat)
    requires Rolled(a, h, b, h', s, target, keep, Kv.Outcome.Ok, count) && Tidy(a, count) && Truthful(a, h, count)
    requires NonNegative(cells) && Reached(cells, h, s, target) && 0 <= keep
    requires Positions(cells', s) == Views.Below(Positions(cells, s), keep)
    ensures InStep(cells', b, h', s)
  {
    if keep > 0 {
      assert keep - 1 in Positions(cells, s);
      assert IsTop(Positions(cells', s), keep - 1);
      assert h'[s].Keys <= Positions(cells', s);
    }
  }

  /** What sharing does to dst: it is in step exactly if all of src is shared. */
  lemma SharedInStep(cells: seq<Cell>, st: Store, h: History, src: int, dst: int, len: int, count: nat)
    requires RecurrentStore.Ok(st, count) && InStep(cells, st, h, src)
    ensures InStep(Kv.SharedAll(cells, src, dst, len), SharedStore(st, src, dst), SharedPast(h, st, src, dst), dst) <==>
            src == dst || forall p | p in Positions(cells, src) :: p < len
    ensures Reached(Kv.SharedAll(cells, src, dst, len), SharedPast(h, st, src, dst), dst, len)
  {
    SharedKeeps(st, src, dst, count);
    Views.SharePositions(cells, src, dst, len, dst);
    if src != dst && src in st.slots.slotForSeq {
      SharedAligned(cells, st, h, src, len);
    }
  }

  lemma SharedAligned(cells: seq<Cell>, st: Store, h: History, src: int, len: int)
    requires InStep(cells, st, h, src) && src in st.slots.slotForSeq
    ensures Aligned(h[src], Views.Below(Positions(cells, src), len), st.states[SlotOf(st, src)]) <==>
            forall p | p in Positions(cells, src) :: p < len
  {
    var ps := Positions(cells, src);
    if forall p | p in ps :: p < len {
      assert Views.Below(ps, len) == ps;
    } else {
      var t :| IsTop(ps, t) && t in h[src];
      assert t !in Views.Below(ps, len);
    }
  }

  // ----- Cutting -----

  /** Removing from the start gives the slot up: s is in step exactly if no position is left. */
  lemma StartCutInStep(cells: seq<Cell>, a: Store, h: History, cells': seq<Cell>, b: Store, h': History, s: int,
                       end: int, count: nat)
    requires NonNegative(cells) && 0 <= end <= MAX_INT32 && cells' == Kv.RemovedAll(cells, s, 0, end)
    requires StartCut(a, h, b, h', s, Kv.Outcome.Ok, count)
    ensures InStep(cells', b, h', s) <==> forall p | p in Positions(cells, s) :: p < end
  {
    if end == MAX_INT32 {
      Views.RollbackPositions(cells, s, 0, s);
    } else {
      Views.RemovedPositions(cells, s, 0, end);
      forall p | p in Positions(cells, s) && p >= end
        ensures Positions(cells', s) != {}
      {
        Views.ClosedHas(Positions(cells, s), 0, end, p - end);
      }
    }
  }

  /** Cutting out the middle keeps s in step unless the cut takes its last position; then the state is that of a
      position which is gone, and s is out of step if it had that state at no other position. */
  lemma MiddleCutInStep(cells: seq<Cell>, a: Store, h: History, cells': seq<Cell>, b: Store, h': History, s: int,
                        t: int, begin: int, end: int, count: nat)
    requires 0 < begin <= end < MAX_INT32 && cells' == Kv.RemovedAll(cells, s, begin, end)
    requires MiddleCut(a, h, b, h', s, begin, end, Kv.Outcome.Ok, count)
    requires InStep(cells, a, h, s) && IsTop(Positions(cells, s), t)
    ensures !(begin <= t < end) ==> InStep(cells', b, h', s)
    ensures begin <= t < end && StateOnlyAt(h[s], t) ==> !InStep(cells', b, h', s)
  {
    Views.RemovedPositions(cells, s, begin, end);
    ClosedAligned(h[s], Positions(cells, s), t, begin, end);
  }

  /** The state at t is not zero and was had at no other position. */
  ghost predicate StateOnlyAt(past: Past, t: int) {
    t in past && past[t] != 0 && forall p | p in past && p != t :: past[p] != past[t]
  }

  lemma ClosedAligned(past: Past, ps: set<int>, t: int, begin: int, end: int)
    requires begin <= end && past.Keys <= ps && IsTop(ps, t) && t in past
    ensures !(begin <= t < end) ==> Aligned(ClosedPast(past, begin, end), Views.Closed(ps, begin, end), past[t])
    ensures begin <= t < end && StateOnlyAt(past, t) ==>
      !Aligned(ClosedPast(past, begin, end), Views.Closed(ps, begin, end), past[t])
  {
    var past', ps' := ClosedPast(past, begin, end), Views.Closed(ps, begin, end);
    forall q
      ensures (q in ps' <==> Views.Before(q, begin, end) in ps) && (q in past' <==> Views.Before(q, begin, end) in past)
    {
      Views.ClosedHas(ps, begin, end, q);
      Views.ClosedHas(past.Keys, begin, end, q);
    }
    if !(begin <= t < end) {
      var t' := if t >= end then t + begin - end else t;
      assert Views.Before(t', begin, end) == t;
      assert IsTop(ps', t');
    }
  }

  // ----- The calls of the runner -----

  // ----- The calls of the runner -----

  /** What a pass does to the sequences in step that the batch continues: they stay so if it was done, and otherwise
      exactly those outside the batch do. */
  ghost predicate Stepped(cells: seq<Cell>, a: Store, h: History, b: Batch, cells': seq<Cell>, a': Store, h': History,
                          done: bool)
    requires b.Valid()
  {
    forall s | InStep(cells, a, h, s) && Continues(cells, b, s) ::
      InStep(cells', a', h', s) <==> done || s !in b.sequences
  }

  lemma RefusedPass(cells: seq<Cell>, a: Store, h: History, b: Batch, loc: int, cells': seq<Cell>)
    requires b.Valid() && !Kv.Fits(cells, b, MAX_INT32) && Kv.Forwarded(cells, b, MAX_INT32, false, loc, cells')
    ensures Stepped(cells, a, h, b, cells', a, h, true)
  {
    forall s
      ensures Positions(cells', s) == Positions(cells, s)
    {
      PassPositions(cells, b, loc, cells', s);
    }
  }

  lemma HalfPasses(cells: seq<Cell>, a: Store, h: History, b: Batch, loc: int, cells': seq<Cell>, c: Store, count: nat)
    requires b.Valid() && Kv.Fits(cells, b, MAX_INT32) && Kv.Forwarded(cells, b, MAX_INT32, true, loc, cells')
    requires Advanced(a, c, b.sequences, count)
    ensures Stepped(cells, a, h, b, cells', c, Extended(h, c.slots.slotForSeq.Keys), false)
  {
    forall s | InStep(cells, a, h, s) && Continues(cells, b, s)
      ensures InStep(cells', c, Extended(h, c.slots.slotForSeq.Keys), s) <==> s !in b.sequences
    {
      HalfPass(cells, a, h, b, loc, cells', c, count, s);
    }
  }

  lemma FullPasses(cells: seq<Cell>, a: Store, h: History, b: Batch, loc: int, cells': seq<Cell>, c: Store, d: Store,
                   seqs: seq<int>, news: seq<int>, count: nat)
    requires b.Valid() && Kv.Fits(cells, b, MAX_INT32) && Kv.Forwarded(cells, b, MAX_INT32, true, loc, cells')
    requires Advanced(a, c, b.sequences, count)
    requires StatesWritten(c, d, seqs, news, count) && Elements(seqs) == Elements(b.sequences)
    ensures Stepped(cells, a, h, b, cells', d,
                    Written(Extended(h, c.slots.slotForSeq.Keys), seqs, Tops(b, seqs), news, |seqs|), true)
  {
    forall s | InStep(cells, a, h, s) && Continues(cells, b, s)
      ensures InStep(cells', d, Written(Extended(h, c.slots.slotForSeq.Keys), seqs, Tops(b, seqs), news, |seqs|), s)
    {
      FullPass(cells, a, h, b, loc, cells', c, d, seqs, news, count, s);
    }
  }

  lemma PassDone(cells: seq<Cell>, a: Store, h: History, b: Batch, loc: int, cells': seq<Cell>, c: Store, d: Store,
                 seqs: seq<int>, slots: seq<int>, news: seq<int>, planned: seq<int>, count: nat)
    requires b.Valid() && Kv.Fits(cells, b, MAX_INT32) && Kv.Forwarded(cells, b, MAX_INT32, true, loc, cells')
    requires Advanced(a, c, b.sequences, count) && Elements(seqs) == Elements(b.sequences)
    requires HaveSlots(c, seqs, slots) && Different(seqs) && OwnFirst(c, seqs, |seqs|)
    requires |slots| == |news| && SlotsListed(c, slots) && UpdatedTo(c, d, slots, news, planned, |slots|, count)
    ensures Stepped(cells, a, h, b, cells', d,
                    Written(Extended(h, c.slots.slotForSeq.Keys), seqs, Tops(b, seqs), news, |seqs|), true)
  {
    UpdateWrites(c, d, seqs, slots, news, planned, count);
    FullPasses(cells, a, h, b, loc, cells', c, d, seqs, news, count);
  }

  ghost predicate EnoughSlots(st: Store, b: Batch) {
    |st.slots.slotForSeq.Keys + Elements(b.sequences)| <= |st.states|
  }

  /** The sequences of the batch own their slots, ready to be written. */
  ghost predicate Prepared(a: Store, h: History, b: Batch, own: Store, h': History, pass: Pass, tops: seq<int>,
                           count: nat)
    requires b.Valid()
  {
    && Advanced(a, own, b.sequences, count) && h' == Extended(h, own.slots.slotForSeq.Keys)
    && HaveSlots(own, pass.seqs, pass.slots) && Different(pass.seqs) && OwnFirst(own, pass.seqs, |pass.seqs|)
    && Elements(pass.seqs) == Elements(b.sequences) && tops == Tops(b, pass.seqs) && PlansTop(pass.planned, tops)
    && (forall i | 0 <= i < |pass.planned| :: pass.planned[i] < MAX_INT32)
    && (Tidy(a, count) && Truthful(a, h, count) ==>
         Tidy(own, count) && Truthful(own, h', count) && PlansAbove(own, pass.seqs, pass.planned, count))
  }

  lemma PreparedWell(a: Store, h: History, b: Batch, st: Store, h': History, own: Store, pass: Pass, slots: seq<int>,
                     tops: seq<int>, policy: Policy, o: Kv.Outcome)
    requires b.Valid() && Begun(a, h, st, h', b, Kv.Outcome.Ok, pass, tops, policy)
    requires Privatized(st, own, pass.seqs, slots, pass.planned, o, h', policy.count)
    ensures Advanced(a, own, b.sequences, policy.count) && h' == Extended(h, own.slots.slotForSeq.Keys)
    ensures EnoughSlots(a, b) ==> o.Ok?
    ensures o.Ok? ==> Prepared(a, h, b, own, h', Recurrent.Pass(pass.seqs, slots, pass.planned), tops, policy.count)
  {
    assert |st.slots.slotForSeq| == |st.slots.slotForSeq.Keys|;
    BegunAdvances(a, h, st, h', b, Kv.Outcome.Ok, pass, tops, policy);
    PrivateAdvances(a, st, own, b.sequences, pass.seqs, slots, pass.planned, o, h', policy.count);
    PlansInRange(a, b, pass, policy);
  }

  /** Storing the tokens and getting slots to write to. */
  method Prepare(c: HybridCache, b: Batch) returns (o: Kv.Outcome)
    requires c.Valid() && b.Valid() && c.kv.memory == MAX_INT32
    modifies c, c.kv
    ensures c.Valid()
    ensures Kv.Fits(old(c.kv.cells), b, MAX_INT32) && Even(b.sequences) && EnoughSlots(old(c.store), b) ==> o.Ok?
    ensures o.Err? ==> Stepped(old(c.kv.cells), old(c.store), old(c.hist), b, c.kv.cells, c.store, c.hist,
                               !Kv.Fits(old(c.kv.cells), b, MAX_INT32))
    ensures o.Ok? ==> Kv.Fits(old(c.kv.cells), b, MAX_INT32) &&
                      Kv.Forwarded(old(c.kv.cells), b, MAX_INT32, true, c.kv.curLoc, c.kv.cells)
    ensures o.Ok? ==> Prepared(old(c.store), old(c.hist), b, c.store, c.hist, c.CurPass(), c.curTops, c.policy.count)
  {
    ghost var cells, a, h := c.kv.cells, c.store, c.hist;
    o := c.StartForward(b);
    ghost var loc, st, pass := c.kv.curLoc, c.store, c.CurPass();
    if o.Err? {
      if Kv.Fits(cells, b, MAX_INT32) {
        BegunAdvances(a, h, c.store, c.hist, b, o, pass, c.curTops, c.policy);
        HalfPasses(cells, a, h, b, loc, c.kv.cells, c.store, c.policy.count);
      } else {
        RefusedPass(cells, a, h, b, loc, c.kv.cells);
      }
      return;
    }
    o := c.EnsureWritable();
    PreparedWell(a, h, b, st, c.hist, c.store, pass, c.curSlots, c.curTops, c.policy, o);
    HalfPasses(cells, a, h, b, loc, c.kv.cells, c.store, c.policy.count);
  }

  /** A whole pass: KV cells and slots, copy on write, and the new states. Only a pass that fails between storing the
      tokens and writing the states leaves its sequences out of step. */
  method Pass(c: HybridCache, b: Batch, news: int -> int) returns (o: Kv.Outcome)
    requires c.Valid() && b.Valid() && c.kv.memory == MAX_INT32
    modifies c, c.kv
    ensures c.Valid()
    ensures Kv.Fits(old(c.kv.cells), b, MAX_INT32) && Even(b.sequences) && EnoughSlots(old(c.store), b) ==> o.Ok?
    ensures Stepped(old(c.kv.cells), old(c.store), old(c.hist), b, c.kv.cells, c.store, c.hist,
                    o.Ok? || !Kv.Fits(old(c.kv.cells), b, MAX_INT32))
    ensures o.Ok? && old(c.Faithful()) && AllContinue(old(c.kv.cells), old(c.store), old(c.hist), b) ==> c.Faithful()
  {
    ghost var cells, a, h := c.kv.cells, c.store, c.hist;
    o := Prepare(c, b);
    if o.Err? {
      return;
    }
    var seqs := c.curSeqs;
    var states := seq(|seqs|, i requires 0 <= i < |seqs| => news(seqs[i]));
    ghost var own, slots, planned := c.store, c.curSlots, c.curCheckpointPos;
    StepsAppend(cells, a, h, b, own.slots.slotForSeq.Keys, seqs);
    c.UpdateStates(states);
    PassDone(cells, a, h, b, c.kv.curLoc, c.kv.cells, own, c.store, seqs, slots, states, planned, c.policy.count);
  }

  /** Loading a prompt of which up to target tokens may be reused, as in HybridCache.Reuse. */
  method Resume(c: HybridCache, s: int, target: int) returns (keep: int)
    requires c.Valid() && 0 <= target < MAX_INT32
    modifies c, c.kv
    ensures c.Valid()
    ensures forall t | t != s :: Synced(c, t) <==> old(Synced(c, t))
    ensures old(c.Faithful()) ==> c.Faithful()
    ensures old(c.Faithful()) && Reached(old(c.kv.cells), old(c.hist), s, target) ==> Synced(c, s)
  {
    ghost var cells, a, h := c.kv.cells, c.store, c.hist;
    var o;
    keep, o := c.Reuse(s, target);
    RolledOthers(cells, a, h, c.kv.cells, c.store, c.hist, s, target, keep, c.policy.count);
    RolledIfReached(cells, a, h, c.kv.cells, c.store, c.hist, s, target, keep, c.policy.count);
  }

  lemma RolledIfReached(cells: seq<Cell>, a: Store, h: History, cells': seq<Cell>, b: Store, h': History, s: int,
                        target: int, keep: int, count: nat)
    requires Rolled(a, h, b, h', s, target, keep, Kv.Outcome.Ok, count) && NonNegative(cells) && 0 <= keep
    requires Positions(cells', s) == Views.Below(Positions(cells, s), keep)
    ensures Tidy(a, count) && Truthful(a, h, count) && Reached(cells, h, s, target) ==> InStep(cells', b, h', s)
  {
    if Tidy(a, count) && Truthful(a, h, count) && Reached(cells, h, s, target) {
      RolledInStep(cells, a, h, cells', b, h', s, target, keep, count);
    }
  }

  lemma RolledOthers(cells: seq<Cell>, a: Store, h: History, cells': seq<Cell>, b: Store, h': History, s: int,
                     target: int, keep: int, count: nat)
    requires Rolled(a, h, b, h', s, target, keep, Kv.Outcome.Ok, count) && Kv.OthersUntouched(cells, cells', s)
    ensures forall t | t != s :: InStep(cells', b, h', t) <==> InStep(cells, a, h, t)
  {
    assert h' - {s} == h - {s};
    OthersInStep(cells, a, h, cells', b, h', s, count);
  }

  /** Loading a prompt into dst of which src has the first len tokens. Between the two calls dst is out of step unless
      all of src was shared; after them it is in step, from a state that src had. */
  method Fork(c: HybridCache, src: int, dst: int, len: int, target: int) returns (keep: int)
    requires c.Valid() && 0 <= target < MAX_INT32 && target <= len
    modifies c, c.kv
    ensures c.Valid()
    ensures forall t | t != dst :: Synced(c, t) <==> old(Synced(c, t))
    ensures old(c.Faithful()) && old(Synced(c, src)) && !LeavesCheckpoints(old(c.store), dst, c.policy.count) ==>
      c.Faithful() && Synced(c, dst)
  {
    ghost var cells, a, h := c.kv.cells, c.store, c.hist;
    c.CopyPrefix(src, dst, len);
    SharedOthers(cells, a, h, src, dst, len, c.policy.count);
    if InStep(cells, a, h, src) {
      SharedInStep(cells, a, h, src, dst, len, c.policy.count);
    }
    keep := Resume(c, dst, target);
  }

  lemma SharedOthers(cells: seq<Cell>, st: Store, h: History, src: int, dst: int, len: int, count: nat)
    requires RecurrentStore.Ok(st, count)
    ensures forall t | t != dst ::
      InStep(Kv.SharedAll(cells, src, dst, len), SharedStore(st, src, dst), SharedPast(h, st, src, dst), t) <==>
      InStep(cells, st, h, t)
  {
    SharedKeeps(st, src, dst, count);
    OthersInStep(cells, st, h, Kv.SharedAll(cells, src, dst, len),
                 SharedStore(st, src, dst), SharedPast(h, st, src, dst), dst, count);
  }

  /** Making room in a full context: discard tokens after the first keep, or start over if that fails. A sequence with
      later tokens stays in step exactly if some are kept or it starts over: discarding from the start gives the
      state up and keeps the later positions. */
  method Shift(c: HybridCache, s: int, keep: int, discard: int, shiftErrors: set<int>) returns (o: Kv.Outcome)
    requires c.Valid() && 0 <= keep && 0 < discard && keep + discard < MAX_INT32
    modifies c, c.kv
    ensures c.Valid()
    ensures forall t | t != s :: Synced(c, t) <==> old(Synced(c, t))
    ensures old(c.Faithful()) ==> c.Faithful()
    ensures forall t | old(Synced(c, s)) && IsTop(Positions(old(c.kv.cells), s), t) && t >= keep + discard ::
      Synced(c, s) <==> keep > 0 || o.Err?
  {
    o := Discard(c, s, keep, keep + discard, shiftErrors);
    if o.Err? {
      Clear(c, s);
    }
  }

  method Discard(c: HybridCache, s: int, begin: int, end: int, shiftErrors: set<int>) returns (o: Kv.Outcome)
    requires c.Valid() && 0 <= begin <= end < MAX_INT32
    modifies c, c.kv
    ensures c.Valid()
    ensures forall t | t != s :: Synced(c, t) <==> old(Synced(c, t))
    ensures old(c.Faithful()) ==> c.Faithful()
    ensures forall t | o.Ok? && old(Synced(c, s)) && IsTop(Positions(old(c.kv.cells), s), t) && t >= end ::
      Synced(c, s) <==> begin > 0
  {
    ghost var cells, a, h := c.kv.cells, c.store, c.hist;
    o := c.Remove(s, begin, end, shiftErrors);
    CutOthers(cells, a, h, c.kv.cells, c.store, c.hist, s, begin, end, o, c.policy.count);
    CutInStep(cells, a, h, c.kv.cells, c.store, c.hist, s, begin, end, o, c.policy.count);
  }

  method Clear(c: HybridCache, s: int)
    requires c.Valid()
    modifies c, c.kv
    ensures c.Valid() && Synced(c, s)
    ensures forall t | t != s :: Synced(c, t) <==> old(Synced(c, t))
    ensures old(c.Faithful()) ==> c.Faithful()
  {
    ghost var cells, a, h := c.kv.cells, c.store, c.hist;
    var o := c.Remove(s, 0, MAX_INT32, {});
    ClearedInStep(cells, a, h, c.kv.cells, c.store, c.hist, s, c.policy.count);
  }

  ghost predicate Cut(a: Store, h: History, b: Store, h': History, s: int, begin: int, end: int, o: Kv.Outcome,
                      count: nat)
    requires begin <= end
  {
    if begin == 0 then StartCut(a, h, b, h', s, o, count) else MiddleCut(a, h, b, h', s, begin, end, o, count)
  }

  lemma CutOthers(cells: seq<Cell>, a: Store, h: History, cells': seq<Cell>, b: Store, h': History, s: int,
                  begin: int, end: int, o: Kv.Outcome, count: nat)
    requires begin <= end && Cut(a, h, b, h', s, begin, end, o, count) && Kv.OthersUntouched(cells, cells', s)
    ensures forall t | t != s :: InStep(cells', b, h', t) <==> InStep(cells, a, h, t)
  {
    OthersInStep(cells, a, h, cells', b, h', s, count);
  }

  lemma ClearedInStep(cells: seq<Cell>, a: Store, h: History, cells': seq<Cell>, b: Store, h': History, s: int,
                      count: nat)
    requires NonNegative(cells) && cells' == Kv.RemovedAll(cells, s, 0, MAX_INT32)
    requires Kv.OthersUntouched(cells, cells', s)
    requires StartCut(a, h, b, h', s, Kv.Outcome.Ok, count)
    ensures InStep(cells', b, h', s)
    ensures forall t | t != s :: InStep(cells', b, h', t) <==> InStep(cells, a, h, t)
  {
    StartCutInStep(cells, a, h, cells', b, h', s, MAX_INT32, count);
    CutOthers(cells, a, h, cells', b, h', s, 0, MAX_INT32, Kv.Outcome.Ok, count);
  }

  lemma CutInStep(cells: seq<Cell>, a: Store, h: History, cells': seq<Cell>, b: Store, h': History, s: int,
                  begin: int, end: int, o: Kv.Outcome, count: nat)
    requires NonNegative(cells) && 0 <= begin <= end < MAX_INT32 && Cut(a, h, b, h', s, begin, end, o, count)
    requires o.Ok? ==> cells' == Kv.RemovedAll(cells, s, begin, end)
    ensures forall t | o.Ok? && InStep(cells, a, h, s) && IsTop(Positions(cells, s), t) && t >= end ::
      InStep(cells', b, h', s) <==> begin > 0
  {
    forall t | o.Ok? && InStep(cells, a, h, s) && IsTop(Positions(cells, s), t) && t >= end
      ensures InStep(cells', b, h', s) <==> begin > 0
    {
      if begin == 0 {
        StartCutInStep(cells, a, h, cells', b, h', s, end, count);
      } else {
        MiddleCutInStep(cells, a, h, cells', b, h', s, t, begin, end, count);
      }
    }
  }

  /** Sequence 0 with two tokens and the state it had after the second. */
  function TwoTokens(): (seq<Cell>, Store, History) {
    ([Cell(0, {0}), Cell(1, {0})], Store(Slots.Slots(map[0 := 0], [1], []), [7], map[]), map[0 := map[1 := 7]])
  }

  lemma TwoTokensInStep()
    ensures var (cells, st, h) := TwoTokens();
            && RecurrentStore.Ok(st, 0) && NonNegative(cells) && InStep(cells, st, h, 0) && 1 in Positions(cells, 0)
  {
    var (cells, st, h) := TwoTokens();
    assert Slots.Users(st.slots.slotForSeq, 0) == {0};
    assert cells[0].Holds(0) && cells[1].Holds(0);
    assert Positions(cells, 0) == {0, 1} && IsTop({0, 1}, 1);
  }

  /** Discarding its first token leaves the other one, and no state. */
  lemma ShiftLosesState()
    ensures var (cells, st, h) := TwoTokens();
            var after := Kv.RemovedAll(cells, 0, 0, 1);
            && RecurrentStore.Ok(st, 0) && InStep(cells, st, h, 0)
            && 0 !in ReleasedStore(st, 0).slots.slotForSeq && Positions(after, 0) != {}
            && !InStep(after, ReleasedStore(st, 0), h - {0}, 0)
  {
    var (cells, st, h) := TwoTokens();
    TwoTokensInStep();
    StartCutHolds(st, h, 0, Kv.Outcome.Ok, 0);
    StartCutInStep(cells, st, h, Kv.RemovedAll(cells, 0, 0, 1), ReleasedStore(st, 0), h - {0}, 0, 1, 0);
  }
}
