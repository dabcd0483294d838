/** The search for a memory layout that a runner accepts. The runner is an adversary: it may answer
    every request as it likes, and layouts may depend on its answers in any way. */
module Load {
  import opened Prelude

  datatype Reply<M> = Failed | Answer(success: bool, memory: M)

  datatype Layout<L> = NoLayout | Layout(value: L)

  datatype Result<L> = Error | Loaded(layout: L)

  /** What the search runs against: the reply to each call on the runner, the layout for a memory, a backoff and a
      number of layers wanted (a negative one for as many as fit), its hash, and the number of its layers. */
  datatype World<!M(!new), !L(!new)> = World(
    replies: nat -> Reply<M>,
    layoutFor: (M, real, int) -> Layout<L>,
    hash: L -> int,
    sum: L -> nat)

  /** Hashes are 64-bit numbers. */
  const HASHES: int := 0x1_0000_0000_0000_0000

  const OPERATIONS: nat := 2

  lemma {:induction false} BoundedSet(s: set<int>, n: nat)
    requires forall x | x in s :: 0 <= x < n
    ensures |s| <= n
  {
    if n == 0 {
      assert forall x :: x !in s;
      assert s == {};
    } else {
      BoundedSet(s - {n - 1}, n - 1);
      assert s <= (s - {n - 1}) + {n - 1};
      assert |s| <= |(s - {n - 1}) + {n - 1}| by { SubsetSize(s, (s - {n - 1}) + {n - 1}); }
    }
  }

  /** Hashes not tried yet once the layout at hand is counted as tried. */
  ghost function Untried(past: set<int>, hash: int): int {
    HASHES - |past + {hash}|
  }

  lemma UntriedNatural(past: set<int>, hash: int)
    requires 0 <= hash < HASHES && Hashes(past)
    ensures Untried(past, hash) >= 0
  {
    BoundedSet(past + {hash}, HASHES);
  }

  ghost predicate Hashes(past: set<int>) {
    forall x | x in past :: 0 <= x < HASHES
  }

  ghost predicate BackedOff(steps: int, backoff: real) {
    0 <= steps <= 11 && backoff == steps as real * 0.1
  }

  ghost predicate Succeeded<M(!new), L(!new)>(w: World<M, L>, call: int) {
    call >= 0 && w.replies(call).Answer? && w.replies(call).success
  }

  ghost predicate Refused<M(!new), L(!new)>(w: World<M, L>, call: int) {
    call >= 0 && w.replies(call).Answer? && !w.replies(call).success
  }

  // ----- Exploring the numbers of layers in between -----

  /** How exploring intermediate numbers of layers ends. */
  datatype Exploration<L> = Aborted | Accepted(layout: L) | Rejected

  /** A layout of n layers can be made and is answered for by that call. */
  ghost predicate Tried<M(!new), L(!new)>(w: World<M, L>, memory: M, backoff: real, n: int, call: nat) {
    w.layoutFor(memory, backoff, n).Layout? && w.replies(call).Answer?
  }

  /** The runner takes the layout of n layers, and what it then says of its memory leaves room for as many. */
  ghost predicate Taken<M(!new), L(!new)>(w: World<M, L>, memory: M, backoff: real, n: int, call: nat) {
    && Tried(w, memory, backoff, n, call) && w.replies(call).success
    && var verify := w.layoutFor(w.replies(call).memory, backoff, -1);
       verify.Layout? && w.sum(w.layoutFor(memory, backoff, n).value) <= w.sum(verify.value)
  }

  /** It does not take it, or leaves room for fewer. */
  ghost predicate Passed<M(!new), L(!new)>(w: World<M, L>, memory: M, backoff: real, n: int, call: nat) {
    && Tried(w, memory, backoff, n, call)
    && (w.replies(call).success ==> w.layoutFor(w.replies(call).memory, backoff, -1).Layout?)
    && !Taken(w, memory, backoff, n, call)
  }

  /** From high down to above n, one call each from `first` on, none has been taken. */
  ghost predicate AllPassed<M(!new), L(!new)>(w: World<M, L>, memory: M, backoff: real, high: int, n: int, first: nat) {
    forall i | n < i <= high :: PassedInTurn(w, memory, backoff, high, i, first)
  }

  ghost predicate PassedInTurn<M(!new), L(!new)>(w: World<M, L>, memory: M, backoff: real, high: int,
                                              i: int, first: nat) {
    i <= high && Passed(w, memory, backoff, i, first + high - i)
  }

  /** A layout that was needed could not be made from the memory some call answered with, or the last call failed. */
  ghost predicate Stuck<M(!new), L(!new)>(w: World<M, L>, memory: M, calls: nat) {
    || (calls > 0 && w.replies(calls - 1).Failed?)
    || (exists b: real, n: int :: w.layoutFor(memory, b, n).NoLayout?)
    || exists c: nat, b: real, n: int :: c < calls && Unmade(w, c, b, n)
  }

  ghost predicate Unmade<M(!new), L(!new)>(w: World<M, L>, call: nat, backoff: real, n: int) {
    w.replies(call).Answer? && w.layoutFor(w.replies(call).memory, backoff, n).NoLayout?
  }

  /** Tries high, high - 1, ..., low layers until the runner takes one and laying out anew offers as many. */
  method Explore<M(!new), L(!new)>(w: World<M, L>, memory: M, backoff: real, high: int, low: int, first: nat)
    returns (e: Exploration<L>, calls: nat)
    requires low <= high
    ensures calls >= first
    ensures e.Accepted? ==> FoundAt(w, memory, backoff, high, low, first, calls, e.layout)
    ensures e.Rejected? ==> calls == first + high - low + 1 && AllPassed(w, memory, backoff, high, low - 1, first)
    ensures e.Aborted? ==> Stuck(w, memory, calls)
  {
    calls := first;
    var i := high;
    while i >= low
      invariant low - 1 <= i <= high && calls == first + high - i
      invariant AllPassed(w, memory, backoff, high, i, first)
    {
      var created := w.layoutFor(memory, backoff, i);
      if created.NoLayout? {
        return Aborted, calls;
      }
      var resp := w.replies(calls);
      calls := calls + 1;
      if resp.Failed? {
        return Aborted, calls;
      }
      if resp.success {
        var verify := w.layoutFor(resp.memory, backoff, -1);
        if verify.NoLayout? {
          assert Unmade(w, calls - 1, backoff, -1);
          return Aborted, calls;
        }
        if w.sum(created.value) <= w.sum(verify.value) {
          assert Taken(w, memory, backoff, i, calls - 1);
          return Accepted(created.value), calls;
        }
      }
      i := i - 1;
    }
    e := Rejected;
  }

  /** The greatest number of layers from high down to low that is taken, by the last call. */
  ghost predicate FoundAt<M(!new), L(!new)>(w: World<M, L>, memory: M, backoff: real, high: int, low: int, first: nat,
                                            calls: nat, layout: L) {
    && first < calls <= first + high - low + 1
    && var n := high - (calls - 1 - first);
       && w.layoutFor(memory, backoff, n) == Layout(layout) && Taken(w, memory, backoff, n, calls - 1)
       && AllPassed(w, memory, backoff, high, n, first)
  }

  // ----- What to do after an answer -----

  /** Try another layout, move on with one, or give up. */
  datatype Next<L> = Retry(layout: L) | Settled(layout: L, cleared: bool) | GiveUp

  /** The layout offered is new and has no more layers than the one at hand. */
  ghost predicate Better<M(!new), L(!new)>(w: World<M, L>, layout: L, past: set<int>, offered: L) {
    w.hash(offered) !in past && w.sum(offered) <= w.sum(layout)
  }

  /** The layout offered has so many more layers than the one at hand that there are numbers in between. */
  ghost predicate Gap<M(!new), L(!new)>(w: World<M, L>, layout: L, want: int, offered: L) {
    want < 0 && w.sum(offered) - w.sum(layout) > 1
  }

  /** With this backoff, what the memory offers is not better; and if that leaves a gap, one call for each number in
      between, and for the one at hand, has passed it. */
  ghost predicate Converged<M(!new), L(!new)>(w: World<M, L>, memory: M, layout: L, past: set<int>, want: int,
                                              backoff: real, before: nat, calls: nat) {
    && w.layoutFor(memory, backoff, want).Layout?
    && var offered := w.layoutFor(memory, backoff, want).value;
       && !Better(w, layout, past, offered)
       && if !Gap(w, layout, want, offered) then calls == before
          else
            && calls == before + w.sum(offered) - w.sum(layout)
            && AllPassed(w, memory, backoff, w.sum(offered) - 1, w.sum(layout) - 1, before)
  }

  /** A number of layers in between is taken. */
  ghost predicate Widened<M(!new), L(!new)>(w: World<M, L>, memory: M, layout: L, past: set<int>, want: int,
                                            backoff: real, before: nat, calls: nat, found: L) {
    && w.layoutFor(memory, backoff, want).Layout?
    && var offered := w.layoutFor(memory, backoff, want).value;
       && !Better(w, layout, past, offered) && Gap(w, layout, want, offered)
       && FoundAt(w, memory, backoff, w.sum(offered) - 1, w.sum(layout), before, calls, found)
  }

  function Backoff(steps: int): real {
    steps as real * 0.1
  }

  /** With each backoff before the last, nothing better is offered and the runner has refused what it was asked for
      last; marks are the calls made when each was begun. */
  ghost predicate BackedUp<M(!new), L(!new)>(w: World<M, L>, memory: M, layout: L, past: set<int>, want: int,
                                             start: int, before: nat, marks: seq<nat>) {
    && marks != [] && marks[0] == before
    && forall k | 0 <= k < |marks| - 1 ::
         RefusedWith(w, memory, layout, past, want, Backoff(start + k), marks[k], marks[k + 1])
  }

  /** With nothing requested, and the backoff not used up, the runner has refused. */
  ghost predicate RefusedWith<M(!new), L(!new)>(w: World<M, L>, memory: M, layout: L, past: set<int>, want: int,
                                                backoff: real, before: nat, calls: nat) {
    && want < 0 && backoff <= 1.0
    && Converged(w, memory, layout, past, want, backoff, before, calls) && Refused(w, calls - 1)
  }

  /** What is decided, with the last backoff, after an answer with this memory for the layout at hand. */
  ghost predicate Decided<M(!new), L(!new)>(w: World<M, L>, memory: M, layout: L, past: set<int>, want: int,
                                            backoff: real, before: nat, next: Next<L>, calls: nat) {
    match next
    case Retry(offered) =>
      calls == before && w.layoutFor(memory, backoff, want) == Layout(offered) && Better(w, layout, past, offered)
    case Settled(found, false) =>
      && found == layout && Converged(w, memory, layout, past, want, backoff, before, calls)
      && Succeeded(w, calls - 1)
    case Settled(found, true) => Widened(w, memory, layout, past, want, backoff, before, calls, found)
    case GiveUp =>
      || (before <= calls && Stuck(w, memory, calls))
      || (&& Converged(w, memory, layout, past, want, backoff, before, calls) && Refused(w, calls - 1)
          && (want >= 0 || backoff > 1.0))
  }

  /** What was decided after that call, which asked for the layout. */
  ghost predicate DecidedAfter<M(!new), L(!new)>(w: World<M, L>, want: int, layout: L, past: set<int>, call: nat,
                                                 count: nat, marks: seq<nat>, next: Next<L>, calls: nat) {
    && w.replies(call).Answer? && marks != []
    && BackedUp(w, w.replies(call).memory, layout, past, want, count, call + 1, marks)
    && Decided(w, w.replies(call).memory, layout, past, want, Backoff(count + |marks| - 1),
               marks[|marks| - 1], next, calls)
  }

  /** The decision with one backoff; None means that the runner has refused and a larger one is to be tried. */
  method Decide<M(!new), L(!new)>(w: World<M, L>, memory: M, layout: L, past: set<int>, want: int,
                                  backoff: real, before: nat)
    returns (next: Option<Next<L>>, calls: nat)
    requires before > 0 && w.replies(before - 1).Answer?
    ensures next.Some? ==> Decided(w, memory, layout, past, want, backoff, before, next.value, calls)
    ensures next.None? ==> RefusedWith(w, memory, layout, past, want, backoff, before, calls)
    ensures next.None? ==> calls > 0
  {
    calls := before;
    var success := w.replies(before - 1).success;
    var created := w.layoutFor(memory, backoff, want);
    if created.NoLayout? {
      return Some(GiveUp), calls;
    }
    var newLayout := created.value;
    if w.hash(newLayout) !in past && w.sum(newLayout) <= w.sum(layout) {
      return Some(Retry(newLayout)), calls;
    }
    if want < 0 && w.sum(newLayout) - w.sum(layout) > 1 {
      var step;
      step, calls := Explore(w, memory, backoff, w.sum(newLayout) - 1, w.sum(layout), calls);
      match step
      case Aborted =>
        return Some(GiveUp), calls;
      case Accepted(found) =>
        return Some(Settled(found, true)), calls;
      case Rejected =>
        assert PassedInTurn(w, memory, backoff, w.sum(newLayout) - 1, w.sum(layout), before);
        success := w.replies(calls - 1).success;
    }
    if success {
      return Some(Settled(layout, false)), calls;
    }
    if want >= 0 || backoff > 1.0 {
      return Some(GiveUp), calls;
    }
    next := None;
  }

  /** Decides what to do after an answer for a layout: try a new layout that does not place more layers; explore
      the numbers of layers in between; move on after a success; or back off and lay out again, up to a limit. */
  method Settle<M(!new), L(!new)>(w: World<M, L>, want: int, answer: Reply<M>, layout: L, past: set<int>, call: nat,
                                  start: real, ghost count: nat)
    returns (next: Next<L>, calls: nat, backoff: real, ghost steps: nat, ghost marks: seq<nat>)
    requires BackedOff(count, start)
    requires w.replies(call) == answer && answer.Answer?
    ensures BackedOff(steps, backoff) && steps == count + |marks| - 1
    ensures DecidedAfter(w, want, layout, past, call, count, marks, next, calls)
    ensures next.Retry? ==> w.hash(next.layout) !in past
  {
    calls, backoff, steps, marks := call + 1, start, count, [call + 1];
    var memory := answer.memory;
    while true
      invariant BackedOff(steps, backoff) && steps == count + |marks| - 1
      invariant BackedUp(w, memory, layout, past, want, count, call + 1, marks) && marks[|marks| - 1] == calls
      invariant calls > 0 && w.replies(calls - 1).Answer?
      decreases 11 - steps
    {
      var decided;
      decided, calls := Decide(w, memory, layout, past, want, backoff, calls);
      if decided.Some? {
        next := decided.value;
        return;
      }
      assert RefusedWith(w, memory, layout, past, want, Backoff(count + (|marks| - 1)), marks[|marks| - 1], calls);
      marks := marks + [calls];
      backoff := backoff + 0.1;
      steps := steps + 1;
    }
  }

  lemma {:induction false} MarksGrow<M(!new), L(!new)>(w: World<M, L>, memory: M, layout: L, past: set<int>, want: int,
                                                       start: int, before: nat, marks: seq<nat>, k: nat)
    requires BackedUp(w, memory, layout, past, want, start, before, marks) && k < |marks|
    ensures before <= marks[k]
  {
    if k > 0 {
      MarksGrow(w, memory, layout, past, want, start, before, marks, k - 1);
      assert RefusedWith(w, memory, layout, past, want, Backoff(start + (k - 1)), marks[k - 1], marks[k - 1 + 1]);
    }
  }

  // ----- The search -----

  /** One layout the runner is asked for, and what is decided after its answer. */
  datatype Turn<L> = Turn(operation: nat, layout: L, past: set<int>, call: nat, steps: nat, marks: seq<nat>,
                          next: Next<L>,
                          calls: nat)

  ghost predicate TurnTaken<M(!new), L(!new)>(w: World<M, L>, want: int, t: Turn<L>) {
    DecidedAfter(w, want, t.layout, t.past + {w.hash(t.layout)}, t.call, t.steps, t.marks, t.next, t.calls)
  }

  /** What follows on a turn: the operation, the layout to be asked for, the hashes counted as tried, the calls made and
      the backoff steps taken. */
  ghost predicate Leaves<M(!new), L(!new)>(w: World<M, L>, t: Turn<L>, operation: nat, layout: L, past: set<int>,
                                           calls: nat, steps: nat) {
    && calls == t.calls && steps == t.steps + |t.marks| - 1
    && match t.next
       case Retry(better) => operation == t.operation && layout == better && past == t.past + {w.hash(t.layout)}
       case Settled(found, cleared) =>
         operation == t.operation + 1 && layout == found && past == if cleared then {} else t.past + {w.hash(t.layout)}
       case GiveUp => false
  }

  /** The same after all turns of a log, or at the beginning. */
  ghost predicate NextTurn<M(!new), L(!new)>(w: World<M, L>, initial: M, want: int, log: seq<Turn<L>>, operation: nat,
                                             layout: L, past: set<int>, calls: nat, steps: nat) {
    if log != [] then Leaves(w, log[|log| - 1], operation, layout, past, calls, steps)
    else
      w.layoutFor(initial, 0.0, want) == Layout(layout) && operation == 0 && past == {} && calls == 0 && steps == 0
  }

  ghost predicate Follows<M(!new), L(!new)>(w: World<M, L>, initial: M, want: int, log: seq<Turn<L>>, t: Turn<L>) {
    NextTurn(w, initial, want, log, t.operation, t.layout, t.past, t.call, t.steps)
  }

  /** The turns of a search, in order. */
  ghost predicate Turns<M(!new), L(!new)>(w: World<M, L>, initial: M, want: int, log: seq<Turn<L>>) {
    log == [] ||
    var before, t := log[..|log| - 1], log[|log| - 1];
    Turns(w, initial, want, before) && Follows(w, initial, want, before, t) && TurnTaken(w, want, t)
  }

  /** The last turn ends the last operation before the commit: allocating, after fitting. */
  ghost predicate Ready<L>(log: seq<Turn<L>>) {
    log != [] && log[|log| - 1].operation == 1 && log[|log| - 1].next.Settled?
  }

  /** Why a search ends without a layout: there is none to begin with, a call failed, it gave up on a turn, or
      the runner
      refused to commit. */
  ghost predicate Fails<M(!new), L(!new)>(w: World<M, L>, initial: M, want: int, log: seq<Turn<L>>, calls: nat) {
    || (log == [] && calls == 0 && w.layoutFor(initial, 0.0, want).NoLayout?)
    || (calls > 0 && w.replies(calls - 1).Failed?)
    || (log != [] && log[|log| - 1].next.GiveUp? && calls == log[|log| - 1].calls)
    || (Ready(log) && calls == log[|log| - 1].calls + 1 && Refused(w, calls - 1))
  }

  /** The turns so far, and what is to be asked for next. */
  ghost predicate State<M(!new), L(!new)>(w: World<M, L>, initial: M, want: int, log: seq<Turn<L>>, operation: nat,
                                          layout: L, past: set<int>, calls: nat, backoff: real, steps: nat) {
    && Hashes(past) && BackedOff(steps, backoff) && Turns(w, initial, want, log)
    && NextTurn(w, initial, want, log, operation, layout, past, calls, steps)
  }

  /** What the turn just taken leaves. */
  ghost predicate Left<M(!new), L(!new)>(w: World<M, L>, initial: M, want: int, log: seq<Turn<L>>, operation: nat,
                                         past: set<int>, next: Next<L>, calls: nat, backoff: real, steps: nat) {
    match next
    case Retry(layout) =>
      State(w, initial, want, log, operation, layout, past, calls, backoff, steps) && w.hash(layout) !in past
    case Settled(layout, cleared) =>
      && State(w, initial, want, log, operation + 1, layout, if cleared then {} else past, calls, backoff, steps)
      && Over(log, operation, layout, calls)
    case GiveUp => Turns(w, initial, want, log) && Fails(w, initial, want, log, calls)
  }

  lemma AddTurn<M(!new), L(!new)>(w: World<M, L>, initial: M, want: int, log: seq<Turn<L>>, t: Turn<L>, backoff: real)
    returns (longer: seq<Turn<L>>)
    requires Turns(w, initial, want, log) && TurnTaken(w, want, t) && Follows(w, initial, want, log, t)
    requires t.marks != [] && (t.next.Retry? ==> w.hash(t.next.layout) !in t.past + {w.hash(t.layout)})
    requires Hashes(t.past + {w.hash(t.layout)}) && BackedOff(t.steps + |t.marks| - 1, backoff)
    ensures Left(w, initial, want, longer, t.operation, t.past + {w.hash(t.layout)}, t.next, t.calls, backoff,
                 t.steps + |t.marks| - 1)
  {
    longer := log + [t];
    assert longer[..|log|] == log;
  }

  /** One turn: the runner is asked for a layout, and what to do next is decided, unless the call failed. */
  method TakeTurn<M(!new), L(!new)>(w: World<M, L>, ghost initial: M, want: int, ghost log: seq<Turn<L>>,
                                    ghost operation: nat, layout: L, past: set<int>, call: nat,
                                    start: real, ghost count: nat)
    returns (next: Option<Next<L>>, calls: nat, backoff: real, ghost steps: nat, ghost log': seq<Turn<L>>)
    requires 0 <= w.hash(layout) < HASHES
    requires State(w, initial, want, log, operation, layout, past, call, start, count)
    ensures next.None? ==> Turns(w, initial, want, log') && Fails(w, initial, want, log', calls)
    ensures next.Some? ==>
      Left(w, initial, want, log', operation, past + {w.hash(layout)}, next.value, calls, backoff, steps)
  {
    calls, backoff, steps, log' := call + 1, start, count, log;
    var resp := w.replies(call);
    if resp.Failed? {
      return None, calls, backoff, steps, log';
    }
    var decided;
    ghost var marks;
    decided, calls, backoff, steps, marks :=
      Settle(w, want, resp, layout, past + {w.hash(layout)}, call, backoff, steps);
    next := Some(decided);
    log' := AddTurn(w, initial, want, log, Turn(operation, layout, past, call, count, marks, decided, calls), backoff);
  }

  /** One operation: layouts are asked for until one is to be moved on with. */
  method Operate<M(!new), L(==, !new)>(w: World<M, L>, ghost initial: M, want: int, ghost log: seq<Turn<L>>,
                                       ghost operation: nat, first: L, tried: set<int>, call: nat,
                                       start: real, ghost count: nat)
    returns (done: bool, layout: L, past: set<int>, calls: nat, backoff: real,
             ghost steps: nat, ghost log': seq<Turn<L>>)
    requires forall l: L :: 0 <= w.hash(l) < HASHES
    requires State(w, initial, want, log, operation, first, tried, call, start, count)
    ensures done ==> State(w, initial, want, log', operation + 1, layout, past, calls, backoff, steps)
    ensures done ==> Over(log', operation, layout, calls)
    ensures !done ==> Turns(w, initial, want, log') && Fails(w, initial, want, log', calls)
  {
    layout, past, calls, backoff, steps, log' := first, tried, call, start, count, log;
    while true
      invariant State(w, initial, want, log', operation, layout, past, calls, backoff, steps)
      decreases Untried(past, w.hash(layout))
    {
      UntriedNatural(past, w.hash(layout));
      var next;
      next, calls, backoff, steps, log' :=
        TakeTurn(w, initial, want, log', operation, layout, past, calls, backoff, steps);
      past := past + {w.hash(layout)};
      if next.None? || next.value.GiveUp? {
        done := false;
        return;
      }
      layout := next.value.layout;
      if next.value.Settled? {
        if next.value.cleared {
          past := {};
        }
        done := true;
        return;
      }
    }
  }

  /** Fit, allocate, then commit. For every sequence of replies the search ends: each operation is left for the
      next, or a layout with a new hash is tried, or the backoff grows towards its limit. */
  method Search<M(!new), L(==, !new)>(w: World<M, L>, initial: M, requested: int)
    returns (r: Result<L>, calls: nat, ghost log: seq<Turn<L>>)
    requires forall l: L :: 0 <= w.hash(l) < HASHES
    ensures Turns(w, initial, Max(requested, -1), log)
    ensures r.Loaded? ==> calls > 0 && Over(log, 1, r.layout, calls - 1) && Succeeded(w, calls - 1)
    ensures r.Error? ==> Fails(w, initial, Max(requested, -1), log, calls)
  {
    calls, log := 0, [];
    var want := Max(requested, -1);
    var past: set<int> := {};
    var backoff := 0.0;
    ghost var steps: nat := 0;
    var first := w.layoutFor(initial, backoff, want);
    if first.NoLayout? {
      return Error, calls, log;
    }
    var layout := first.value;
    for operation := 0 to OPERATIONS
      invariant State(w, initial, want, log, operation, layout, past, calls, backoff, steps)
      invariant operation > 0 ==> Over(log, operation - 1, layout, calls)
    {
      var done;
      done, layout, past, calls, backoff, steps, log :=
        Operate(w, initial, want, log, operation, layout, past, calls, backoff, steps);
      if !done {
        return Error, calls, log;
      }
    }
    var resp := w.replies(calls);
    calls := calls + 1;
    if resp.Failed? || !resp.success {
      return Error, calls, log;
    }
    r := Loaded(layout);
  }

  /** The last turn has ended the operation with that layout. */
  ghost predicate Over<L>(log: seq<Turn<L>>, operation: int, layout: L, calls: nat) {
    && log != [] && log[|log| - 1].operation == operation && log[|log| - 1].next.Settled?
    && layout == log[|log| - 1].next.layout && calls == log[|log| - 1].calls
  }

  // ----- What the end of a search means -----

  /** The runner's last answer before the commit was a success: for the layout committed, or for one explored for as
      many layers; with a requested number of layers always for the one committed. */
  lemma CommitStands<M(!new), L(!new)>(w: World<M, L>, initial: M, want: int, log: seq<Turn<L>>)
    requires Turns(w, initial, want, log) && Ready(log)
    ensures var t := log[|log| - 1];
            && Succeeded(w, t.calls - 1)
            && (|| (t.calls - 1 == t.call && t.next.layout == t.layout)
                || (want < 0 && exists b: real, n: int :: StandsFor(w, w.replies(t.call).memory, b, n, t.next.layout)))
  {
    var t := log[|log| - 1];
    assert TurnTaken(w, want, t);
    var memory, past, last := w.replies(t.call).memory, t.past + {w.hash(t.layout)}, |t.marks| - 1;
    var b := Backoff(t.steps + last);
    LastRefused(w, memory, t.layout, past, want, t.steps, t.call + 1, t.marks);
    if t.next.cleared {
      var high := w.sum(w.layoutFor(memory, b, want).value) - 1;
      assert StandsFor(w, memory, b, high - (t.calls - 1 - t.marks[last]), t.next.layout);
    } else {
      var offered := w.layoutFor(memory, b, want).value;
      if Gap(w, t.layout, want, offered) {
        assert PassedInTurn(w, memory, b, w.sum(offered) - 1, w.sum(t.layout), t.marks[last]);
        assert StandsFor(w, memory, b, w.sum(t.layout), t.layout);
      }
    }
  }

  lemma LastRefused<M(!new), L(!new)>(w: World<M, L>, memory: M, layout: L, past: set<int>, want: int, start: int,
                                      before: nat, marks: seq<nat>)
    requires BackedUp(w, memory, layout, past, want, start, before, marks)
    ensures var calls: int := marks[|marks| - 1]; |marks| > 1 ==> Refused(w, calls - 1)
  {
    var k := |marks| - 2;
    if k >= 0 {
      assert RefusedWith(w, memory, layout, past, want, Backoff(start + k), marks[k], marks[k + 1]);
    }
  }

  /** The layout is the one for n layers, or has n layers. */
  ghost predicate StandsFor<M(!new), L(!new)>(w: World<M, L>, memory: M, backoff: real, n: int, layout: L) {
    var made := w.layoutFor(memory, backoff, n);
    made.Layout? && (made.value == layout || n == w.sum(layout))
  }

  /** A search fails only if some layout could not be made, if a call failed, or if the runner refused last: to commit,
      or
      with a requested number of layers, or with the backoff used up. */
  lemma FailureExcused<M(!new), L(!new)>(w: World<M, L>, initial: M, want: int, log: seq<Turn<L>>, calls: nat)
    requires Turns(w, initial, want, log) && Fails(w, initial, want, log, calls)
    ensures || w.layoutFor(initial, 0.0, want).NoLayout?
            || (exists c: nat, b: real, n: int :: c < calls && Unmade(w, c, b, n))
            || (calls > 0 && w.replies(calls - 1).Failed?)
            || (Refused(w, calls - 1) && (Ready(log) || want >= 0 || BackoffUsedUp(log)))
  {
    if log != [] && log[|log| - 1].next.GiveUp? {
      var t := log[|log| - 1];
      assert TurnTaken(w, want, t);
      GivenUp(w, want, t);
    }
  }

  ghost predicate BackoffUsedUp<L>(log: seq<Turn<L>>) {
    log != [] && var t := log[|log| - 1]; t.marks != [] && Backoff(t.steps + |t.marks| - 1) > 1.0
  }

  lemma GivenUp<M(!new), L(!new)>(w: World<M, L>, want: int, t: Turn<L>)
    requires TurnTaken(w, want, t) && t.next.GiveUp?
    ensures || (t.calls > 0 && w.replies(t.calls - 1).Failed?)
            || (exists c: nat, b: real, n: int :: c < t.calls && Unmade(w, c, b, n))
            || (Refused(w, t.calls - 1) && (want >= 0 || BackoffUsedUp([t])))
  {
    var memory := w.replies(t.call).memory;
    MarksGrow(w, memory, t.layout, t.past + {w.hash(t.layout)}, want, t.steps, t.call + 1, t.marks, |t.marks| - 1);
    if b: real, n: int :| w.layoutFor(memory, b, n).NoLayout? {
      assert Unmade(w, t.call, b, n);
    }
  }

  /** So if the runner takes everything and every layout can be made, the search loads. */
  lemma WillingRunnerLoads<M(!new), L(!new)>(w: World<M, L>, initial: M, want: int, log: seq<Turn<L>>, calls: nat)
    requires Turns(w, initial, want, log)
    requires forall c: nat :: Succeeded(w, c)
    requires forall m: M, b: real, n: int :: w.layoutFor(m, b, n).Layout?
    ensures !Fails(w, initial, want, log, calls)
  {
    assert calls > 0 ==> Succeeded(w, calls - 1);
    if Fails(w, initial, want, log, calls) {
      FailureExcused(w, initial, want, log, calls);
    }
  }
}
