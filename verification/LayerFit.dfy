/** Placing model layers on GPUs: greedy packing, the search for the smallest capacity factor, and
    the choice of how many GPUs to use. */
module LayerFit {
  import opened Prelude

  /** The layers one GPU receives, by index. */
  datatype GpuLayers = GpuLayers(device: nat, layers: seq<int>)

  function Sum(list: seq<GpuLayers>): nat {
    if list == [] then 0 else |list[0].layers| + Sum(list[1..])
  }

  /** Bytes of layers lo .. hi - 1. */
  function Bytes(layers: seq<nat>, lo: int, hi: int): nat
    requires 0 <= lo && hi <= |layers|
    decreases hi - lo
  {
    if lo >= hi then 0 else Bytes(layers, lo + 1, hi) + layers[lo]
  }

  lemma {:induction false} BytesSplit(layers: seq<nat>, lo: int, mid: int, hi: int)
    requires 0 <= lo <= mid <= hi <= |layers|
    ensures Bytes(layers, lo, hi) == Bytes(layers, lo, mid) + Bytes(layers, mid, hi)
    decreases mid - lo
  {
    if lo < mid {
      BytesSplit(layers, lo + 1, mid, hi);
    }
  }

  // ----- What greedy packing reaches -----

  /** The lowest layer index reached from layer i down, with room left on the current device and the
      devices below it still empty; floor is where the request is fulfilled. */
  function Reach(layers: seq<nat>, room: seq<nat>, device: nat, left: nat, i: nat, floor: nat): (r: nat)
    requires device < |room| && floor <= i <= |layers|
    ensures floor <= r <= i
    decreases device + i
  {
    if i == floor then i
    else if layers[i - 1] <= left then Reach(layers, room, device, left - layers[i - 1], i - 1, floor)
    else if device == 0 then i
    else Reach(layers, room, device - 1, room[device - 1], i, floor)
  }

  function Floor(n: nat, requested: int): nat {
    if 0 <= requested <= n then n - requested else 0
  }

  /** How many layers greedy packing places. */
  function Count(layers: seq<nat>, room: seq<nat>, requested: int): (r: nat)
    requires room != []
    ensures r <= |layers|
    ensures requested >= 0 ==> r <= requested
  {
    |layers| - Reach(layers, room, |room| - 1, room[|room| - 1], |layers|, Floor(|layers|, requested))
  }

  // ----- Any other in-order assignment -----

  /** Cut points of an in-order contiguous assignment: device d takes layers cut[d] .. cut[d + 1] - 1,
      the last device ends at the last layer, every device has room for its share, and no more
      layers than requested are placed. */
  ghost predicate Feasible(layers: seq<nat>, room: seq<nat>, requested: int, cut: seq<int>) {
    && |cut| == |room| + 1 && cut[|room|] == |layers|
    && (forall d | 0 <= d < |room| :: ShareFits(layers, room, cut, d))
    && (room != [] && requested >= 0 ==> |layers| - cut[0] <= requested)
  }

  ghost predicate ShareFits(layers: seq<nat>, room: seq<nat>, cut: seq<int>, d: nat)
    requires d < |room| && d + 1 < |cut|
  {
    0 <= cut[d] <= cut[d + 1] <= |layers| && Bytes(layers, cut[d], cut[d + 1]) <= room[d]
  }

  lemma {:induction false} CutBelow(layers: seq<nat>, room: seq<nat>, requested: int, cut: seq<int>, d: nat)
    requires Feasible(layers, room, requested, cut) && d <= |room|
    ensures 0 <= cut[0] <= cut[d] <= |layers|
  {
    if d > 0 {
      CutBelow(layers, room, requested, cut, d - 1);
      assert ShareFits(layers, room, cut, d - 1);
    } else if room != [] {
      assert ShareFits(layers, room, cut, 0);
    }
  }

  /** Greedy packing is never behind: from a state at least as far as a feasible assignment, it ends
      at least as far. */
  lemma {:induction false} ReachAhead(layers: seq<nat>, room: seq<nat>, requested: int, cut: seq<int>,
                                      device: nat, left: nat, i: nat, floor: nat)
    requires Feasible(layers, room, requested, cut) && device < |room| && floor <= i <= |layers|
    requires floor <= cut[0] && i <= cut[device + 1]
    requires 0 <= cut[device] <= i ==> Bytes(layers, cut[device], i) <= left
    ensures Reach(layers, room, device, left, i, floor) <= cut[0]
    decreases device + i
  {
    assert ShareFits(layers, room, cut, device);
    if i > floor {
      CutBelow(layers, room, requested, cut, device);
      if cut[device] <= i - 1 {
        BytesSplit(layers, cut[device], i - 1, i);
      }
      if layers[i - 1] <= left {
        ReachAhead(layers, room, requested, cut, device, left - layers[i - 1], i - 1, floor);
      } else if device > 0 {
        assert ShareFits(layers, room, cut, device - 1);
        if cut[device - 1] <= i {
          BytesSplit(layers, cut[device - 1], i, cut[device]);
        }
        ReachAhead(layers, room, requested, cut, device - 1, room[device - 1], i, floor);
      }
    }
  }

  /** Greedy packing is optimal: no in-order contiguous assignment places more layers. */
  lemma GreedyOptimal(layers: seq<nat>, room: seq<nat>, requested: int, cut: seq<int>)
    requires room != [] && Feasible(layers, room, requested, cut)
    ensures |layers| - cut[0] <= Count(layers, room, requested)
  {
    var d := |room| - 1;
    CutBelow(layers, room, requested, cut, d);
    assert ShareFits(layers, room, cut, d);
    ReachAhead(layers, room, requested, cut, d, room[d], |layers|, Floor(|layers|, requested));
  }

  // ----- Greedy packing attains its count -----

  /** Cut points down from device, given that the current device has taken layers i .. top - 1. */
  lemma {:induction false} ReachFeasible(layers: seq<nat>, room: seq<nat>, device: nat, left: nat, i: nat, top: nat,
                                         floor: nat)
    returns (cut: seq<int>)
    requires device < |room| && floor <= i <= top <= |layers|
    requires Bytes(layers, i, top) + left == room[device]
    ensures |cut| == device + 2 && cut[device + 1] == top
    ensures cut[0] == Reach(layers, room, device, left, i, floor)
    ensures forall d | 0 <= d <= device :: ShareFits(layers, room, cut, d)
    decreases device + i
  {
    if i > floor && layers[i - 1] <= left {
      BytesSplit(layers, i - 1, i, top);
      cut := ReachFeasible(layers, room, device, left - layers[i - 1], i - 1, top, floor);
    } else if i > floor && device > 0 {
      var below := ReachFeasible(layers, room, device - 1, room[device - 1], i, i, floor);
      cut := below + [top];
      forall d | 0 <= d <= device
        ensures ShareFits(layers, room, cut, d)
      {
        assert d < device ==> ShareFits(layers, room, below, d);
      }
    } else {
      cut := seq(device + 1, _ => i) + [top];
    }
  }

  lemma GreedyFeasible(layers: seq<nat>, room: seq<nat>, requested: int) returns (cut: seq<int>)
    requires room != []
    ensures Feasible(layers, room, requested, cut) && |layers| - cut[0] == Count(layers, room, requested)
  {
    var d, n := |room| - 1, |layers|;
    cut := ReachFeasible(layers, room, d, room[d], n, n, Floor(n, requested));
  }

  /** More room never places fewer layers. */
  lemma CountMonotone(layers: seq<nat>, room: seq<nat>, more: seq<nat>, requested: int)
    requires room != [] && |room| == |more| && forall d | 0 <= d < |room| :: room[d] <= more[d]
    ensures Count(layers, room, requested) <= Count(layers, more, requested)
  {
    var cut := GreedyFeasible(layers, room, requested);
    forall d | 0 <= d < |more|
      ensures ShareFits(layers, more, cut, d)
    {
      assert ShareFits(layers, room, cut, d);
    }
    GreedyOptimal(layers, more, requested, cut);
  }

  // ----- The packing itself -----

  function Range(lo: int, hi: int): seq<int>
    decreases hi - lo
  {
    if lo >= hi then [] else [lo] + Range(lo + 1, hi)
  }

  /** Entry j of the list holds exactly layers starts[j] .. starts[j + 1] - 1, on a device with room for them. */
  ghost predicate EntryFits(layers: seq<nat>, room: seq<nat>, list: seq<GpuLayers>, starts: seq<int>, j: nat)
    requires j < |list| && |starts| == |list| + 1
  {
    && 0 <= starts[j] <= starts[j + 1] <= |layers|
    && list[j].layers == Range(starts[j], starts[j + 1])
    && |list| <= |room| && list[j].device == |room| - |list| + j
    && Bytes(layers, starts[j], starts[j + 1]) <= room[list[j].device]
  }

  /** The list gives the top layers, in order and without gaps, to the last devices. */
  ghost predicate Packing(layers: seq<nat>, room: seq<nat>, list: seq<GpuLayers>, starts: seq<int>) {
    && |starts| == |list| + 1 && starts[|list|] == |layers|
    && forall j | 0 <= j < |list| :: EntryFits(layers, room, list, starts, j)
  }

  /** Assigns layers from the last one down, moving to the next GPU whenever one does not fit. */
  method GreedyFit(layers: seq<nat>, room: seq<nat>, requested: int)
    returns (list: seq<GpuLayers>, ghost starts: seq<int>)
    requires room != []
    ensures Packing(layers, room, list, starts)
    ensures Sum(list) == Count(layers, room, requested)
    ensures Sum(list) == |layers| - starts[0]
  {
    var n := |layers|;
    var device := |room| - 1;
    var left, i := room[device], n;
    list := [GpuLayers(device, [])];
    starts := [n, n];
    ghost var floor := Floor(n, requested);
    while i > 0 && !(requested >= 0 && n - i >= requested)
      invariant floor <= i <= n && device < |room| && |list| == |room| - device
      invariant Packing(layers, room, list, starts) && starts[0] == i && Sum(list) == n - i
      invariant i <= starts[1] <= n && list[0].device == device
      invariant Bytes(layers, i, starts[1]) + left == room[device]
      invariant Reach(layers, room, device, left, i, floor) ==
                Reach(layers, room, |room| - 1, room[|room| - 1], n, floor)
      decreases i + device
    {
      if layers[i - 1] <= left {
        BytesSplit(layers, i - 1, i, starts[1]);
        AddLayer(layers, room, list, starts);
        list := [list[0].(layers := [i - 1] + list[0].layers)] + list[1..];
        starts := starts[0 := i - 1];
        left := left - layers[i - 1];
        i := i - 1;
      } else {
        if device == 0 {
          return;
        }
        device := device - 1;
        AddDevice(layers, room, list, starts);
        list := [GpuLayers(device, [])] + list;
        starts := [i] + starts;
        left := room[device];
      }
    }
  }

  /** Prepending the next layer down to the first entry. */
  lemma AddLayer(layers: seq<nat>, room: seq<nat>, list: seq<GpuLayers>, starts: seq<int>)
    requires Packing(layers, room, list, starts) && list != [] && 0 < starts[0] <= starts[1] <= |layers|
    requires list[0].device < |room|
    requires Bytes(layers, starts[0] - 1, starts[1]) <= room[list[0].device]
    ensures var i := starts[0] - 1;
            var list' := [list[0].(layers := [i] + list[0].layers)] + list[1..];
            Packing(layers, room, list', starts[0 := i]) && Sum(list') == Sum(list) + 1
  {
    var i := starts[0] - 1;
    var list', starts' := [list[0].(layers := [i] + list[0].layers)] + list[1..], starts[0 := i];
    forall j | 0 <= j < |list'|
      ensures EntryFits(layers, room, list', starts', j)
    {
      assert EntryFits(layers, room, list, starts, j);
    }
    assert list'[1..] == list[1..];
  }

  /** Moving on to the next device down. */
  lemma AddDevice(layers: seq<nat>, room: seq<nat>, list: seq<GpuLayers>, starts: seq<int>)
    requires Packing(layers, room, list, starts) && 0 < |list| < |room| && 0 <= starts[0] <= |layers|
    ensures var list' := [GpuLayers(|room| - |list| - 1, [])] + list;
            Packing(layers, room, list', [starts[0]] + starts) && Sum(list') == Sum(list)
  {
    var list', starts' := [GpuLayers(|room| - |list| - 1, [])] + list, [starts[0]] + starts;
    forall j | 0 <= j < |list'|
      ensures EntryFits(layers, room, list', starts', j)
    {
      if j > 0 {
        assert EntryFits(layers, room, list, starts, j - 1);
      }
    }
    assert list'[1..] == list;
  }

  // ----- The capacity factor -----

  /** The room each GPU has when its free memory is scaled by a factor. */
  function Room(free: seq<nat>, factor: real): (r: seq<nat>)
    requires factor >= 0.0
    ensures |r| == |free|
  {
    seq(|free|, d requires 0 <= d < |free| => Scaled(free[d], factor))
  }

  function Scaled(bytes: nat, factor: real): nat
    requires factor >= 0.0
  {
    (bytes as real * factor).Floor
  }

  lemma ScaledMonotone(bytes: nat, f: real, g: real)
    requires 0.0 <= f <= g
    ensures Scaled(bytes, f) <= Scaled(bytes, g)
  {
    assert bytes as real * g - bytes as real * f == bytes as real * (g - f);
    assert bytes as real * (g - f) >= 0.0;
  }

  /** Scaling rounds down; by 1 it changes nothing, and by 1000 it multiplies. */
  lemma ScaledBounds(bytes: nat, factor: real)
    requires factor >= 0.0
    ensures Scaled(bytes, factor) as real <= bytes as real * factor < Scaled(bytes, factor) as real + 1.0
    ensures Scaled(bytes, 1.0) == bytes && Scaled(bytes, 1000.0) == 1000 * bytes
  {
    assert bytes as real * 1000.0 == (1000 * bytes) as real;
  }

  /** The free memory, or a thousand times as much where a request is forced. */
  function Stretched(free: seq<nat>, forced: bool): (r: seq<nat>)
    ensures |r| == |free|
  {
    if forced then seq(|free|, d requires 0 <= d < |free| => 1000 * free[d]) else free
  }

  lemma RoomStretched(free: seq<nat>, forced: bool)
    ensures Room(free, if forced then 1000.0 else 1.0) == Stretched(free, forced)
    ensures Room(free, 1.0) == free
  {
    forall d | 0 <= d < |free|
      ensures Scaled(free[d], 1.0) == free[d] && Scaled(free[d], 1000.0) == 1000 * free[d]
    {
      ScaledBounds(free[d], 1.0);
    }
  }

  /** The number of layers placed at a capacity factor. */
  function CountAt(layers: seq<nat>, free: seq<nat>, factor: real, requested: int): nat
    requires free != [] && factor >= 0.0
  {
    Count(layers, Room(free, factor), requested)
  }

  lemma CountAtMonotone(layers: seq<nat>, free: seq<nat>, f: real, g: real, requested: int)
    requires free != [] && 0.0 <= f <= g
    ensures CountAt(layers, free, f, requested) <= CountAt(layers, free, g, requested)
  {
    forall d | 0 <= d < |free|
      ensures Room(free, f)[d] <= Room(free, g)[d]
    {
      ScaledMonotone(free[d], f, g);
    }
    CountMonotone(layers, Room(free, f), Room(free, g), requested);
  }

  function Pow2(n: nat): real {
    if n == 0 then 1.0 else 2.0 * Pow2(n - 1)
  }

  function Top(requested: int, forceRequest: bool): real {
    if requested >= 0 && forceRequest then 1000.0 else 1.0
  }

  /** Binary search for the smallest factor that places as many layers as the largest does. The result is
      the packing at a factor that places that many, and that factor is within a millionth of one that
      places fewer, or of zero. */
  method FindBestFit(layers: seq<nat>, free: seq<nat>, requested: int, forceRequest: bool)
    returns (best: seq<GpuLayers>, ghost factor: real, ghost low: real, ghost starts: seq<int>)
    requires free != []
    ensures 0.0 <= low <= factor <= Top(requested, forceRequest)
    ensures Packing(layers, Room(free, factor), best, starts)
    ensures Sum(best) == |layers| - starts[0]
    ensures Sum(best) == CountAt(layers, free, factor, requested)
    ensures Sum(best) == CountAt(layers, free, Top(requested, forceRequest), requested)
    ensures Sum(best) > 0 ==> factor - low <= 0.000001
    ensures Sum(best) > 0 ==> low == 0.0 || CountAt(layers, free, low, requested) < Sum(best)
  {
    var high, lo := Top(requested, forceRequest), 0.0;
    best, starts := GreedyFit(layers, Room(free, high), requested);
    var most := Sum(best);
    factor, low := high, lo;
    if most == 0 {
      return;
    }
    ghost var n: nat := 30;
    Pow2Thirty();
    while high - lo > 0.000001
      invariant 0.0 <= lo <= high <= Top(requested, forceRequest)
      invariant high - lo <= 0.000001 * Pow2(n)
      invariant Packing(layers, Room(free, high), best, starts)
      invariant Sum(best) == |layers| - starts[0] == most == CountAt(layers, free, high, requested)
      invariant lo == 0.0 || CountAt(layers, free, lo, requested) < most
      decreases n
    {
      var mid := (lo + high) / 2.0;
      ghost var midStarts;
      var assignments;
      assignments, midStarts := GreedyFit(layers, Room(free, mid), requested);
      CountAtMonotone(layers, free, mid, Top(requested, forceRequest), requested);
      if Sum(assignments) == most {
        high := mid;
        best, starts := assignments, midStarts;
      } else {
        lo := mid;
      }
      n := n - 1;
    }
    factor, low := high, lo;
  }

  lemma Pow2Thirty()
    ensures 0.000001 * Pow2(30) >= 1000.0
  {
    assert Pow2(10) == 1024.0;
    Pow2Add(10, 10);
    Pow2Add(10, 20);
  }

  lemma {:induction false} Pow2Add(a: nat, b: nat)
    ensures Pow2(a + b) == Pow2(a) * Pow2(b)
  {
    if a > 0 {
      Pow2Add(a - 1, b);
    }
  }

  // ----- How many GPUs -----

  /** No in-order contiguous assignment to this room places more layers. */
  ghost predicate Most(layers: seq<nat>, room: seq<nat>, requested: int, n: int) {
    forall cut | Feasible(layers, room, requested, cut) :: |layers| - cut[0] <= n
  }

  /** Some assignment places that many. */
  ghost predicate Attained(layers: seq<nat>, room: seq<nat>, requested: int, n: int) {
    exists cut :: Feasible(layers, room, requested, cut) && |layers| - cut[0] == n
  }

  lemma CountIsMost(layers: seq<nat>, room: seq<nat>, requested: int)
    requires room != []
    ensures Most(layers, room, requested, Count(layers, room, requested))
    ensures Attained(layers, room, requested, Count(layers, room, requested))
  {
    forall cut | Feasible(layers, room, requested, cut)
      ensures |layers| - cut[0] <= Count(layers, room, requested)
    {
      GreedyOptimal(layers, room, requested, cut);
    }
    var cut := GreedyFeasible(layers, room, requested);
  }

  /** How many layers would do: those requested, or all. */
  function Goal(layers: seq<nat>, requested: int): int {
    if 0 <= requested < |layers| then requested else |layers|
  }

  lemma GoalIsMost(layers: seq<nat>, room: seq<nat>, requested: int)
    requires room != []
    ensures Most(layers, room, requested, Goal(layers, requested))
  {
    forall cut | Feasible(layers, room, requested, cut)
      ensures cut[0] >= 0
    {
      CutBelow(layers, room, requested, cut, 0);
    }
  }

  /** An assignment stays one with more room and with further GPUs, which it leaves empty. */
  lemma MoreRoom(layers: seq<nat>, room: seq<nat>, more: seq<nat>, requested: int, n: int)
    requires 0 < |room| <= |more| && (forall d | 0 <= d < |room| :: room[d] <= more[d])
    requires Attained(layers, room, requested, n)
    ensures Attained(layers, more, requested, n)
  {
    var cut :| Feasible(layers, room, requested, cut) && |layers| - cut[0] == n;
    var longer := cut + seq(|more| - |room|, _ => |layers|);
    forall d | 0 <= d < |more|
      ensures ShareFits(layers, more, longer, d)
    {
      if d < |room| {
        assert ShareFits(layers, room, cut, d);
      }
    }
    assert Feasible(layers, more, requested, longer);
  }

  /** The given GPUs, at their full free memory, can take every layer in some in-order assignment. */
  ghost predicate CanHold(layers: seq<nat>, free: seq<nat>) {
    exists cut :: Feasible(layers, free, -1, cut) && cut[0] == 0
  }

  lemma CanHoldIsCount(layers: seq<nat>, free: seq<nat>)
    requires free != []
    ensures CanHold(layers, free) <==> CountAt(layers, free, 1.0, -1) == |layers|
  {
    RoomStretched(free, false);
    if CanHold(layers, free) {
      var cut :| Feasible(layers, free, -1, cut) && cut[0] == 0;
      GreedyOptimal(layers, free, -1, cut);
    }
    if CountAt(layers, free, 1.0, -1) == |layers| {
      var cut := GreedyFeasible(layers, free, -1);
    }
  }

  /** What one attempt settles on: the packing of the layers on the first `used` GPUs, scaled by a factor. */
  ghost predicate Settled(layers: seq<nat>, free: seq<nat>, used: nat, factor: real, list: seq<GpuLayers>,
                          starts: seq<int>) {
    && 0 < used <= |free| && 0.0 <= factor
    && Packing(layers, Room(free[..used], factor), list, starts)
    && Sum(list) == |layers| - starts[0]
  }

  /** No factor that is smaller by more than a millionth lets any assignment place as many layers. */
  ghost predicate Balanced(layers: seq<nat>, free: seq<nat>, requested: int, factor: real, n: int) {
    forall f: real | 0.0 <= f < factor - 0.000001 :: Most(layers, Room(free, f), requested, n - 1)
  }

  /** What one trial on some GPUs shows: n is the most that any assignment to them can place. */
  ghost predicate Trial(layers: seq<nat>, free: seq<nat>, requested: int, forced: bool, n: int, factor: real) {
    var room := Stretched(free, requested >= 0 && forced);
    && n <= Goal(layers, requested) && factor <= Top(requested, forced)
    && Most(layers, room, requested, n) && Attained(layers, room, requested, n)
    && (n > 0 ==> Balanced(layers, free, requested, factor, n))
  }

  lemma TrialHolds(layers: seq<nat>, free: seq<nat>, requested: int, forced: bool, n: nat, factor: real, low: real)
    requires free != [] && requested <= |layers| && 0.0 <= low <= factor <= Top(requested, forced)
    requires n == CountAt(layers, free, Top(requested, forced), requested)
    requires n > 0 ==> factor - low <= 0.000001
    requires n > 0 ==> low == 0.0 || CountAt(layers, free, low, requested) < n
    ensures Trial(layers, free, requested, forced, n, factor)
  {
    RoomStretched(free, requested >= 0 && forced);
    CountIsMost(layers, Room(free, Top(requested, forced)), requested);
    if n > 0 {
      forall f: real | 0.0 <= f < factor - 0.000001
        ensures Most(layers, Room(free, f), requested, n - 1)
      {
        CountAtMonotone(layers, free, f, low, requested);
        CountIsMost(layers, Room(free, f), requested);
      }
    }
  }

  /** What an attempt promises: it places as many layers as any assignment to all GPUs could, with a thousand times
      their memory if a request is forced; the factor can hardly be smaller; and unless layers are to be spread, no
      fewer GPUs beyond the last used one could take as many layers as would do. */
  ghost predicate Attempted(layers: seq<nat>, free: seq<nat>, requireFull: bool, requested: int, lastUsedGpu: nat,
                            spread: bool, n: int, used: nat, factor: real) {
    var room := Stretched(free, requested >= 0 && !requireFull);
    && 0 < used <= |free| && (if spread then used == |free| else used > lastUsedGpu)
    && n <= Goal(layers, requested) && (n < Goal(layers, requested) ==> used == |free|)
    && Most(layers, room, requested, n) && Attained(layers, room, requested, n)
    && (n > 0 ==> Balanced(layers, free[..used], requested, factor, n))
    && factor <= Top(requested, used == |free| && !requireFull)
    && (!spread ==> TooFew(layers, free, requested, lastUsedGpu, used))
  }

  /** Between the last used GPU and n, no number of GPUs could take as many layers as would do. */
  ghost predicate TooFew(layers: seq<nat>, free: seq<nat>, requested: int, lastUsedGpu: nat, n: nat)
    requires n <= |free|
  {
    forall k | lastUsedGpu < k < n :: Most(layers, free[..k], requested, Goal(layers, requested) - 1)
  }

  /** The first trial that places what would do, or the last one, is what an attempt promises. */
  lemma TrialSuffices(layers: seq<nat>, free: seq<nat>, requireFull: bool, requested: int,
                      lastUsedGpu: nat, spread: bool,
                      n: int, used: nat, factor: real)
    requires 0 < used <= |free| && Trial(layers, free[..used], requested, used == |free| && !requireFull, n, factor)
    requires used < |free| ==> n == Goal(layers, requested)
    requires if spread then used == |free| else used > lastUsedGpu && TooFew(layers, free, requested, lastUsedGpu, used)
    ensures Attempted(layers, free, requireFull, requested, lastUsedGpu, spread, n, used, factor)
  {
    var room := Stretched(free, requested >= 0 && !requireFull);
    assert free[..|free|] == free;
    if used < |free| {
      GoalIsMost(layers, room, requested);
      MoreRoom(layers, free[..used], room, requested, n);
    }
  }

  /** One attempt to place the layers, on as few GPUs as possible unless they are to be spread. */
  method Attempt(layers: seq<nat>, free: seq<nat>, requireFull: bool, requested: int, lastUsedGpu: nat, spread: bool)
    returns (list: seq<GpuLayers>, ghost used: nat, ghost factor: real, ghost starts: seq<int>)
    requires lastUsedGpu < |free| && requested <= |layers|
    ensures Settled(layers, free, used, factor, list, starts)
    ensures Attempted(layers, free, requireFull, requested, lastUsedGpu, spread, Sum(list), used, factor)
  {
    ghost var low;
    if spread {
      list, factor, low, starts := FindBestFit(layers, free, requested, !requireFull);
      used := |free|;
      assert free[..used] == free;
      TrialHolds(layers, free, requested, !requireFull, Sum(list), factor, low);
      TrialSuffices(layers, free, requireFull, requested, lastUsedGpu, spread, Sum(list), used, factor);
      return;
    }
    var i := lastUsedGpu;
    used, factor, starts := 0, 0.0, [];
    list := [];
    while i < |free|
      invariant lastUsedGpu <= i <= |free| && TooFew(layers, free, requested, lastUsedGpu, i)
      invariant i > lastUsedGpu ==> used == i && Settled(layers, free, used, factor, list, starts)
      invariant i > lastUsedGpu ==> Sum(list) < Goal(layers, requested)
      invariant i > lastUsedGpu ==>
        Trial(layers, free[..i], requested, i == |free| && !requireFull, Sum(list), factor)
    {
      TooFewNext(layers, free, requireFull, requested, lastUsedGpu, i, Sum(list), factor);
      var forceRequest := i == |free| - 1 && !requireFull;
      list, factor, low, starts := FindBestFit(layers, free[..i + 1], requested, forceRequest);
      used := i + 1;
      TrialHolds(layers, free[..used], requested, forceRequest, Sum(list), factor, low);
      if Sum(list) == |layers| || Sum(list) == requested {
        TrialSuffices(layers, free, requireFull, requested, lastUsedGpu, spread, Sum(list), used, factor);
        return;
      }
      i := i + 1;
    }
    TrialSuffices(layers, free, requireFull, requested, lastUsedGpu, spread, Sum(list), used, factor);
  }

  /** A trial that places too few shows that its number of GPUs is too small. */
  lemma TooFewNext(layers: seq<nat>, free: seq<nat>, requireFull: bool, requested: int, lastUsedGpu: nat, i: nat,
                   n: int, factor: real)
    requires lastUsedGpu <= i < |free| && TooFew(layers, free, requested, lastUsedGpu, i)
    requires i > lastUsedGpu ==> n < Goal(layers, requested) && Trial(layers, free[..i], requested, false, n, factor)
    ensures TooFew(layers, free, requested, lastUsedGpu, i + 1)
  {
  }

  /** Packs as many layers as possible onto as few GPUs as possible; if not all fit, tries again without the output
      layer. All layers are placed exactly when some assignment to all GPUs places them all; otherwise as many of
      the others as any assignment could place, or as were requested. */
  method AssignLayers(layers: seq<nat>, free: seq<nat>, requireFull: bool, requested: int, lastUsedGpu: nat,
                      spread: bool)
    returns (list: seq<GpuLayers>, ghost kept: seq<nat>, ghost used: nat, ghost factor: real, ghost starts: seq<int>)
    requires lastUsedGpu < |free|
    ensures kept == layers || (layers != [] && kept == layers[..|layers| - 1])
    ensures kept == layers <==>
      Attained(layers, Stretched(free, requested >= 0 && !requireFull), requested, |layers|)
    ensures kept == layers <==> Sum(list) == |layers|
    ensures Settled(kept, free, used, factor, list, starts)
    ensures Attempted(kept, free, requireFull, Min(|kept|, requested), lastUsedGpu, spread, Sum(list), used, factor)
    ensures requested >= 0 ==> Sum(list) <= requested
    ensures requested < 0 ==> Most(kept, free, -1, Sum(list)) && (kept == layers <==> CanHold(layers, free))
    ensures requested < 0 && !spread ==>
      used > lastUsedGpu && forall k | lastUsedGpu < k < used :: !CanHold(kept, free[..k])
  {
    kept := layers;
    list, used, factor, starts := Attempt(layers, free, requireFull, Min(|layers|, requested), lastUsedGpu, spread);
    AllPlaced(layers, free, requested, !requireFull, Sum(list));
    if Sum(list) != |layers| {
      var fewer := layers[..|layers| - 1];
      kept := fewer;
      list, used, factor, starts :=
        Attempt(fewer, free, requireFull, Min(|fewer|, Min(|layers|, requested)), lastUsedGpu, spread);
    }
    if requested < 0 {
      Unrequested(kept, free, Min(|kept|, requested), lastUsedGpu, used, Sum(list));
    }
  }

  /** All layers are placed if and only if they can be. */
  lemma AllPlaced(layers: seq<nat>, free: seq<nat>, requested: int, forced: bool, n: int)
    requires free != [] && n <= |layers|
    requires var room, most := Stretched(free, requested >= 0 && forced), Min(|layers|, requested);
             Most(layers, room, most, n) && Attained(layers, room, most, n)
    ensures n == |layers| <==> Attained(layers, Stretched(free, requested >= 0 && forced), requested, |layers|)
    ensures requested < 0 ==> (n == |layers| <==> CanHold(layers, free))
  {
    var room, most := Stretched(free, requested >= 0 && forced), Min(|layers|, requested);
    forall cut
      ensures Feasible(layers, room, most, cut) <==> Feasible(layers, room, requested, cut)
      ensures requested < 0 ==> (Feasible(layers, room, most, cut) <==> Feasible(layers, room, -1, cut))
    {
      if Feasible(layers, room, most, cut) {
        CutBelow(layers, room, most, cut, 0);
      }
      if Feasible(layers, room, requested, cut) {
        CutBelow(layers, room, requested, cut, 0);
      }
    }
  }

  /** Any negative request means no limit. */
  lemma Unrequested(layers: seq<nat>, free: seq<nat>, requested: int, lastUsedGpu: nat, used: nat, n: int)
    requires requested < 0 && used <= |free| && Most(layers, free, requested, n)
    ensures Most(layers, free, -1, n)
    ensures TooFew(layers, free, requested, lastUsedGpu, used) ==>
      forall k | lastUsedGpu < k < used :: !CanHold(layers, free[..k])
  {
    forall room, cut
      ensures Feasible(layers, room, requested, cut) <==> Feasible(layers, room, -1, cut)
    {
    }
    if TooFew(layers, free, requested, lastUsedGpu, used) {
      forall k | lastUsedGpu < k < used
        ensures !CanHold(layers, free[..k])
      {
        assert Most(layers, free[..k], requested, |layers| - 1);
      }
    }
  }
}
