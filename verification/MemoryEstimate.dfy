/** How many layers fit on the GPUs of the llama.cpp engine: from the filter of usable GPUs to the
    final estimate. Sizes are in bytes. */
module MemoryEstimate {
  import opened Prelude

  datatype Gpu = Gpu(free: nat, minimum: nat)

  /** The model and the request. blocks[i] is the size of block i with its cache, or None when the file has no
      such block; layer is the size assumed until a block says otherwise. */
  datatype Request = Request(gpus: seq<Gpu>, overhead: nat, graphPartial: nat, graphFull: nat, layer: nat,
                             gpuZeroOverhead: nat, blocks: seq<Option<nat>>, lastLayer: nat, numGpu: int)

  datatype Estimate = Estimate(layers: nat, graph: nat, vram: nat, total: nat, split: seq<nat>, sizes: seq<nat>)

  // ----- Accounting -----

  /** What is placed where: gpu[k] is the GPU that item k of size bytes[k] went to, or -1 for system memory. */
  datatype Ledger = Ledger(bytes: seq<nat>, gpu: seq<int>) {
    predicate Valid(gpus: nat) {
      |bytes| == |gpu| && forall k | 0 <= k < |gpu| :: -1 <= gpu[k] < gpus
    }

    function Add(size: nat, g: int): Ledger {
      Ledger(bytes + [size], gpu + [g])
    }

    /** Bytes placed on g, among the first n items. */
    function OnIn(g: int, n: nat): nat
      requires n <= |bytes| && |bytes| == |gpu|
    {
      if n == 0 then 0 else OnIn(g, n - 1) + if gpu[n - 1] == g then bytes[n - 1] else 0
    }

    function On(g: int): nat
      requires |bytes| == |gpu|
    {
      OnIn(g, |bytes|)
    }

    /** Items placed on g, among the first n. */
    function CountIn(g: int, n: nat): nat
      requires n <= |bytes| && |bytes| == |gpu|
    {
      if n == 0 then 0 else CountIn(g, n - 1) + if gpu[n - 1] == g then 1 else 0
    }

    function Count(g: int): nat
      requires |bytes| == |gpu|
    {
      CountIn(g, |bytes|)
    }

    lemma {:induction false} InFrame(l: Ledger, g: int, n: nat)
      requires |bytes| == |gpu| && |l.bytes| == |l.gpu| && n <= |bytes| && n <= |l.bytes|
      requires bytes[..n] == l.bytes[..n] && gpu[..n] == l.gpu[..n]
      ensures OnIn(g, n) == l.OnIn(g, n) && CountIn(g, n) == l.CountIn(g, n)
    {
      if n > 0 {
        assert bytes[..n - 1] == bytes[..n][..n - 1] == l.bytes[..n][..n - 1] == l.bytes[..n - 1];
        assert gpu[..n - 1] == gpu[..n][..n - 1] == l.gpu[..n][..n - 1] == l.gpu[..n - 1];
        assert bytes[n - 1] == bytes[..n][n - 1] == l.bytes[..n][n - 1] == l.bytes[n - 1];
        assert gpu[n - 1] == gpu[..n][n - 1] == l.gpu[..n][n - 1] == l.gpu[n - 1];
        InFrame(l, g, n - 1);
      }
    }

    /** Adding an item changes only its own place. */
    lemma AddOn(size: nat, g: int, h: int)
      requires |bytes| == |gpu|
      ensures Add(size, g).On(h) == On(h) + (if g == h then size else 0)
      ensures Add(size, g).Count(h) == Count(h) + (if g == h then 1 else 0)
    {
      InFrame(Add(size, g), h, |bytes|);
    }
  }

  function Sum(s: seq<nat>): nat {
    SumTo(s, |s|)
  }

  /** Everything placed on the first m GPUs. */
  function OnAll(l: Ledger, m: nat): nat
    requires |l.bytes| == |l.gpu|
  {
    if m == 0 then 0 else OnAll(l, m - 1) + l.On(m - 1)
  }

  function CountAll(l: Ledger, m: nat): nat
    requires |l.bytes| == |l.gpu|
  {
    if m == 0 then 0 else CountAll(l, m - 1) + l.Count(m - 1)
  }

  lemma {:induction false} OnAllAdd(l: Ledger, size: nat, g: int, m: nat)
    requires |l.bytes| == |l.gpu|
    ensures OnAll(l.Add(size, g), m) == OnAll(l, m) + (if 0 <= g < m then size else 0)
    ensures CountAll(l.Add(size, g), m) == CountAll(l, m) + (if 0 <= g < m then 1 else 0)
  {
    if m > 0 {
      OnAllAdd(l, size, g, m - 1);
      l.AddOn(size, g, m - 1);
    }
  }

  /** Conservation: what is on the GPUs and what is not add up to everything there is. */
  lemma {:induction false} LedgerConserves(l: Ledger, m: nat)
    requires l.Valid(m)
    ensures OnAll(l, m) + l.On(-1) == Sum(l.bytes)
    ensures CountAll(l, m) + l.Count(-1) == |l.bytes|
    decreases |l.bytes|
  {
    var n := |l.bytes|;
    if n == 0 {
      AllZero(l, m);
    } else {
      var before := Ledger(l.bytes[..n - 1], l.gpu[..n - 1]);
      assert l == before.Add(l.bytes[n - 1], l.gpu[n - 1]);
      LedgerConserves(before, m);
      OnAllAdd(before, l.bytes[n - 1], l.gpu[n - 1], m);
      before.AddOn(l.bytes[n - 1], l.gpu[n - 1], -1);
      SumFrame(l.bytes, before.bytes, n - 1);
    }
  }

  lemma {:induction false} AllZero(l: Ledger, m: nat)
    requires l.bytes == [] && l.gpu == []
    ensures OnAll(l, m) == 0 && CountAll(l, m) == 0
  {
    if m > 0 {
      AllZero(l, m - 1);
    }
  }

  lemma {:induction false} SumFrame(a: seq<nat>, b: seq<nat>, n: nat)
    requires n <= |a| && n <= |b| && a[..n] == b[..n]
    ensures SumTo(a, n) == SumTo(b, n)
  {
    if n > 0 {
      assert a[..n - 1] == a[..n][..n - 1] == b[..n][..n - 1] == b[..n - 1];
      assert a[n - 1] == a[..n][n - 1] == b[..n][n - 1] == b[n - 1];
      SumFrame(a, b, n - 1);
    }
  }

  // ----- The running state -----

  datatype Placement = Placement(alloc: seq<nat>, split: seq<nat>, withSpace: seq<int>, count: nat, overflow: nat)

  function MaxGraph(req: Request): nat {
    Max(req.graphPartial, req.graphFull)
  }

  /** What a usable GPU carries before any layer. */
  function Base(req: Request, ws: seq<int>, g: nat): nat
    requires g < |req.gpus|
  {
    if g !in ws then 0 else req.gpus[g].minimum + req.layer + if g == ws[0] then req.gpuZeroOverhead else 0
  }

  ghost predicate InRange(ws: seq<int>, n: nat) {
    forall k | 0 <= k < |ws| :: 0 <= ws[k] < n
  }

  /** Every allocation is its base plus what the ledger says; what was not placed is in the overflow. */
  ghost predicate Balanced(req: Request, base: seq<nat>, baseOverflow: nat, p: Placement, l: Ledger) {
    && |p.alloc| == |p.split| == |base| == |req.gpus| && l.Valid(|req.gpus|)
    && (forall g | 0 <= g < |base| :: p.alloc[g] == base[g] + l.On(g) && p.split[g] == l.Count(g))
    && p.overflow == baseOverflow + l.On(-1)
    && p.count + l.Count(-1) == |l.bytes|
  }

  /** A GPU with a layer still has room for the overhead and the larger graph. */
  ghost predicate InBudget(req: Request, p: Placement) {
    && |p.alloc| == |p.split| == |req.gpus| && InRange(p.withSpace, |req.gpus|)
    && (forall g | 0 <= g < |req.gpus| && p.split[g] > 0 ::
          req.overhead + p.alloc[g] + MaxGraph(req) < req.gpus[g].free)
    && (req.numGpu >= 0 ==> p.count <= req.numGpu)
  }

  /** Once an item was left out, nothing more is placed: no GPU has space or the request is fulfilled. */
  ghost predicate Closed(req: Request, p: Placement, l: Ledger)
    requires |l.bytes| == |l.gpu|
  {
    l.Count(-1) > 0 ==> p.withSpace == [] || (req.numGpu >= 0 && p.count >= req.numGpu)
  }

  predicate Fits(req: Request, alloc: seq<nat>, g: int, size: nat)
    requires 0 <= g < |req.gpus| == |alloc|
  {
    req.gpus[g].free > req.overhead + (alloc[g] + MaxGraph(req)) + size
  }

  function Put(p: Placement, g: int, size: nat): Placement
    requires 0 <= g < |p.alloc| == |p.split|
  {
    p.(alloc := p.alloc[g := p.alloc[g] + size], split := p.split[g := p.split[g] + 1], count := p.count + 1)
  }

  /** Placing an item on a GPU where it fits keeps the books and the budget. */
  lemma PutKeeps(req: Request, base: seq<nat>, baseOverflow: nat, p: Placement, l: Ledger, g: int, size: nat)
    requires Balanced(req, base, baseOverflow, p, l) && InBudget(req, p)
    requires 0 <= g < |req.gpus| && Fits(req, p.alloc, g, size) && (req.numGpu >= 0 ==> p.count < req.numGpu)
    ensures Balanced(req, base, baseOverflow, Put(p, g, size), l.Add(size, g)) && InBudget(req, Put(p, g, size))
  {
    forall h | -1 <= h < |req.gpus|
      ensures l.Add(size, g).On(h) == l.On(h) + (if g == h then size else 0)
      ensures l.Add(size, g).Count(h) == l.Count(h) + (if g == h then 1 else 0)
    {
      l.AddOn(size, g, h);
    }
  }

  /** Leaving an item to system memory keeps the books. */
  lemma SpillKeeps(req: Request, base: seq<nat>, baseOverflow: nat, p: Placement, l: Ledger, size: nat)
    requires Balanced(req, base, baseOverflow, p, l)
    ensures Balanced(req, base, baseOverflow, p.(overflow := p.overflow + size), l.Add(size, -1))
    ensures l.Add(size, -1).Count(-1) == l.Count(-1) + 1
  {
    forall h | -1 <= h < |req.gpus|
      ensures l.Add(size, -1).On(h) == l.On(h) + (if h == -1 then size else 0)
      ensures l.Add(size, -1).Count(h) == l.Count(h) + (if h == -1 then 1 else 0)
    {
      l.AddOn(size, -1, h);
    }
  }

  ghost predicate Increasing(ws: seq<int>) {
    forall j, k | 0 <= j < k < |ws| :: ws[j] < ws[k]
  }

  /** GPUs have been dropped from the list, all of them without room for the block. */
  ghost predicate DropsFull(req: Request, alloc: seq<nat>, ws: seq<int>, rest: seq<int>, size: nat)
    requires |alloc| == |req.gpus| && InRange(ws, |req.gpus|)
  {
    && Increasing(rest) && (forall g | g in rest :: g in ws)
    && forall g | g in ws && g !in rest :: !Fits(req, alloc, g, size)
  }

  /** The GPU that block i goes to, trying them in rotation and dropping those that are full; -1 if none is left, which
      means that none had room. */
  method ChooseGpu(req: Request, alloc: seq<nat>, ws: seq<int>, i: nat, size: nat) returns (g: int, rest: seq<int>)
    requires |alloc| == |req.gpus| && InRange(ws, |req.gpus|) && Increasing(ws)
    ensures InRange(rest, |req.gpus|) && DropsFull(req, alloc, ws, rest, size)
    ensures g == -1 <==> rest == []
    ensures g != -1 ==> g == rest[i % |rest|] && Fits(req, alloc, g, size)
  {
    rest := ws;
    var j := |rest|;
    while j > 0
      invariant j == |rest| && InRange(rest, |req.gpus|) && DropsFull(req, alloc, ws, rest, size)
    {
      var k := i % j;
      if Fits(req, alloc, rest[k], size) {
        return rest[k], rest;
      }
      WithoutFull(req, alloc, ws, rest, size, k);
      rest := rest[..k] + rest[k + 1..];
      j := j - 1;
    }
    g := -1;
  }

  lemma WithoutFull(req: Request, alloc: seq<nat>, ws: seq<int>, rest: seq<int>, size: nat, k: nat)
    requires |alloc| == |req.gpus| && InRange(ws, |req.gpus|) && InRange(rest, |req.gpus|)
    requires DropsFull(req, alloc, ws, rest, size) && k < |rest| && !Fits(req, alloc, rest[k], size)
    ensures DropsFull(req, alloc, ws, rest[..k] + rest[k + 1..], size)
  {
    var less := rest[..k] + rest[k + 1..];
    assert forall j | 0 <= j < |less| :: less[j] == rest[if j < k then j else j + 1];
    forall j | 0 <= j < |rest| && j != k
      ensures rest[j] in less
    {
      assert less[if j < k then j else j - 1] == rest[j];
    }
  }

  // ----- Why each item is where it is -----

  /** When item k was placed, GPU g had room for it next to its base and what it held by then. */
  ghost predicate Roomy(req: Request, base: seq<nat>, l: Ledger, g: int, k: nat)
    requires 0 <= g < |req.gpus| == |base| && k < |l.bytes| == |l.gpu|
  {
    req.gpus[g].free > req.overhead + (base[g] + l.OnIn(g, k) + MaxGraph(req)) + l.bytes[k]
  }

  /** As many items as requested were on GPUs before item k. */
  ghost predicate Fulfilled(req: Request, l: Ledger, k: nat)
    requires k <= |l.bytes| == |l.gpu|
  {
    req.numGpu >= 0 && k - l.CountIn(-1, k) >= req.numGpu
  }

  /** GPU g had no room for item k or for one before it. */
  ghost predicate GaveOut(req: Request, base: seq<nat>, l: Ledger, g: int, k: nat)
    requires 0 <= g < |req.gpus| == |base| && k <= |l.bytes| == |l.gpu|
  {
    exists j: nat | j < k :: !Roomy(req, base, l, g, j)
  }

  /** Item k is on a usable GPU with room for it, unless the request was fulfilled or every usable GPU has given out;
      then it is in system memory. */
  ghost predicate Justified(req: Request, base: seq<nat>, usable: seq<int>, l: Ledger, k: nat)
    requires |base| == |req.gpus| && InRange(usable, |req.gpus|) && k < |l.bytes| == |l.gpu|
  {
    if l.gpu[k] == -1 then Fulfilled(req, l, k) || forall g | g in usable :: GaveOut(req, base, l, g, k + 1)
    else l.gpu[k] in usable && Roomy(req, base, l, l.gpu[k], k) && !Fulfilled(req, l, k)
  }

  /** All items so far are where they are for a reason, and so are the GPUs still in the list. */
  ghost predicate AllJustified(req: Request, base: seq<nat>, usable: seq<int>, ws: seq<int>, l: Ledger)
    requires |base| == |req.gpus| && InRange(usable, |req.gpus|) && |l.bytes| == |l.gpu|
  {
    && Increasing(ws) && (forall g | g in ws :: g in usable)
    && (forall k: nat | k < |l.bytes| :: Justified(req, base, usable, l, k))
    && forall g | g in usable && g !in ws :: GaveOut(req, base, l, g, |l.bytes|)
  }

  lemma SamePast(req: Request, base: seq<nat>, l: Ledger, size: nat, g: int, h: int, k: nat)
    requires |base| == |req.gpus| && k <= |l.bytes| == |l.gpu|
    ensures l.Add(size, g).OnIn(h, k) == l.OnIn(h, k) && l.Add(size, g).CountIn(h, k) == l.CountIn(h, k)
    ensures 0 <= h < |req.gpus| && k < |l.bytes| ==>
      (Roomy(req, base, l.Add(size, g), h, k) <==> Roomy(req, base, l, h, k))
  {
    l.Add(size, g).InFrame(l, h, k);
  }

  lemma StillGivenOut(req: Request, base: seq<nat>, l: Ledger, size: nat, g: int, h: int, k: nat)
    requires 0 <= h < |req.gpus| == |base| && k <= |l.bytes| == |l.gpu| && GaveOut(req, base, l, h, k)
    ensures forall n: nat | k <= n <= |l.bytes| + 1 :: GaveOut(req, base, l.Add(size, g), h, n)
  {
    var j: nat :| j < k && !Roomy(req, base, l, h, j);
    SamePast(req, base, l, size, g, h, j);
  }

  lemma StillJustified(req: Request, base: seq<nat>, usable: seq<int>, l: Ledger, size: nat, g: int, k: nat)
    requires |base| == |req.gpus| && InRange(usable, |req.gpus|) && k < |l.bytes| == |l.gpu|
    requires Justified(req, base, usable, l, k)
    ensures Justified(req, base, usable, l.Add(size, g), k)
  {
    SamePast(req, base, l, size, g, -1, k);
    if l.gpu[k] == -1 {
      if !Fulfilled(req, l, k) {
        forall h | h in usable
          ensures GaveOut(req, base, l.Add(size, g), h, k + 1)
        {
          StillGivenOut(req, base, l, size, g, h, k + 1);
        }
      }
    } else {
      SamePast(req, base, l, size, g, l.gpu[k], k);
    }
  }

  /** One more item, on g or in system memory. */
  lemma JustifiedNext(req: Request, base: seq<nat>, baseOverflow: nat, usable: seq<int>, p: Placement, rest: seq<int>,
                      l: Ledger, size: nat, g: int)
    requires Balanced(req, base, baseOverflow, p, l) && InRange(usable, |req.gpus|) && InRange(p.withSpace, |req.gpus|)
    requires AllJustified(req, base, usable, p.withSpace, l) && DropsFull(req, p.alloc, p.withSpace, rest, size)
    requires if req.numGpu >= 0 && p.count >= req.numGpu then g == -1 else
             if g == -1 then rest == [] else g in rest && Fits(req, p.alloc, g, size)
    ensures AllJustified(req, base, usable, rest, l.Add(size, g))
  {
    var l', n := l.Add(size, g), |l.bytes|;
    assert p.count == n - l.Count(-1);
    forall h | h in usable && h !in rest
      ensures GaveOut(req, base, l', h, n + 1)
    {
      if h in p.withSpace {
        SamePast(req, base, l, size, g, h, n);
        assert !Roomy(req, base, l', h, n);
      } else {
        StillGivenOut(req, base, l, size, g, h, n);
      }
    }
    forall k: nat | k < |l'.bytes|
      ensures Justified(req, base, usable, l', k)
    {
      if k < n {
        StillJustified(req, base, usable, l, size, g, k);
      } else {
        SamePast(req, base, l, size, g, -1, n);
        SamePast(req, base, l, size, g, g, n);
      }
    }
  }

  /** Places block i, or leaves it to system memory once the request is fulfilled or every GPU is full. */
  method PlaceBlock(req: Request, p: Placement, i: nat, size: nat, ghost base: seq<nat>, ghost baseOverflow: nat,
                    ghost usable: seq<int>, ghost l: Ledger)
    returns (p': Placement, ghost l': Ledger)
    requires Balanced(req, base, baseOverflow, p, l) && InBudget(req, p) && Closed(req, p, l)
    requires InRange(usable, |req.gpus|) && AllJustified(req, base, usable, p.withSpace, l)
    ensures Balanced(req, base, baseOverflow, p', l') && InBudget(req, p') && Closed(req, p', l')
    ensures AllJustified(req, base, usable, p'.withSpace, l')
    ensures |l'.gpu| == |l.gpu| + 1 && l' == l.Add(size, l'.gpu[|l.gpu|])
    ensures l'.gpu[|l.gpu|] != -1 ==>
      p'.withSpace != [] && l'.gpu[|l.gpu|] == p'.withSpace[i % |p'.withSpace|]
  {
    var g, rest := -1, p.withSpace;
    if req.numGpu < 0 || p.count < req.numGpu {
      g, rest := ChooseGpu(req, p.alloc, p.withSpace, i, size);
    }
    JustifiedNext(req, base, baseOverflow, usable, p, rest, l, size, g);
    p' := p.(withSpace := rest);
    l' := l.Add(size, g);
    if g >= 0 {
      PutKeeps(req, base, baseOverflow, p', l, g, size);
      l.AddOn(size, g, -1);
      p' := Put(p', g, size);
    } else {
      SpillKeeps(req, base, baseOverflow, p', l, size);
      p' := p'.(overflow := p'.overflow + size);
    }
  }

  // ----- Usable GPUs -----

  /** GPUs with space for the overhead, the larger graph, their minimum, the layer buffer and one more layer. */
  predicate Usable(req: Request, g: nat, first: bool)
    requires g < |req.gpus|
  {
    req.gpus[g].free >=
      req.overhead + (if first then req.gpuZeroOverhead else 0) + MaxGraph(req) + req.gpus[g].minimum + 2 * req.layer
  }

  /** Base allocations fit every GPU that gets one; what GPU zero should carry goes to
      system memory if none is usable. */
  ghost predicate BaseFits(req: Request, base: seq<nat>, baseOverflow: nat) {
    && |base| == |req.gpus|
    && (forall g | 0 <= g < |base| :: base[g] > 0 ==> req.overhead + base[g] + MaxGraph(req) <= req.gpus[g].free)
    && baseOverflow <= req.gpuZeroOverhead
  }

  /** GPU g can carry the overhead, the extra weights, either graph, its minimum, the layer buffer and one layer. */
  ghost predicate HasSpace(req: Request, g: nat, extra: nat)
    requires g < |req.gpus|
  {
    var wanted := req.overhead + extra + req.gpus[g].minimum + req.layer + req.layer;
    wanted + req.graphPartial <= req.gpus[g].free && wanted + req.graphFull <= req.gpus[g].free
  }

  /** The GPUs listed are exactly the usable ones, in order; the first of them carries the extra weights. */
  ghost predicate Filtered(req: Request, ws: seq<int>, n: nat) {
    && InRange(ws, n) && n <= |req.gpus| && Increasing(ws)
    && forall g | 0 <= g < n :: g in ws <==> HasSpace(req, g, if ws == [] || g <= ws[0] then req.gpuZeroOverhead else 0)
  }

  lemma FilteredNext(req: Request, ws: seq<int>, i: nat)
    requires i < |req.gpus| && Filtered(req, ws, i)
    ensures Filtered(req, if Usable(req, i, ws == []) then ws + [i] else ws, i + 1)
  {
    var ws' := if Usable(req, i, ws == []) then ws + [i] else ws;
    assert forall h :: h in ws' <==> h in ws || (h == i && Usable(req, i, ws == []));
    assert forall h :: h in ws' <==> h in ws || (h == i && Usable(req, i, ws == []));
  }

  /** The usable GPUs, and what they carry apart from the extra weights. */
  method ListUsable(req: Request) returns (ws: seq<int>, alloc: seq<nat>)
    ensures Filtered(req, ws, |req.gpus|) && |alloc| == |req.gpus|
    ensures forall g | 0 <= g < |req.gpus| :: alloc[g] == if g in ws then req.gpus[g].minimum + req.layer else 0
  {
    var n := |req.gpus|;
    alloc, ws := seq(n, _ => 0), [];
    for i := 0 to n
      invariant |alloc| == n && Filtered(req, ws, i)
      invariant forall g | 0 <= g < n :: alloc[g] == if g in ws then req.gpus[g].minimum + req.layer else 0
    {
      FilteredNext(req, ws, i);
      if Usable(req, i, ws == []) {
        ws := ws + [i];
        alloc := alloc[i := alloc[i] + (req.gpus[i].minimum + req.layer)];
      }
    }
  }

  method FilterGpus(req: Request) returns (p: Placement)
    ensures Filtered(req, p.withSpace, |req.gpus|) && p.split == seq(|req.gpus|, _ => 0) && p.count == 0
    ensures BaseFits(req, p.alloc, p.overflow)
    ensures Balanced(req, p.alloc, p.overflow, p, Ledger([], [])) && InBudget(req, p)
    ensures p.overflow == if p.withSpace == [] then req.gpuZeroOverhead else 0
    ensures forall g | 0 <= g < |req.gpus| :: p.alloc[g] == Base(req, p.withSpace, g)
  {
    var n := |req.gpus|;
    var ws, alloc := ListUsable(req);
    var overflow := 0;
    if ws != [] {
      alloc := alloc[ws[0] := alloc[ws[0]] + req.gpuZeroOverhead];
    } else {
      overflow := req.gpuZeroOverhead;
    }
    p := Placement(alloc, seq(n, _ => 0), ws, 0, overflow);
  }

  // ----- All items -----

  /** The size used for block i: its own, or that of the nearest larger block the file has. */
  function BlockSize(req: Request, i: nat): nat
    requires i < |req.blocks|
    decreases |req.blocks| - i
  {
    match req.blocks[i]
    case Some(size) => size
    case None => if i + 1 < |req.blocks| then BlockSize(req, i + 1) else req.layer
  }

  /** Which block that is: the first one from i on that the file has; without one, the size assumed. */
  lemma {:induction false} BlockSizeFinds(req: Request, i: nat, j: nat)
    requires i <= j <= |req.blocks| && i < |req.blocks| && forall h | i <= h < j :: req.blocks[h].None?
    ensures j == |req.blocks| ==> BlockSize(req, i) == req.layer
    ensures j < |req.blocks| && req.blocks[j].Some? ==> BlockSize(req, i) == req.blocks[j].value
    decreases j - i
  {
    if i < j && i + 1 < |req.blocks| {
      BlockSizeFinds(req, i + 1, j);
    }
  }

  /** Block sizes in the order they are placed, from the last block down. */
  function BlockItems(req: Request): (r: seq<nat>)
    ensures |r| == |req.blocks|
  {
    seq(|req.blocks|, k requires 0 <= k < |req.blocks| => BlockSize(req, |req.blocks| - 1 - k))
  }

  /** Everything to be placed: the blocks, and the output and projector layer if there is one. */
  function Items(req: Request): seq<nat> {
    BlockItems(req) + if req.lastLayer > 0 then [req.lastLayer] else []
  }

  method PlaceBlocks(req: Request, start: Placement) returns (p: Placement, ghost l: Ledger)
    requires Balanced(req, start.alloc, start.overflow, start, Ledger([], [])) && InBudget(req, start)
    requires Increasing(start.withSpace)
    ensures Balanced(req, start.alloc, start.overflow, p, l) && InBudget(req, p) && Closed(req, p, l)
    ensures AllJustified(req, start.alloc, start.withSpace, p.withSpace, l)
    ensures l.bytes == BlockItems(req)
  {
    p, l := start, Ledger([], []);
    var n := |req.blocks|;
    var i, size := n, req.layer;
    while i > 0
      invariant 0 <= i <= n && size == if i < n then BlockSize(req, i) else req.layer
      invariant Balanced(req, start.alloc, start.overflow, p, l) && InBudget(req, p) && Closed(req, p, l)
      invariant AllJustified(req, start.alloc, start.withSpace, p.withSpace, l)
      invariant l.bytes == BlockItems(req)[..n - i]
    {
      i := i - 1;
      if req.blocks[i].Some? {
        size := req.blocks[i].value;
      }
      p, l := PlaceBlock(req, p, i, size, start.alloc, start.overflow, start.withSpace, l);
    }
  }

  /** The GPU tried for the last layer when j of the listed ones are still to be tried. */
  function LastTrial(p: Placement, j: nat): int
    requires 0 < j <= |p.withSpace|
  {
    p.withSpace[p.count % j]
  }

  /** The first GPU tried that has room for the last layer, or -1 if none of those tried has. */
  ghost predicate LastChoice(req: Request, p: Placement, g: int)
    requires |p.alloc| == |req.gpus| && InRange(p.withSpace, |req.gpus|)
  {
    if g == -1 then forall j | 0 < j <= |p.withSpace| :: !Fits(req, p.alloc, LastTrial(p, j), req.lastLayer)
    else
      exists j | 0 < j <= |p.withSpace| ::
        && g == LastTrial(p, j) && Fits(req, p.alloc, g, req.lastLayer)
        && forall i | j < i <= |p.withSpace| :: !Fits(req, p.alloc, LastTrial(p, i), req.lastLayer)
  }

  /** A GPU for the last layer, trying them in rotation without dropping any; -1 if it fits on none of those tried. */
  method ChooseLast(req: Request, p: Placement) returns (g: int)
    requires |p.alloc| == |req.gpus| && InRange(p.withSpace, |req.gpus|)
    ensures LastChoice(req, p, g)
    ensures g != -1 ==> 0 <= g < |req.gpus| && p.withSpace != [] && Fits(req, p.alloc, g, req.lastLayer)
  {
    var j := |p.withSpace|;
    while j > 0
      invariant 0 <= j <= |p.withSpace|
      invariant forall i | j < i <= |p.withSpace| :: !Fits(req, p.alloc, LastTrial(p, i), req.lastLayer)
    {
      g := p.withSpace[p.count % j];
      if Fits(req, p.alloc, g, req.lastLayer) {
        assert g == LastTrial(p, j);
        return;
      }
      j := j - 1;
    }
    g := -1;
  }

  /** Not all GPUs are tried: with none of three placed on yet, the first is tried three times, and the last layer is
      left to system memory although it fits on the others. */
  lemma LastMissed()
    ensures var req := Request([Gpu(5, 0), Gpu(100, 0), Gpu(100, 0)], 0, 0, 0, 0, 0, [], 9, -1);
            var p := Placement([0, 0, 0], [0, 0, 0], [0, 1, 2], 0, 0);
            && Filtered(req, p.withSpace, 3) && LastChoice(req, p, -1)
            && Fits(req, p.alloc, 1, req.lastLayer) && Fits(req, p.alloc, 2, req.lastLayer)
  {
    var p := Placement([0, 0, 0], [0, 0, 0], [0, 1, 2], 0, 0);
    assert forall j | 0 < j <= 3 :: LastTrial(p, j) == 0;
    assert p.withSpace[0] == 0 && p.withSpace[1] == 1 && p.withSpace[2] == 2;
  }

  /** Places the last layer. It is counted exactly once: only a model whose blocks are all placed has it on a GPU. */
  method PlaceLast(req: Request, p: Placement, ghost base: seq<nat>, ghost baseOverflow: nat, ghost l: Ledger)
    returns (p': Placement, fullyLoaded: bool, ghost l': Ledger)
    requires Balanced(req, base, baseOverflow, p, l) && InBudget(req, p) && Closed(req, p, l)
    requires l.bytes == BlockItems(req)
    ensures Balanced(req, base, baseOverflow, p', l') && InBudget(req, p')
    ensures l'.bytes == Items(req)
    ensures fullyLoaded <==> l'.Count(-1) == 0
    ensures req.lastLayer == 0 ==> p' == p && l' == l
    ensures req.lastLayer > 0 ==>
      && l' == l.Add(req.lastLayer, l'.gpu[|l.gpu|])
      && if req.numGpu >= 0 && p.count >= req.numGpu then l'.gpu[|l.gpu|] == -1 else LastChoice(req, p, l'.gpu[|l.gpu|])
  {
    var n := |req.blocks|;
    p', l' := p, l;
    fullyLoaded := p.count >= n;
    if req.lastLayer > 0 {
      var g := -1;
      if req.numGpu < 0 || p.count < req.numGpu {
        g := ChooseLast(req, p);
        if g >= 0 {
          PutKeeps(req, base, baseOverflow, p, l, g, req.lastLayer);
          p' := Put(p, g, req.lastLayer);
        }
      }
      l.AddOn(req.lastLayer, g, -1);
      if p'.count < n + 1 {
        SpillKeeps(req, base, baseOverflow, p, l, req.lastLayer);
        fullyLoaded := false;
        p' := p'.(overflow := p'.overflow + req.lastLayer);
      }
      l' := l.Add(req.lastLayer, g);
    } else {
      assert Items(req) == BlockItems(req);
    }
  }

  // ----- The estimate -----

  function WithGraph(alloc: seq<nat>, split: seq<nat>, graph: nat): (r: seq<nat>)
    requires |alloc| == |split|
    ensures |r| == |alloc|
  {
    seq(|alloc|, g requires 0 <= g < |alloc| => alloc[g] + if split[g] > 0 then graph else 0)
  }

  method AddGraph(alloc: seq<nat>, split: seq<nat>, graph: nat) returns (r: seq<nat>)
    requires |alloc| == |split|
    ensures r == WithGraph(alloc, split, graph)
  {
    r := alloc;
    for i := 0 to |alloc|
      invariant |r| == |alloc|
      invariant forall g | 0 <= g < i :: r[g] == WithGraph(alloc, split, graph)[g]
      invariant forall g | i <= g < |alloc| :: r[g] == alloc[g]
    {
      if split[i] > 0 {
        r := r[i := r[i] + graph];
      }
    }
  }

  method Total(s: seq<nat>) returns (t: nat)
    ensures t == Sum(s)
  {
    t := 0;
    for i := 0 to |s|
      invariant t == SumTo(s, i)
    {
      t := t + s[i];
    }
  }

  /** One graph for each of the first n GPUs that has a layer. */
  function Graphs(split: seq<nat>, graph: nat, n: nat): nat
    requires n <= |split|
  {
    if n == 0 then 0 else Graphs(split, graph, n - 1) + if split[n - 1] > 0 then graph else 0
  }

  lemma {:induction false} SizesAddUp(base: seq<nat>, alloc: seq<nat>, split: seq<nat>, l: Ledger, graph: nat, n: nat)
    requires |base| == |alloc| == |split| && n <= |base| && |l.bytes| == |l.gpu|
    requires forall g | 0 <= g < |base| :: alloc[g] == base[g] + l.On(g) && split[g] == l.Count(g)
    ensures SumTo(WithGraph(alloc, split, graph), n) == SumTo(base, n) + OnAll(l, n) + Graphs(split, graph, n)
    ensures SumTo(split, n) == CountAll(l, n)
  {
    if n > 0 {
      SizesAddUp(base, alloc, split, l, graph, n - 1);
    }
  }

  lemma {:induction false} NoGraphs(split: seq<nat>, graph: nat, n: nat)
    requires n <= |split| && SumTo(split, n) == 0
    ensures Graphs(split, graph, n) == 0
  {
    if n > 0 {
      NoGraphs(split, graph, n - 1);
    }
  }

  /** Every item is counted once, on one GPU or in the overflow, next to the base allocations and the graphs. */
  ghost predicate Conserved(req: Request, e: Estimate, base: seq<nat>, baseOverflow: nat, l: Ledger) {
    && l.Valid(|req.gpus|) && l.bytes == Items(req)
    && e.layers == |Items(req)| - l.Count(-1)
    && e.total == Sum(base) + baseOverflow + Sum(Items(req)) + Graphs(e.split, e.graph, |e.split|)
  }

  /** Each GPU carries its base, its items and, if it has any, the graph, all below its free memory. */
  ghost predicate Budgeted(req: Request, e: Estimate, base: seq<nat>, l: Ledger)
    requires |l.bytes| == |l.gpu|
  {
    && |e.sizes| == |e.split| == |req.gpus| == |base|
    && (forall g | 0 <= g < |base| :: e.split[g] == l.Count(g) &&
          e.sizes[g] == base[g] + l.On(g) + (if e.split[g] > 0 then e.graph else 0))
    && (forall g | 0 <= g < |base| :: e.split[g] > 0 ==> req.overhead + e.sizes[g] < req.gpus[g].free)
    && Sum(e.split) == e.layers && e.vram == Sum(e.sizes)
    && e.graph == if l.Count(-1) == 0 then req.graphFull else req.graphPartial
  }

  lemma FinalBudget(req: Request, base: seq<nat>, baseOverflow: nat, p: Placement, l: Ledger, graph: nat, e: Estimate)
    requires Balanced(req, base, baseOverflow, p, l) && InBudget(req, p) && l.bytes == Items(req)
    requires graph == if l.Count(-1) == 0 then req.graphFull else req.graphPartial
    requires e.split == p.split && e.sizes == WithGraph(p.alloc, p.split, graph) && e.layers == p.count
    requires e.graph == graph
    requires e.vram == Sum(e.sizes) && e.total == e.vram + p.overflow
    ensures Budgeted(req, e, base, l) && Conserved(req, e, base, baseOverflow, l)
  {
    var n := |req.gpus|;
    SizesAddUp(base, p.alloc, p.split, l, graph, n);
    LedgerConserves(l, n);
  }

  /** Why the blocks are where they are. */
  ghost predicate BlocksJustified(req: Request, base: seq<nat>, usable: seq<int>, l: Ledger)
    requires |base| == |req.gpus| && InRange(usable, |req.gpus|) && |l.bytes| == |l.gpu| >= |req.blocks|
  {
    forall k: nat | k < |req.blocks| :: Justified(req, base, usable, l, k)
  }

  /** What GPUs carry before any layer, and what of it goes to system memory. */
  ghost predicate Based(req: Request, usable: seq<int>, base: seq<nat>, baseOverflow: nat) {
    && Filtered(req, usable, |req.gpus|) && BaseFits(req, base, baseOverflow)
    && (forall g | 0 <= g < |req.gpus| :: base[g] == Base(req, usable, g))
    && baseOverflow == if usable == [] then req.gpuZeroOverhead else 0
  }

  /** The estimate. The ledger says where each item went, and every block is where it is for a reason; base is what
      usable GPUs carry before any layer. The split adds up to the layers, which never exceed a request. */
  method EstimateLayers(req: Request)
    returns (e: Estimate, ghost usable: seq<int>, ghost base: seq<nat>, ghost baseOverflow: nat, ghost l: Ledger)
    ensures Based(req, usable, base, baseOverflow) && Conserved(req, e, base, baseOverflow, l)
    ensures BlocksJustified(req, base, usable, l)
    ensures req.numGpu >= 0 ==> e.layers <= req.numGpu
    ensures e.layers > 0 ==> Budgeted(req, e, base, l)
    ensures e.layers == 0 ==> e.split == [] && e.sizes == [] && e.vram == 0 && e.graph == 0
  {
    var p, fullyLoaded;
    p, fullyLoaded, usable, base, baseOverflow, l := PlaceAll(req);
    e := Summarize(req, p, fullyLoaded, base, baseOverflow, l);
  }

  /** Where everything goes: the base, the blocks, the last layer. */
  ghost predicate AllPlaced(req: Request, p: Placement, fullyLoaded: bool, base: seq<nat>, baseOverflow: nat,
                            l: Ledger) {
    && Balanced(req, base, baseOverflow, p, l) && InBudget(req, p) && l.bytes == Items(req)
    && (fullyLoaded <==> l.Count(-1) == 0)
  }

  method PlaceAll(req: Request)
    returns (p: Placement, fullyLoaded: bool, ghost usable: seq<int>, ghost base: seq<nat>, ghost baseOverflow: nat,
             ghost l: Ledger)
    ensures InBudget(req, p) && (req.numGpu >= 0 ==> p.count <= req.numGpu)
    ensures Based(req, usable, base, baseOverflow) && AllPlaced(req, p, fullyLoaded, base, baseOverflow, l)
    ensures BlocksJustified(req, base, usable, l)
  {
    var start := FilterGpus(req);
    usable, base, baseOverflow := start.withSpace, start.alloc, start.overflow;
    p, l := PlaceBlocks(req, start);
    ghost var blocks := l;
    p, fullyLoaded, l := PlaceLast(req, p, base, baseOverflow, l);
    LastAdded(req, base, usable, blocks, l);
  }

  lemma LastAdded(req: Request, base: seq<nat>, usable: seq<int>, l: Ledger, l': Ledger)
    requires |base| == |req.gpus| && InRange(usable, |req.gpus|) && |l.bytes| == |l.gpu| == |req.blocks|
    requires BlocksJustified(req, base, usable, l)
    requires l' == l || (|l'.gpu| > |l.gpu| && l' == l.Add(req.lastLayer, l'.gpu[|l.gpu|]))
    ensures BlocksJustified(req, base, usable, l')
  {
    if l' != l {
      forall k: nat | k < |req.blocks|
        ensures Justified(req, base, usable, l', k)
      {
        StillJustified(req, base, usable, l, req.lastLayer, l'.gpu[|l.gpu|], k);
      }
    }
  }

  /** Adds the graphs and the totals; without a layer on any GPU the estimate is about system memory alone. */
  method Summarize(req: Request, p: Placement, fullyLoaded: bool, ghost base: seq<nat>, ghost baseOverflow: nat,
                   ghost l: Ledger)
    returns (e: Estimate)
    requires AllPlaced(req, p, fullyLoaded, base, baseOverflow, l)
    ensures Conserved(req, e, base, baseOverflow, l)
    ensures req.numGpu >= 0 ==> e.layers <= req.numGpu
    ensures e.layers > 0 ==> Budgeted(req, e, base, l)
    ensures e.layers == 0 ==> e.split == [] && e.sizes == [] && e.vram == 0 && e.graph == 0
  {
    var graph := if fullyLoaded then req.graphFull else req.graphPartial;
    var sizes := AddGraph(p.alloc, p.split, graph);
    var partial := Total(sizes);
    e := Estimate(p.count, graph, partial, partial + p.overflow, p.split, sizes);
    FinalBudget(req, base, baseOverflow, p, l, graph, e);
    if |req.gpus| == 0 || p.count == 0 {
      NoGraphs(p.split, graph, |p.split|);
      e := Estimate(0, 0, 0, partial + p.overflow, [], []);
    }
  }
}
