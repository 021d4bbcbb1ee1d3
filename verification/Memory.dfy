/** The chunk allocator: which chunks a first-fit search takes, and the packed bit map that records them. */
module Chunks {
  import opened Common

  const CHUNK_SIZE := 4096
  const MAP_WORDS := 8192
  const MAP_CHUNKS := 262144
  const RESERVED_CHUNKS := 4096
  const MAX_MEMORY := 0x4000_0000
  const RESERVED_KERNEL := 0x100_0000

  /** The chunks of the 32-bit address space. */
  const ADDRESS_CHUNKS := 0x10_0000

  datatype Region = KernelRegion | UserRegion | UnknownRegion

  predicate InBlock(c: int, a: int, n: int) {
    a <= c < a + n
  }

  /** The n chunks starting at chunk a. */
  function Range(a: int, n: int): set<int> {
    set c | a <= c < a + n && InBlock(c, a, n)
  }

  /** Chunks needed for `size` bytes. */
  function NumChunks(size: nat): (n: nat)
    requires 1 <= size
    ensures 1 <= n && (n - 1) * CHUNK_SIZE < size <= n * CHUNK_SIZE
  {
    (size - 1) / CHUNK_SIZE + 1
  }

  /** The chunks of an allocated block; a size of 0 counts as 1. */
  function BlockChunks(size: nat): (n: nat)
    ensures n >= 1
  {
    NumChunks(if size == 0 then 1 else size)
  }

  /** The chunks memory_free counts for `size` bytes, by the same formula in 32 unsigned bits: for 0 the subtraction
      wraps. */
  function FreedChunks(size: nat): nat {
    if size == 0 then 0xffff_ffff / CHUNK_SIZE + 1 else NumChunks(size)
  }

  /** The test find_free applies to chunk i. The upper bound is strict: a run that ends exactly at `end` is not
      taken. */
  predicate Fits(used: set<int>, n: nat, i: int, end: int) {
    i !in used && Range(i, n) !! used && i + n < end
  }

  /** First fit is exact: the least chunk that fits, and None only when no chunk fits. */
  function {:induction false} FirstFit(used: set<int>, n: nat, start: int, end: int): (r: Option<int>)
    ensures r.Some? ==> start <= r.value < end && Fits(used, n, r.value, end)
    ensures r.Some? ==> forall k :: start <= k < r.value ==> !Fits(used, n, k, end)
    ensures r.None? ==> forall k :: start <= k < end ==> !Fits(used, n, k, end)
    decreases end - start
  {
    if start >= end then None
    else if Fits(used, n, start, end) then Some(start)
    else FirstFit(used, n, start + 1, end)
  }

  /** A fit found later is a fit of the whole search when everything before it was refused. */
  lemma {:induction false} FirstFitSkips(used: set<int>, n: nat, start: int, mid: int, end: int)
    requires start <= mid
    requires forall k :: start <= k < mid && k < end ==> !Fits(used, n, k, end)
    ensures FirstFit(used, n, start, end) == FirstFit(used, n, mid, end)
    decreases mid - start
  {
    if start < mid {
      FirstFitSkips(used, n, start + 1, mid, end);
    }
  }

  function RegionStart(region: Region): int {
    if region.KernelRegion? then 0 else RESERVED_CHUNKS
  }

  function RegionEnd(region: Region, maxChunk: nat): int {
    if region.KernelRegion? then RESERVED_CHUNKS else maxChunk
  }

  /** The first chunk memory_allocate hands out for `size` bytes; a size of 0 counts as 1. */
  function Placed(used: set<int>, size: nat, region: Region, maxChunk: nat): Option<int> {
    if region.UnknownRegion? then None
    else FirstFit(used, BlockChunks(size), RegionStart(region), RegionEnd(region, maxChunk))
  }

  lemma RangeSize(a: int, n: nat)
    ensures |Range(a, n)| == n
  {
    if n == 0 {
      assert Range(a, n) == {};
    } else {
      RangeSize(a, n - 1);
      assert Range(a, n) == Range(a, n - 1) + {a + n - 1};
    }
  }
}

/** Runs of the allocator: blocks handed out and given back, in any order. */
module AllocatorRuns {
  import opened Common
  import opened Chunks

  datatype Block = Block(first: int, n: nat)

  datatype Heap = Heap(used: set<int>, live: seq<Block>)

  /** Allocate, or release the k-th live block with a size that has as many chunks. */
  datatype Op = Allocate(size: nat, region: Region) | Release(k: nat)

  function Step(h: Heap, op: Op, maxChunk: nat): Heap {
    match op
    case Allocate(size, region) =>
      (match Placed(h.used, size, region, maxChunk)
       case None => h
       case Some(i) => Heap(h.used + Range(i, BlockChunks(size)), h.live + [Block(i, BlockChunks(size))]))
    case Release(k) =>
      if k >= |h.live| then h
      else Heap(h.used - Range(h.live[k].first, h.live[k].n), h.live[..k] + h.live[k + 1..])
  }

  function Run(h: Heap, ops: seq<Op>, maxChunk: nat): Heap
    decreases |ops|
  {
    if ops == [] then h else Run(Step(h, ops[0], maxChunk), ops[1..], maxChunk)
  }

  function Span(b: Block): set<int> {
    Range(b.first, b.n)
  }

  function Union(live: seq<Block>): set<int> {
    if live == [] then {} else Span(live[0]) + Union(live[1..])
  }

  function Total(live: seq<Block>): nat {
    if live == [] then 0 else live[0].n + Total(live[1..])
  }

  /** The live blocks are pairwise disjoint, apart from the reserved chunks, and together with them are exactly what
      is marked. */
  ghost predicate Ledger(h: Heap, reserved: set<int>) {
    && (forall j, k :: 0 <= j < k < |h.live| ==> Span(h.live[j]) !! Span(h.live[k]))
    && (forall j :: 0 <= j < |h.live| ==> Span(h.live[j]) !! reserved)
    && h.used == reserved + Union(h.live)
  }

  lemma {:induction false} UnionOf(live: seq<Block>, c: int)
    ensures c in Union(live) <==> exists j :: 0 <= j < |live| && c in Span(live[j])
  {
    if live != [] {
      UnionOf(live[1..], c);
      if c in Union(live[1..]) {
        var j :| 0 <= j < |live[1..]| && c in Span(live[1..][j]);
        assert c in Span(live[j + 1]);
      }
      if j :| 0 <= j < |live| && c in Span(live[j]) && j > 0 {
        assert c in Span(live[1..][j - 1]);
      }
    }
  }

  lemma {:induction false} UnionAppend(live: seq<Block>, b: Block)
    ensures Union(live + [b]) == Union(live) + Span(b)
  {
    if live == [] {
      assert live + [b] == [b];
    } else {
      UnionAppend(live[1..], b);
      assert (live + [b])[1..] == live[1..] + [b];
    }
  }

  lemma {:induction false} UnionRemove(live: seq<Block>, k: nat)
    requires k < |live|
    requires forall i, j :: 0 <= i < j < |live| ==> Span(live[i]) !! Span(live[j])
    ensures Union(live[..k] + live[k + 1..]) == Union(live) - Span(live[k])
  {
    var rest := live[..k] + live[k + 1..];
    forall c ensures c in Union(rest) <==> c in Union(live) && c !in Span(live[k]) {
      UnionOf(live, c);
      UnionOf(rest, c);
      assert forall j :: 0 <= j < |rest| ==> rest[j] == live[if j < k then j else j + 1];
      if j :| 0 <= j < |live| && c in Span(live[j]) && j != k {
        assert c in Span(rest[if j < k then j else j - 1]);
      }
    }
  }

  lemma BlocksAreUsed(h: Heap, reserved: set<int>, b: Block)
    requires Ledger(h, reserved) && Span(b) !! h.used
    ensures forall j :: 0 <= j < |h.live| ==> Span(h.live[j]) !! Span(b)
  {
    forall j | 0 <= j < |h.live| ensures Span(h.live[j]) !! Span(b) {
      forall c | c in Span(h.live[j]) ensures c in h.used {
        UnionOf(h.live, c);
      }
    }
  }

  lemma AllocateKeepsLedger(h: Heap, b: Block, reserved: set<int>)
    requires Ledger(h, reserved) && Span(b) !! h.used
    ensures Ledger(Heap(h.used + Span(b), h.live + [b]), reserved)
  {
    UnionAppend(h.live, b);
    BlocksAreUsed(h, reserved, b);
  }

  lemma ReleaseKeepsLedger(h: Heap, k: nat, reserved: set<int>)
    requires Ledger(h, reserved) && k < |h.live|
    ensures Ledger(Heap(h.used - Span(h.live[k]), h.live[..k] + h.live[k + 1..]), reserved)
  {
    UnionRemove(h.live, k);
    var rest := h.live[..k] + h.live[k + 1..];
    assert forall j :: 0 <= j < |rest| ==> rest[j] == h.live[if j < k then j else j + 1];
  }

  lemma StepKeepsLedger(h: Heap, op: Op, maxChunk: nat, reserved: set<int>)
    requires Ledger(h, reserved)
    ensures Ledger(Step(h, op, maxChunk), reserved)
  {
    hide Ledger;
    match op
    case Allocate(size, region) =>
      if Placed(h.used, size, region, maxChunk).Some? {
        AllocateKeepsLedger(h, Block(Placed(h.used, size, region, maxChunk).value, BlockChunks(size)), reserved);
      }
    case Release(k) =>
      if k < |h.live| {
        ReleaseKeepsLedger(h, k, reserved);
      }
  }

  /** Over every run, the marked chunks are the reserved ones and the disjoint union of the live blocks. */
  lemma {:induction false} RunKeepsLedger(h: Heap, ops: seq<Op>, maxChunk: nat, reserved: set<int>)
    requires Ledger(h, reserved)
    ensures Ledger(Run(h, ops, maxChunk), reserved)
    decreases |ops|
  {
    if ops != [] {
      StepKeepsLedger(h, ops[0], maxChunk, reserved);
      RunKeepsLedger(Step(h, ops[0], maxChunk), ops[1..], maxChunk, reserved);
    }
  }

  lemma {:induction false} LedgerSize(live: seq<Block>)
    requires forall j, k :: 0 <= j < k < |live| ==> Span(live[j]) !! Span(live[k])
    ensures |Union(live)| == Total(live)
  {
    if live != [] {
      LedgerSize(live[1..]);
      RangeSize(live[0].first, live[0].n);
      forall c | c in Union(live[1..]) ensures c !in Span(live[0]) {
        UnionOf(live[1..], c);
        var j :| 0 <= j < |live[1..]| && c in Span(live[1..][j]);
        assert c in Span(live[j + 1]);
      }
    }
  }

  /** The marked chunks number the reserved ones plus the sizes of the live blocks. */
  lemma LedgerCount(h: Heap, reserved: set<int>)
    requires Ledger(h, reserved)
    ensures |h.used| == |reserved| + Total(h.live)
  {
    LedgerSize(h.live);
    assert reserved !! Union(h.live) by {
      forall c | c in Union(h.live) ensures c !in reserved {
        UnionOf(h.live, c);
      }
    }
  }

  /** Chunks are conserved over every run. */
  lemma UsedCount(h: Heap, ops: seq<Op>, maxChunk: nat, reserved: set<int>)
    requires Ledger(h, reserved)
    ensures var h' := Run(h, ops, maxChunk); |h'.used| == |reserved| + Total(h'.live)
  {
    RunKeepsLedger(h, ops, maxChunk, reserved);
    LedgerCount(Run(h, ops, maxChunk), reserved);
  }

  /** Every live block lies in the map below the limit. */
  ghost predicate InLimit(live: seq<Block>, limit: nat) {
    forall k :: 0 <= k < |live| ==> 0 <= live[k].first && live[k].n >= 1 && live[k].first + live[k].n <= limit
  }

  /** The search never leaves its region, so blocks stay below the limit when that is not below the kernel's region. */
  lemma StepInLimit(h: Heap, op: Op, maxChunk: nat)
    requires InLimit(h.live, maxChunk) && maxChunk >= RESERVED_CHUNKS
    ensures InLimit(Step(h, op, maxChunk).live, maxChunk)
  {
    hide FirstFit, NumChunks;
    if op.Release? && op.k < |h.live| {
      var rest := h.live[..op.k] + h.live[op.k + 1..];
      assert forall j :: 0 <= j < |rest| ==> rest[j] == h.live[if j < op.k then j else j + 1];
    }
  }
}
