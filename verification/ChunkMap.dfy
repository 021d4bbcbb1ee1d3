/** The packed bit map of memory.c, updated in place and proved against the set of marked chunks. */
module ChunkMaps {
  import opened Common
  import opened Bits
  import opened Chunks
  import opened AllocatorRuns

  ghost predicate Marked(words: seq<bv32>, c: int) {
    0 <= c < 32 * |words| && Bit(words[c / 32], c % 32)
  }

  ghost function UsedOf(words: seq<bv32>): set<int> {
    set c | 0 <= c < 32 * |words| && Marked(words, c)
  }

  lemma InMap(words: seq<bv32>)
    requires |words| == MAP_WORDS
    ensures forall c :: c in UsedOf(words) ==> 0 <= c < MAP_CHUNKS
  {}

  /** A word that differs from the old one in one bit changes the marked set by one chunk. */
  lemma ChangedWord(words: seq<bv32>, chunk: int, w: bv32, mark: bool)
    requires 0 <= chunk < 32 * |words|
    requires forall j: nat :: j < 32 ==>
      Bit(w, j) == if j == chunk % 32 then mark else Bit(words[chunk / 32], j)
    ensures UsedOf(words[chunk / 32 := w])
         == if mark then UsedOf(words) + {chunk} else UsedOf(words) - {chunk}
  {
    hide Bit;
    var after := words[chunk / 32 := w];
    forall c ensures Marked(after, c) == if c == chunk then mark else Marked(words, c) {
      if 0 <= c < 32 * |words| && c / 32 == chunk / 32 {
        assert (c % 32 == chunk % 32) == (c == chunk);
      }
    }
  }

  /** Free chunks among the first k. */
  ghost function FreeBelow(used: set<int>, k: nat): nat {
    if k == 0 then 0 else FreeBelow(used, k - 1) + if k - 1 in used then 0 else 1
  }

  /** Free chunks and marked chunks below k add up to k. */
  lemma {:induction false} FreePlusUsed(used: set<int>, k: nat)
    ensures FreeBelow(used, k) + |set c | c in used && 0 <= c < k| == k
  {
    var below := set c | c in used && 0 <= c < k;
    if k > 0 {
      FreePlusUsed(used, k - 1);
      var rest := set c | c in used && 0 <= c < k - 1;
      assert below == if k - 1 in used then rest + {k - 1} else rest;
    } else {
      assert below == {};
    }
  }

  /** Under a ledger within the limit, the free chunks are all but the reserved ones and those of live blocks. */
  lemma FreeOfLedger(h: Heap, reserved: set<int>, limit: nat)
    requires Ledger(h, reserved) && InLimit(h.live, limit) && forall c :: c in reserved ==> 0 <= c < limit
    ensures FreeBelow(h.used, limit) == limit - |reserved| - Total(h.live)
    ensures h.used == reserved + Union(h.live)
  {
    FreePlusUsed(h.used, limit);
    LedgerCount(h, reserved);
    forall c | c in h.used ensures 0 <= c < limit {
      UnionOf(h.live, c);
    }
    assert (set c | c in h.used && 0 <= c < limit) == h.used;
  }

  lemma ReservedUsed(h: Heap, reserved: set<int>, c: int)
    requires Ledger(h, reserved) && c in reserved
    ensures c in h.used
  {}

  lemma PlacedFree(used: set<int>, size: nat, region: Region, maxChunk: nat)
    ensures match Placed(used, size, region, maxChunk)
            case Some(i) => i >= 0 && i !in used && i * CHUNK_SIZE / CHUNK_SIZE == i case None => true
  {}

  /** A block's own address and length in bytes are counted back as its chunks. */
  lemma WholeChunks(first: int, n: nat)
    requires first >= 0 && n >= 1
    ensures first * CHUNK_SIZE / CHUNK_SIZE == first && FreedChunks(n * CHUNK_SIZE) == n
  {}

  class ChunkMap {
    const memoryMap: array<bv32>

    var maxChunk: nat

    ghost predicate Valid()
      reads this
    {
      memoryMap.Length == MAP_WORDS && maxChunk <= MAP_CHUNKS
    }

    ghost function Used(): set<int>
      reads this, memoryMap
    {
      UsedOf(memoryMap[..])
    }

    constructor ()
      ensures Valid() && fresh(memoryMap) && Used() == {} && maxChunk == 0
    {
      memoryMap := new bv32[MAP_WORDS](_ => 0);
      maxChunk := 0;
      new;
      assert forall c :: 0 <= c < 32 * MAP_WORDS ==> !Marked(memoryMap[..], c);
    }

    method MarkUsed(chunk: int)
      requires Valid() && 0 <= chunk < MAP_CHUNKS
      modifies memoryMap
      ensures Used() == old(Used()) + {chunk}
    {
      var element, bit := chunk / 32, chunk % 32;
      hide Bit, Mask, UsedOf;
      var word := memoryMap[element] | Mask(bit);
      SetBit(memoryMap[element], word, bit);
      ChangedWord(memoryMap[..], chunk, word, true);
      memoryMap[element] := word;
      assert memoryMap[..] == old(memoryMap[..])[element := memoryMap[element]];
    }

    method MarkFree(chunk: int)
      requires Valid() && 0 <= chunk < MAP_CHUNKS
      modifies memoryMap
      ensures Used() == old(Used()) - {chunk}
    {
      var element, bit := chunk / 32, chunk % 32;
      hide Bit, Mask, UsedOf;
      var word := memoryMap[element] & !Mask(bit);
      ClearBit(memoryMap[element], word, bit);
      ChangedWord(memoryMap[..], chunk, word, false);
      memoryMap[element] := word;
      assert memoryMap[..] == old(memoryMap[..])[element := memoryMap[element]];
    }

    /** `beyond` stands for whatever the bits past the end of the map hold. */
    method TestUsed(chunk: nat, beyond: nat -> bool) returns (used: bool)
      requires Valid()
      ensures used == if chunk < MAP_CHUNKS then chunk in Used() else beyond(chunk)
    {
      if chunk >= MAP_CHUNKS {
        return beyond(chunk);
      }
      var element, bit := chunk / 32, chunk % 32;
      used := Hit(memoryMap[element], Mask(bit));
      assert Marked(memoryMap[..], chunk) == used;
    }

    /** The search returns the exact first fit, whatever lies past the end of the map. */
    method FindFree(numChunks: nat, start: nat, end: nat, beyond: nat -> bool) returns (r: int)
      requires Valid() && 1 <= numChunks && end <= MAP_CHUNKS
      ensures match FirstFit(Used(), numChunks, start, end)
              case Some(i) => r == i
              case None => r == -ENOMEM
      ensures r >= 0 ==> start <= r && r + numChunks < end
    {
      var i := start;
      while i < end
        invariant start <= i
        invariant forall k :: start <= k < i && k < end ==> !Fits(Used(), numChunks, k, end)
        decreases end - i
      {
        var first := TestUsed(i, beyond);
        if !first {
          var j := 0;
          while j < numChunks
            invariant 0 <= j <= numChunks
            invariant forall k :: i <= k < i + j && k < MAP_CHUNKS ==> k !in Used()
          {
            var next := TestUsed(i + j, beyond);
            if next { break; }
            j := j + 1;
          }
          if j == numChunks && i + j < end {
            assert Fits(Used(), numChunks, i, end);
            FirstFitSkips(Used(), numChunks, start, i, end);
            return i;
          }
          assert j < numChunks && i + j < MAP_CHUNKS ==> i + j in Range(i, numChunks);
        }
        i := i + 1;
      }
      if start < end {
        FirstFitSkips(Used(), numChunks, start, end, end);
      }
      return -ENOMEM;
    }

    /** Bytes free: every unmarked chunk below maxChunk, once. */
    method TotalFree() returns (total: nat)
      requires Valid()
      ensures total == FreeBelow(Used(), maxChunk) * CHUNK_SIZE
    {
      var free := 0;
      var i := 0;
      while i < maxChunk
        invariant 0 <= i <= maxChunk
        invariant free == FreeBelow(Used(), i)
      {
        var used := TestUsed(i, _ => false);
        if !used { free := free + 1; }
        i := i + 1;
      }
      total := free * CHUNK_SIZE;
    }

    /** The marking loop of memory_allocate. */
    method MarkRange(firstChunk: int, numChunks: nat)
      requires Valid() && 0 <= firstChunk && firstChunk + numChunks <= MAP_CHUNKS
      modifies memoryMap
      ensures Used() == old(Used()) + Range(firstChunk, numChunks)
    {
      hide UsedOf;
      var i := 0;
      while i < numChunks
        invariant 0 <= i <= numChunks
        invariant Used() == old(Used()) + Range(firstChunk, i)
      {
        MarkUsed(firstChunk + i);
        i := i + 1;
      }
    }

    /** Returns the address of the first chunk, or 0. Only the chunks of the block handed out become marked. */
    method Allocate(size: nat, region: Region, beyond: nat -> bool) returns (address: nat)
      requires Valid()
      modifies memoryMap
      ensures match Placed(old(Used()), size, region, maxChunk)
              case None => address == 0 && Used() == old(Used())
              case Some(i) =>
                && address == i * CHUNK_SIZE
                && Used() == old(Used()) + Range(i, BlockChunks(size))
    {
      hide UsedOf, Fits, FirstFit;
      var bytes := if size == 0 then 1 else size;
      var numChunks := (bytes - 1) / CHUNK_SIZE + 1;
      var start, end := 0, 0;
      match region {
        case KernelRegion => start, end := 0, RESERVED_KERNEL / CHUNK_SIZE;
        case UserRegion => start, end := RESERVED_KERNEL / CHUNK_SIZE, maxChunk;
        case UnknownRegion => return 0;
      }
      var firstChunk := FindFree(numChunks, start, end, beyond);
      if firstChunk < 0 {
        return 0;
      }
      MarkRange(firstChunk, numChunks);
      address := firstChunk * CHUNK_SIZE;
    }

    /** Unmarks exactly the chunks counted from the location on. Bits behind the end of the map are not part of the
        model, so neither is clearing them. */
    method Free(location: nat, size: nat)
      requires Valid()
      modifies memoryMap
      ensures Used() == old(Used()) - Range(location / CHUNK_SIZE, FreedChunks(size))
    {
      hide UsedOf;
      var numChunks := if size == 0 then 0xffff_ffff / CHUNK_SIZE + 1 else (size - 1) / CHUNK_SIZE + 1;
      var firstChunk := location / CHUNK_SIZE;
      var i := 0;
      InMap(memoryMap[..]);
      while i < numChunks
        invariant 0 <= i <= numChunks
        invariant Used() == old(Used()) - Range(firstChunk, i)
      {
        if firstChunk + i < MAP_CHUNKS {
          MarkFree(firstChunk + i);
        }
        i := i + 1;
      }
    }

    ghost predicate Running(live: seq<Block>, reserved: set<int>)
      reads this, memoryMap
    {
      && Ledger(Heap(Used(), live), reserved) && InLimit(live, maxChunk)
      && 0 in reserved && (forall c :: c in reserved ==> 0 <= c < maxChunk) && RESERVED_CHUNKS <= maxChunk
    }

    /** One operation of a run, on the packed map. Chunk 0, whose address is NULL, is one of the reserved chunks. */
    method Perform(op: Op, live: seq<Block>, ghost reserved: set<int>, beyond: nat -> bool) returns (now: seq<Block>)
      requires Valid() && Running(live, reserved)
      modifies memoryMap
      ensures Heap(Used(), now) == Step(Heap(old(Used()), live), op, maxChunk)
      ensures Running(now, reserved)
    {
      hide UsedOf, FirstFit, Ledger, NumChunks, BlockChunks, FreedChunks;
      ghost var h := Heap(Used(), live);
      StepInLimit(h, op, maxChunk);
      StepKeepsLedger(h, op, maxChunk, reserved);
      match op {
        case Allocate(size, region) =>
          ReservedUsed(h, reserved, 0);
          PlacedFree(Used(), size, region, maxChunk);
          var address := Allocate(size, region, beyond);
          now := if address == 0 then live else live + [Block(address / CHUNK_SIZE, BlockChunks(size))];
        case Release(k) =>
          now := live;
          if k < |live| {
            WholeChunks(live[k].first, live[k].n);
            Free(live[k].first * CHUNK_SIZE, live[k].n * CHUNK_SIZE);
            now := live[..k] + live[k + 1..];
          }
      }
    }

    /** Any sequence of allocations and frees, and what memory_total_free() then reports: the map is the reserved
        chunks and the disjoint live blocks, and every other chunk is free. */
    method PerformAll(ops: seq<Op>, ghost reserved: set<int>, beyond: nat -> bool) returns (live: seq<Block>, free: nat)
      requires Valid() && Running([], reserved)
      modifies memoryMap
      ensures Heap(Used(), live) == Run(Heap(old(Used()), []), ops, maxChunk)
      ensures Running(live, reserved) && Used() == reserved + Union(live)
      ensures free == (maxChunk - |reserved| - Total(live)) * CHUNK_SIZE
    {
      hide UsedOf, Step, InLimit, Ledger, FreeBelow;
      live := [];
      var i := 0;
      while i < |ops|
        invariant 0 <= i <= |ops| && Valid() && Running(live, reserved)
        invariant Run(Heap(Used(), live), ops[i..], maxChunk) == Run(Heap(old(Used()), []), ops, maxChunk)
      {
        live := Perform(ops[i], live, reserved, beyond);
        i := i + 1;
      }
      assert ops[i..] == [];
      free := TotalFree();
      FreeOfLedger(Heap(Used(), live), reserved, maxChunk);
    }

    /** The limit, and the kernel's own chunks marked. What was marked from the last whole word on stays marked. */
    method Init(memoryTotal: nat, memoryKernel: nat) returns (r: int)
      requires Valid()
      modifies this, memoryMap
      ensures Valid()
      ensures r == if memoryTotal > MAX_MEMORY || memoryKernel > RESERVED_KERNEL
                      || memoryTotal % CHUNK_SIZE != 0 || memoryKernel % CHUNK_SIZE != 0 then -ENOMEM else 0
      ensures if memoryTotal > MAX_MEMORY || memoryKernel > RESERVED_KERNEL || memoryTotal % CHUNK_SIZE != 0 then
                maxChunk == old(maxChunk) && Used() == old(Used())
              else
                && maxChunk == memoryTotal / CHUNK_SIZE
                && Used() == (set c | c in old(Used()) && c >= memoryTotal / CHUNK_SIZE / 32 * 32)
                             + (if r == 0 then Range(0, memoryKernel / CHUNK_SIZE) else {})
    {
      if memoryTotal > MAX_MEMORY || memoryKernel > RESERVED_KERNEL || memoryTotal % CHUNK_SIZE != 0 {
        return -ENOMEM;
      }
      maxChunk := memoryTotal / CHUNK_SIZE;
      var i := 0;
      while i < maxChunk / 32
        invariant Valid() && maxChunk == memoryTotal / CHUNK_SIZE && 0 <= i <= maxChunk / 32
        invariant forall k :: 0 <= k < i ==> memoryMap[k] == 0
        invariant forall k :: i <= k < MAP_WORDS ==> memoryMap[k] == old(memoryMap[k])
      {
        memoryMap[i] := 0;
        i := i + 1;
      }
      ghost var kept := set c | c in old(Used()) && c >= maxChunk / 32 * 32;
      assert forall c :: 0 <= c < MAP_CHUNKS ==>
               Marked(memoryMap[..], c) == (c / 32 >= i && Marked(old(memoryMap[..]), c));
      assert Used() == kept;
      if memoryKernel % CHUNK_SIZE != 0 {
        return -ENOMEM;
      }
      i := 0;
      while i < memoryKernel / CHUNK_SIZE
        invariant Valid() && maxChunk == memoryTotal / CHUNK_SIZE && 0 <= i <= memoryKernel / CHUNK_SIZE
        invariant Used() == kept + Range(0, i)
      {
        MarkUsed(i);
        i := i + 1;
      }
      return 0;
    }
  }
}
