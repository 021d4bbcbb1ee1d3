/** Memory ownership: exactly when a step keeps the stack and text blocks of processes marked, disjoint and freed
    only by their owner, the same over whole runs, and which marked chunks no process owns. */
module KernelMemory {
  import opened Common
  import opened Processes
  import opened Descriptors
  import opened Chunks
  import opened Kernels
  import opened KernelStructure

  /** A valid block other than the idle task's, whose memory belongs to the kernel. */
  ghost predicate Holder(w: World, p: int) {
    0 <= p < |w.ps| && w.ps[p].valid && p != w.first
  }

  /** The blocks of holders are marked, a holder's two blocks are disjoint, and so are those of different holders. */
  ghost predicate MemOk(w: World) {
    && (forall p :: Holder(w, p) ==> Owned(w.ps[p]) <= w.used && StackOf(w.ps[p]) !! TextOf(w.ps[p]))
    && (forall p, q :: Holder(w, p) && Holder(w, q) && p != q ==> Owned(w.ps[p]) !! Owned(w.ps[q]))
  }

  ghost predicate HasOwner(w: World, c: int) {
    exists p :: Holder(w, p) && c in Owned(w.ps[p])
  }

  /** Marked chunks that no process owns: the kernel's, the idle task's, those from malloc, and leaked ones. */
  ghost function Unowned(w: World): set<int> {
    set c | c in w.used && !HasOwner(w, c)
  }

  ghost predicate SameMemory(w: World, w': World) {
    && |w'.ps| == |w.ps| && w'.first == w.first && w'.used == w.used
    && forall i :: 0 <= i < |w.ps| ==>
         w'.ps[i].valid == w.ps[i].valid && Owned(w'.ps[i]) == Owned(w.ps[i])
         && StackOf(w'.ps[i]) == StackOf(w.ps[i]) && TextOf(w'.ps[i]) == TextOf(w.ps[i])
  }

  lemma HoldersSame(w: World, w': World)
    requires SameMemory(w, w')
    ensures forall p :: Holder(w', p) <==> Holder(w, p)
    ensures forall c :: HasOwner(w', c) <==> HasOwner(w, c)
  {
    hide Owned, StackOf, TextOf;
    forall c ensures HasOwner(w', c) <==> HasOwner(w, c) {
      if p :| Holder(w, p) && c in Owned(w.ps[p]) {
        assert Holder(w', p) && c in Owned(w'.ps[p]);
      }
      if p :| Holder(w', p) && c in Owned(w'.ps[p]) {
        assert Holder(w, p) && c in Owned(w.ps[p]);
      }
    }
  }

  lemma SameMemoryKeeps(w: World, w': World)
    requires SameMemory(w, w')
    ensures MemOk(w) ==> MemOk(w')
    ensures Unowned(w') == Unowned(w)
  {
    hide Owned, StackOf, TextOf, HasOwner;
    HoldersSame(w, w');
  }

  // ---------------------------------------------------------------- allocation

  /** A block handed out is made of chunks that were free, and is exactly what becomes marked. */
  lemma AllocatedIsFresh(used: set<int>, size: nat, maxChunk: nat)
    ensures var (address, after) := Allocated(used, size, maxChunk);
            after == used + BlockAt(address, size) && BlockAt(address, size) !! used
  {
    hide FirstFit;
    match Placed(used, size, UserRegion, maxChunk)
    case None =>
    case Some(i) =>
      assert i * CHUNK_SIZE / CHUNK_SIZE == i;
  }

  /** What execve() unmarks when it gets one of its two blocks but not the other. */
  function ExecFrees(w: World, l: Lookup, stackSize: nat, programSize: nat): set<int>
    requires Wf(w)
  {
    hide ListWf, TablesWf, RunWf, Queued, FileOpened, Allocated;
    Ranges(w);
    var (stack, used1) := Allocated(w.used, stackSize, w.maxChunk);
    var (text, _) := Allocated(used1, programSize, w.maxChunk);
    if FileOpened(w.tables, l, None).1.None? || (stack != 0 && text != 0) then {}
    else FreedAt(text, programSize) + FreedAt(stack, stackSize)
  }

  /** The chunks execve() marks, one block after the other, whether it keeps them or not. */
  function ExecMarks(w: World, l: Lookup, stackSize: nat, programSize: nat): set<int>
    requires Wf(w)
  {
    hide ListWf, TablesWf, RunWf, Queued, FileOpened, Allocated;
    Ranges(w);
    var (stack, used1) := Allocated(w.used, stackSize, w.maxChunk);
    var (text, _) := Allocated(used1, programSize, w.maxChunk);
    if FileOpened(w.tables, l, None).1.None? then {}
    else BlockAt(stack, stackSize) + BlockAt(text, programSize)
  }

  /** execve() marks two blocks that are disjoint and were free. It keeps both, or unmarks what it then frees. */
  lemma LoadedMemory(w: World, l: Lookup, stackSize: nat, programSize: nat)
    requires Wf(w)
    ensures var w1 := Loaded(w, l, stackSize, programSize);
            && |w1.ps| == |w.ps| && InRange(w) && w1.first == w.first
            && (forall i :: 0 <= i < |w.ps| && i != w.cur ==> w1.ps[i] == w.ps[i])
            && w1.ps[w.cur].valid
            && ExecMarks(w, l, stackSize, programSize) !! w.used
            && w1.used == w.used + ExecMarks(w, l, stackSize, programSize) - ExecFrees(w, l, stackSize, programSize)
            && if LoadSucceeds(w, l, stackSize, programSize) then
                 && ExecFrees(w, l, stackSize, programSize) == {}
                 && Owned(w1.ps[w.cur]) == ExecMarks(w, l, stackSize, programSize)
                 && StackOf(w1.ps[w.cur]) !! TextOf(w1.ps[w.cur])
               else w1.ps == w.ps
  {
    hide ListWf, TablesWf, RunWf, Queued, FileOpened, FileFreed, Allocated, BlockAt, FreedAt;
    Ranges(w);
    AllocatedIsFresh(w.used, stackSize, w.maxChunk);
    AllocatedIsFresh(Allocated(w.used, stackSize, w.maxChunk).1, programSize, w.maxChunk);
  }

  /** With sizes of at least 1, execve() frees exactly what it marked, when it frees at all. */
  lemma SizedExecFrees(w: World, l: Lookup, stackSize: nat, programSize: nat)
    requires Wf(w) && 1 <= stackSize && 1 <= programSize && !LoadSucceeds(w, l, stackSize, programSize)
    ensures ExecFrees(w, l, stackSize, programSize) == ExecMarks(w, l, stackSize, programSize)
  {
    hide ListWf, TablesWf, RunWf, Queued, FileOpened, Allocated;
    Ranges(w);
  }

  /** A world that differs in one holder's blocks, which are fresh, and in what is marked. */
  lemma FreshBlocks(w: World, w': World, p: int)
    requires MemOk(w) && |w'.ps| == |w.ps| && w'.first == w.first && Holder(w, p) && w'.ps[p].valid
    requires forall i :: 0 <= i < |w.ps| && i != p ==> w'.ps[i] == w.ps[i]
    requires w'.used == w.used + Owned(w'.ps[p]) && Owned(w'.ps[p]) !! w.used
    requires StackOf(w'.ps[p]) !! TextOf(w'.ps[p])
    ensures MemOk(w')
    ensures Unowned(w') == Unowned(w) + Owned(w.ps[p])
  {
    hide Owned, StackOf, TextOf;
    assert forall q :: Holder(w', q) <==> Holder(w, q);
    forall c ensures c in Unowned(w') <==> c in Unowned(w) || c in Owned(w.ps[p]) {
      if HasOwner(w, c) {
        var q :| Holder(w, q) && c in Owned(w.ps[q]);
        if q != p {
          assert Holder(w', q) && c in Owned(w'.ps[q]);
        }
      }
      if HasOwner(w', c) {
        var q :| Holder(w', q) && c in Owned(w'.ps[q]);
        assert Holder(w, q);
        if q != p {
          assert c in Owned(w.ps[q]);
        }
      }
    }
  }

  // ---------------------------------------------------------------- destruction

  /** None of these chunks belongs to a process other than p. */
  ghost predicate Spares(w: World, chunks: set<int>, p: int) {
    forall q :: Holder(w, q) && q != p ==> chunks !! Owned(w.ps[q])
  }

  /** The sizes of a block's memory are at least 1, as those of a nonempty program and stack are. */
  predicate Sized(p: Pcb) {
    (p.stack != 0 ==> 1 <= p.stackSize) && (p.text != 0 ==> 1 <= p.textSize)
  }

  lemma SizedFreesOwn(p: Pcb)
    requires Sized(p)
    ensures Freed(p) == Owned(p)
  {}

  lemma DestroyedUsed(w: World, p: int)
    requires Wf(w) && 0 <= p < |w.ps| && p != w.first
    ensures Destroyed(w, p).used == w.used - Freed(w.ps[p]) && Destroyed(w, p).first == w.first
  {
    hide ListWf, TablesWf, RunWf, Queued, FreedAll, Unlinked, Without, FreedAt;
  }

  /** What is left after process_destroy: the other processes, with the blocks they had. */
  lemma DestroyedHolders(w: World, p: int)
    requires Wf(w) && 0 <= p < |w.ps| && p != w.first
    ensures var w1 := Destroyed(w, p);
            && (forall q :: Holder(w1, q) <==> Holder(w, q) && q != p)
            && forall q :: Holder(w1, q) ==>
                 StackOf(w1.ps[q]) == StackOf(w.ps[q]) && TextOf(w1.ps[q]) == TextOf(w.ps[q])
  {
    hide ListWf, TablesWf, RunWf, Queued, Destroyed, BlockAt;
    DestroyedChanges(w, p);
    DestroyedUsed(w, p);
  }

  /** process_destroy, of a block that is still valid or of one destroyed before, keeps the ownership of memory
      exclusive exactly when no chunk it frees belongs to another process. */
  lemma DestroyKeepsMemoryIff(w: World, p: int)
    requires Wf(w) && MemOk(w) && 0 <= p < |w.ps| && p != w.first
    ensures MemOk(Destroyed(w, p)) <==> Spares(w, Freed(w.ps[p]), p)
  {
    hide ListWf, TablesWf, RunWf, Queued, Destroyed, StackOf, TextOf, Freed;
    DestroyedHolders(w, p);
    DestroyedUsed(w, p);
    var w1 := Destroyed(w, p);
    if Spares(w, Freed(w.ps[p]), p) {
      forall q | Holder(w1, q) ensures Owned(w1.ps[q]) <= w1.used {
        assert Owned(w1.ps[q]) == Owned(w.ps[q]);
      }
    }
    if MemOk(w1) {
      forall q | Holder(w, q) && q != p ensures Freed(w.ps[p]) !! Owned(w.ps[q]) {
        assert Owned(w1.ps[q]) == Owned(w.ps[q]);
      }
    }
  }

  /** No process other than p owns a chunk at or above this address. */
  ghost predicate NothingAbove(w: World, address: nat, p: int) {
    forall q, c :: Holder(w, q) && q != p && c in Owned(w.ps[q]) ==>
      !(address / CHUNK_SIZE <= c < address / CHUNK_SIZE + ADDRESS_CHUNKS)
  }

  /** A free of size 0 runs through the rest of the address space. */
  lemma EmptyFrees(w: World, address: nat, p: int)
    requires address != 0
    ensures Spares(w, FreedAt(address, 0), p) <==> NothingAbove(w, address, p)
  {
    hide Owned;
    var freed := FreedAt(address, 0);
    assert forall c :: c in freed <==> address / CHUNK_SIZE <= c < address / CHUNK_SIZE + ADDRESS_CHUNKS;
    if Spares(w, freed, p) {
      forall q, c | Holder(w, q) && q != p && c in Owned(w.ps[q])
        ensures !(address / CHUNK_SIZE <= c < address / CHUNK_SIZE + ADDRESS_CHUNKS)
      {
        assert freed !! Owned(w.ps[q]);
      }
    }
  }

  /** Each part of p's memory that has size 0 is the last thing any process owns. */
  ghost predicate EmptyPartsLast(w: World, p: int)
    requires 0 <= p < |w.ps|
  {
    && (w.ps[p].stack != 0 && w.ps[p].stackSize == 0 ==> NothingAbove(w, w.ps[p].stack, p))
    && (w.ps[p].text != 0 && w.ps[p].textSize == 0 ==> NothingAbove(w, w.ps[p].text, p))
  }

  /** A part of nonzero size frees just itself. */
  lemma PartSpares(w: World, address: nat, size: nat, p: int)
    requires Spares(w, BlockAt(address, size), p)
    ensures Spares(w, FreedAt(address, size), p) <==> (address != 0 && size == 0 ==> NothingAbove(w, address, p))
  {
    hide Owned;
    if address != 0 && size == 0 { EmptyFrees(w, address, p); }
  }

  lemma SparesBoth(w: World, a: set<int>, b: set<int>, p: int)
    ensures Spares(w, a + b, p) <==> Spares(w, a, p) && Spares(w, b, p)
  {
    hide Owned;
  }

  /** A block that is still valid frees none of another process exactly when each part of size 0, for which one chunk
      was allocated and everything from there on is freed, is the last thing any process owns. */
  lemma ValidSparesIff(w: World, p: int)
    requires MemOk(w) && Holder(w, p)
    ensures Spares(w, Freed(w.ps[p]), p) <==> EmptyPartsLast(w, p)
  {
    hide FreedAt, BlockAt, NothingAbove;
    PartSpares(w, w.ps[p].stack, w.ps[p].stackSize, p);
    PartSpares(w, w.ps[p].text, w.ps[p].textSize, p);
    SparesBoth(w, FreedAt(w.ps[p].stack, w.ps[p].stackSize), FreedAt(w.ps[p].text, w.ps[p].textSize), p);
  }

  lemma ValidSpares(w: World, p: int)
    requires MemOk(w) && Holder(w, p) && Sized(w.ps[p])
    ensures Spares(w, Freed(w.ps[p]), p)
  {
    hide Freed, Owned, Spares, NothingAbove;
    ValidSparesIff(w, p);
  }

  /** A process with an empty program takes away the memory of another that lies above it when it is destroyed, the
      first time. */
  lemma EmptyProgramBreaks(w: World, p: int, q: int, c: int)
    requires Wf(w) && MemOk(w) && Holder(w, p) && Holder(w, q) && p != q && w.ps[p].text != 0 && w.ps[p].textSize == 0
    requires c in Owned(w.ps[q]) && w.ps[p].text / CHUNK_SIZE <= c < MAP_CHUNKS
    ensures !MemOk(Destroyed(w, p))
  {
    hide Wf, Owned, Freed, Destroyed, MemOk;
    DestroyKeepsMemoryIff(w, p);
    ValidSparesIff(w, p);
  }

  /** The destruction of such a block unmarks exactly what it owns. */
  lemma DestroyedMemory(w: World, p: int)
    requires Wf(w) && MemOk(w) && Holder(w, p) && Sized(w.ps[p])
    ensures MemOk(Destroyed(w, p))
    ensures Unowned(Destroyed(w, p)) == Unowned(w)
    ensures Destroyed(w, p).used == w.used - Owned(w.ps[p])
  {
    hide ListWf, TablesWf, RunWf, Queued, Destroyed, StackOf, TextOf, Freed;
    DestroyedHolders(w, p);
    DestroyedUsed(w, p);
    SizedFreesOwn(w.ps[p]);
    ValidSpares(w, p);
    DestroyKeepsMemoryIff(w, p);
    var w1 := Destroyed(w, p);
    assert forall q :: Holder(w1, q) ==> Owned(w1.ps[q]) == Owned(w.ps[q]);
    forall c ensures c in Unowned(w1) <==> c in Unowned(w) {
      if HasOwner(w, c) {
        var q :| Holder(w, q) && c in Owned(w.ps[q]);
        if q != p {
          assert Holder(w1, q) && c in Owned(w1.ps[q]);
        }
      }
      if HasOwner(w1, c) {
        var q :| Holder(w1, q) && c in Owned(w1.ps[q]);
        assert Holder(w, q) && c in Owned(w.ps[q]);
      }
    }
  }

  // ---------------------------------------------------------------- every step

  /** The block that a step of waitpid() destroys, or NIL. */
  ghost function DestroyTarget(w: World, a: Action): (t: int)
    requires Wf(w) && Enabled(w, a)
    ensures t == NIL || (0 <= t < |w.ps| && w.ps[t].status == Exited)
  {
    hide ListWf, TablesWf, Queued, Named;
    Ranges(w);
    var t := if a.Resume? then w.target[w.cur] else if a.Wait? then Named(w, a.pid) else NIL;
    if t >= 0 && w.ps[t].status == Exited then t else NIL
  }

  /** What a step frees belongs to nobody else. Only two steps free memory: an execve() that gets one of its blocks
      but not the other, and the destruction of an exited block. */
  ghost predicate FreesOwn(w: World, a: Action)
    requires Wf(w) && Enabled(w, a)
  {
    if a.Exec? then Spares(w, ExecFrees(w, a.lookup, a.stackSize, a.programSize), NIL)
    else
      var t := DestroyTarget(w, a);
      t != NIL ==> Spares(w, Freed(w.ps[t]), t)
  }

  /** The block that an execve() gives back because it did not get the other, if of size 0, lies above all that
      processes own. */
  ghost predicate ExecGuard(w: World, l: Lookup, stackSize: nat, programSize: nat)
    requires Wf(w)
  {
    hide ListWf, TablesWf, RunWf, Queued, FileOpened, Allocated;
    Ranges(w);
    var (stack, used1) := Allocated(w.used, stackSize, w.maxChunk);
    var (text, _) := Allocated(used1, programSize, w.maxChunk);
    FileOpened(w.tables, l, None).1.Some? && (stack == 0 || text == 0) ==>
      && (stack != 0 && stackSize == 0 ==> NothingAbove(w, stack, NIL))
      && (text != 0 && programSize == 0 ==> NothingAbove(w, text, NIL))
  }

  /** The condition on a step before it is taken, in terms of sizes and places: execve's on a block of size 0 it has
      to give back; for waitpid, a child that is still there has no part of size 0 with memory of others above it,
      and one that another waiter destroyed has left nothing that belongs to somebody by now. */
  ghost predicate MemKeeps(w: World, a: Action)
    requires Wf(w) && Enabled(w, a)
  {
    if a.Exec? then ExecGuard(w, a.lookup, a.stackSize, a.programSize)
    else
      var t := DestroyTarget(w, a);
      t != NIL ==> if w.ps[t].valid then EmptyPartsLast(w, t) else Spares(w, Freed(w.ps[t]), t)
  }

  lemma FreshSpares(w: World, chunks: set<int>)
    requires MemOk(w) && chunks !! w.used
    ensures Spares(w, chunks, NIL)
  {
    hide Owned;
  }

  lemma FreshPart(w: World, address: nat, size: nat)
    requires MemOk(w) && BlockAt(address, size) !! w.used
    ensures Spares(w, FreedAt(address, size), NIL) <==> (address != 0 && size == 0 ==> NothingAbove(w, address, NIL))
  {
    hide MemOk, Spares, BlockAt, FreedAt, NothingAbove;
    FreshSpares(w, BlockAt(address, size));
    PartSpares(w, address, size, NIL);
  }

  lemma ExecSparesIff(w: World, l: Lookup, stackSize: nat, programSize: nat)
    requires Wf(w) && MemOk(w)
    ensures Spares(w, ExecFrees(w, l, stackSize, programSize), NIL) <==> ExecGuard(w, l, stackSize, programSize)
  {
    hide ListWf, TablesWf, RunWf, Queued, FileOpened, Allocated, FreedAt, BlockAt, NothingAbove, MemOk;
    Ranges(w);
    var (stack, used1) := Allocated(w.used, stackSize, w.maxChunk);
    var (text, _) := Allocated(used1, programSize, w.maxChunk);
    AllocatedIsFresh(w.used, stackSize, w.maxChunk);
    AllocatedIsFresh(used1, programSize, w.maxChunk);
    FreshPart(w, stack, stackSize);
    FreshPart(w, text, programSize);
    SparesBoth(w, FreedAt(text, programSize), FreedAt(stack, stackSize), NIL);
  }

  lemma TargetHolds(w: World, a: Action)
    requires Wf(w) && Enabled(w, a)
    ensures var t := DestroyTarget(w, a); t != NIL && w.ps[t].valid ==> Holder(w, t)
  {
    hide ListWf, TablesWf, Queued, Named, Enabled;
  }

  lemma MemKeepsIff(w: World, a: Action)
    requires Wf(w) && Enabled(w, a) && MemOk(w)
    ensures MemKeeps(w, a) <==> FreesOwn(w, a)
  {
    hide Wf, Enabled, DestroyTarget, Freed, Spares, EmptyPartsLast, ExecFrees, ExecGuard, MemOk;
    if a.Exec? {
      ExecSparesIff(w, a.lookup, a.stackSize, a.programSize);
    } else {
      var t := DestroyTarget(w, a);
      TargetHolds(w, a);
      if t != NIL && w.ps[t].valid { ValidSparesIff(w, t); }
    }
  }

  /** Programs and stacks have a size, and whatever is destroyed has not been destroyed already. */
  ghost predicate MemGuarded(w: World, a: Action)
    requires Wf(w) && Enabled(w, a)
  {
    if a.Exec? then a.stackSize >= 1 && a.programSize >= 1
    else
      var t := DestroyTarget(w, a);
      t != NIL ==> w.ps[t].valid
  }

  /** The chunks a step leaves marked without an owner: those malloc hands out, and the old blocks of a process
      that executes a second program. */
  ghost function Orphaned(w: World, a: Action): set<int>
    requires Wf(w)
  {
    hide ListWf, TablesWf, RunWf, Queued, LoadSucceeds;
    Ranges(w);
    match a
    case Malloc(size) => Allocated(w.used, size, w.maxChunk).1 - w.used
    case Exec(l, stackSize, programSize) => if LoadSucceeds(w, l, stackSize, programSize) then Owned(w.ps[w.cur])
      else {}
    case _ => {}
  }

  /** What a step without frees has to show. */
  ghost predicate KeepsMemory(w: World, w1: World, orphaned: set<int>) {
    MemOk(w1) && Unowned(w1) == Unowned(w) + orphaned
  }

  lemma SameMemoryStep(w: World, w1: World)
    requires MemOk(w) && SameMemory(w, w1)
    ensures KeepsMemory(w, w1, {})
  {
    hide SameMemory;
    SameMemoryKeeps(w, w1);
  }

  lemma MallocMemory(w: World, size: nat)
    requires MemOk(w)
    ensures KeepsMemory(w, w.(used := Allocated(w.used, size, w.maxChunk).1),
                        Allocated(w.used, size, w.maxChunk).1 - w.used)
  {
    hide Owned, StackOf, TextOf;
    var w1 := w.(used := Allocated(w.used, size, w.maxChunk).1);
    assert forall p :: Holder(w1, p) <==> Holder(w, p);
    forall c ensures c in Unowned(w1) <==> c in Unowned(w) || c in w1.used - w.used {
      if HasOwner(w1, c) {
        var q :| Holder(w1, q) && c in Owned(w1.ps[q]);
        assert Holder(w, q) && c in Owned(w.ps[q]);
      }
      if HasOwner(w, c) {
        var q :| Holder(w, q) && c in Owned(w.ps[q]);
        assert Holder(w1, q) && c in Owned(w1.ps[q]);
      }
    }
  }

  /** Blocks that agree on everything but links, status, slots and waiting bookkeeping own the same memory. */
  ghost predicate SameBlocks(ps: seq<Pcb>, qs: seq<Pcb>) {
    |qs| == |ps| && forall i :: 0 <= i < |ps| ==>
      && qs[i].valid == ps[i].valid && qs[i].stack == ps[i].stack && qs[i].stackSize == ps[i].stackSize
      && qs[i].text == ps[i].text && qs[i].textSize == ps[i].textSize
  }

  lemma SameBlocksStep(w: World, w1: World)
    requires MemOk(w) && SameBlocks(w.ps, w1.ps) && w1.used == w.used && w1.first == w.first
    ensures KeepsMemory(w, w1, {})
  {
    hide BlockAt, MemOk, Unowned;
    SameMemoryStep(w, w1);
  }

  lemma DescriptorMemory(w: World, a: Action)
    requires Wf(w) && MemOk(w)
    requires a.Open? || a.Close? || (a.Dup2? && a.newfd < MAX_FD_PER_PROC) || a.PathCall?
    ensures KeepsMemory(w, DescriptorStep(w, a), {})
  {
    hide ListWf, TablesWf, RunWf, Queued, FileOpened, FileFreed, FileIncremented, LookedUp, InodeFreed, Mapped, MemOk,
         KeepsMemory;
    Ranges(w);
    SameBlocksStep(w, DescriptorStep(w, a));
  }

  /** A process more, owning nothing. */
  lemma OneMoreHolder(w: World, w1: World, c: int)
    requires MemOk(w) && |w1.ps| == |w.ps| && w1.used == w.used && 0 <= c < |w.ps| && !Holder(w, c)
    requires forall p :: Holder(w1, p) ==> Holder(w, p) || p == c
    requires forall p :: Holder(w, p) ==>
               Holder(w1, p) && StackOf(w1.ps[p]) == StackOf(w.ps[p]) && TextOf(w1.ps[p]) == TextOf(w.ps[p])
    requires StackOf(w1.ps[c]) == {} && TextOf(w1.ps[c]) == {}
    ensures KeepsMemory(w, w1, {})
  {
    hide StackOf, TextOf;
    assert forall p :: Holder(w, p) ==> Owned(w1.ps[p]) == Owned(w.ps[p]);
    forall x ensures HasOwner(w1, x) <==> HasOwner(w, x) {
      if p :| Holder(w, p) && x in Owned(w.ps[p]) {
        assert Holder(w1, p) && x in Owned(w1.ps[p]);
      }
    }
  }

  lemma NoMemory(p: Pcb)
    requires p.stack == 0 && p.text == 0
    ensures StackOf(p) == {} && TextOf(p) == {} && Owned(p) == {}
  {}

  lemma ForkedUsed(w: World, c: int)
    requires Wf(w) && 0 <= c < |w.ps|
    ensures var w1 := Scheduled(ForkedInto(w, c));
            w1.used == w.used && w1.first == w.first && w1.ps == ForkedInto(w, c).ps
  {
    hide ListWf, TablesWf, RunWf, Queued, Inserted, IncrementedAll;
  }

  lemma ForkedMemory(w: World, c: int)
    requires Wf(w) && MemOk(w) && 0 <= c < |w.ps| && !w.ps[c].valid
    ensures KeepsMemory(w, Scheduled(ForkedInto(w, c)), {})
  {
    hide ListWf, TablesWf, RunWf, Queued, ForkedInto, BlockAt, MemOk, KeepsMemory, Picked;
    ForkedChanges(w, c);
    ForkedUsed(w, c);
    var w1 := Scheduled(ForkedInto(w, c));
    NoMemory(w1.ps[c]);
    OneMoreHolder(w, w1, c);
  }

  lemma EndedMemory(w: World, status: int)
    requires Wf(w) && MemOk(w)
    ensures KeepsMemory(w, Scheduled(Ended(w, status)), {})
  {
    hide ListWf, TablesWf, RunWf, Queued, MemOk, KeepsMemory, Ended, Picked;
    EndedKeepsFields(w, status);
    SameBlocksStep(w, Scheduled(Ended(w, status)));
  }

  lemma YieldedMemory(w: World)
    requires Wf(w) && MemOk(w)
    ensures KeepsMemory(w, Yielded(w), {})
  {
    hide ListWf, TablesWf, RunWf, Queued, MemOk, KeepsMemory;
    SameBlocksStep(w, Yielded(w));
  }

  lemma SleptMemory(w: World, t: int)
    requires Wf(w) && MemOk(w)
    ensures KeepsMemory(w, Scheduled(SleptOn(w, t)), {})
  {
    hide ListWf, TablesWf, RunWf, Queued, Enqueued, MemOk, KeepsMemory;
    SleptChanges(w, t);
    SameBlocksStep(w, Scheduled(SleptOn(w, t)));
  }

  /** A step that changes no block's memory. */
  lemma SameBlocksIff(w: World, w1: World)
    requires SameBlocks(w.ps, w1.ps) && w1.used == w.used && w1.first == w.first
    ensures MemOk(w1) <==> MemOk(w)
  {
    hide BlockAt;
  }

  lemma WaitedMemoryIff(w: World, t: int)
    requires Wf(w) && MemOk(w) && 0 <= t < |w.ps| && (w.ps[t].status == Exited ==> t != w.first)
    ensures MemOk(Waited(w, t)) <==> (w.ps[t].status == Exited ==> Spares(w, Freed(w.ps[t]), t))
  {
    hide ListWf, TablesWf, RunWf, Queued, SleptOn, Destroyed, Scheduled, MemOk, Spares;
    if w.ps[t].status == Exited {
      DestroyKeepsMemoryIff(w, t);
      DestroyedUsed(w, t);
      SameBlocksIff(Destroyed(w, t), Waited(w, t));
    } else {
      SleptMemory(w, t);
    }
  }

  lemma WaitCalledMemoryIff(w: World, pid: int, nohang: bool)
    requires Wf(w) && MemOk(w)
    ensures var t := Named(w, pid);
            t >= 0 ==>
              && t < |w.ps|
              && (MemOk(WaitCalled(w, pid, nohang)) <==> (w.ps[t].status == Exited ==> Spares(w, Freed(w.ps[t]), t)))
    ensures Named(w, pid) < 0 ==> WaitCalled(w, pid, nohang) == w
  {
    hide ListWf, TablesWf, Queued, Waited, Destroyed, Named, MemOk, Spares;
    Ranges(w);
    var t := Named(w, pid);
    if t >= 0 {
      if !nohang {
        WaitedMemoryIff(w, t);
      } else if w.ps[t].status == Exited {
        DestroyKeepsMemoryIff(w, t);
      }
    }
  }

  /** A process that gains fresh blocks of its own keeps ownership exclusive; one that fails to keeps it exactly when
      it frees nobody's chunks. */
  lemma LoadedMemoryIff(w: World, l: Lookup, stackSize: nat, programSize: nat)
    requires Wf(w) && MemOk(w) && w.cur != w.first && InRange(w)
    ensures MemOk(Loaded(w, l, stackSize, programSize)) <==> Spares(w, ExecFrees(w, l, stackSize, programSize), NIL)
  {
    hide ListWf, TablesWf, RunWf, Queued, Loaded, StackOf, TextOf, LoadSucceeds, ExecFrees, ExecMarks;
    LoadedMemory(w, l, stackSize, programSize);
    var w1 := Loaded(w, l, stackSize, programSize);
    if LoadSucceeds(w, l, stackSize, programSize) {
      FreshBlocks(w, w1, w.cur);
    } else {
      assert forall q :: Holder(w1, q) <==> Holder(w, q);
      if MemOk(w1) {
        forall q | Holder(w, q) && q != NIL ensures ExecFrees(w, l, stackSize, programSize) !! Owned(w.ps[q]) {
          assert Owned(w1.ps[q]) <= w1.used;
          assert Owned(w.ps[q]) <= w.used;
        }
      }
    }
  }

  lemma ExecedMemoryIff(w: World, l: Lookup, stackSize: nat, programSize: nat)
    requires Good(w) && MemOk(w) && w.cur != w.first
    ensures MemOk(Execed(w, l, stackSize, programSize)) <==> Spares(w, ExecFrees(w, l, stackSize, programSize), NIL)
  {
    hide ListWf, TablesWf, RunWf, Queued, SleepInv, CurReady, Loaded, MemOk, Spares, ExecFrees;
    Ranges(w);
    LoadedMemoryIff(w, l, stackSize, programSize);
    LoadedKeeps(w, l, stackSize, programSize);
    var w1 := Loaded(w, l, stackSize, programSize);
    ParentWokenKeeps(w1);
    SameBlocksIff(w1, Execed(w, l, stackSize, programSize));
  }

  /** An execve() that gets its stack, of size 0, but not its program takes away whatever others own above it. */
  lemma EmptyStackBreaks(w: World, l: Lookup, programSize: nat, q: int, c: int)
    requires Good(w) && MemOk(w) && w.cur != w.first && InRange(w) && FileOpened(w.tables, l, None).1.Some?
    requires var (stack, used1) := Allocated(w.used, 0, w.maxChunk);
             && stack != 0 && Allocated(used1, programSize, w.maxChunk).0 == 0
             && Holder(w, q) && c in Owned(w.ps[q]) && stack / CHUNK_SIZE <= c < MAP_CHUNKS
    ensures !MemOk(Execed(w, l, 0, programSize))
  {
    hide ListWf, TablesWf, RunWf, Queued, SleepInv, CurReady, Execed, MemOk, ExecFrees, Spares, Allocated, FileOpened,
         Owned;
    ExecedMemoryIff(w, l, 0, programSize);
    ExecSparesIff(w, l, 0, programSize);
    assert !NothingAbove(w, Allocated(w.used, 0, w.maxChunk).0, NIL);
  }

  lemma VforkedMemory(w: World)
    requires Wf(w) && MemOk(w)
    ensures KeepsMemory(w, Vforked(w), {})
  {
    hide ListWf, TablesWf, RunWf, Queued, ForkedInto, Scheduled, MemOk;
    match FreeBlock(w.ps)
    case None => SameBlocksStep(w, w);
    case Some(c) => ForkedMemory(w, c);
  }

  lemma StepFreesOwnIff(w: World, a: Action)
    requires Good(w) && Enabled(w, a) && MemOk(w)
    ensures MemOk(Step(w, a)) <==> FreesOwn(w, a)
  {
    hide ListWf, TablesWf, Queued, SleepInv, CurReady, DescriptorStep, ForkedInto, Execed, Ended,
         Scheduled, Waited, WaitCalled, Destroyed, Allocated, Named, MemOk, Unowned, Owned, Freed, Spares, ExecFrees;
    Ranges(w);
    match a
    case Vfork => VforkedMemory(w);
    case Exec(l, stackSize, programSize) => ExecedMemoryIff(w, l, stackSize, programSize);
    case Exit(status) => EndedMemory(w, status);
    case Wait(pid, nohang) => WaitCalledMemoryIff(w, pid, nohang);
    case Resume => WaitedMemoryIff(w, w.target[w.cur]);
    case Yield => YieldedMemory(w);
    case Malloc(size) => MallocMemory(w, size);
    case _ => DescriptorMemory(w, a);
  }

  /** Exclusive ownership, step by step: whatever the running process does, the blocks of processes stay marked and
      disjoint if and only if the condition of the step holds. */
  lemma StepKeepsMemoryIff(w: World, a: Action)
    requires Good(w) && Enabled(w, a) && MemOk(w)
    ensures MemOk(Step(w, a)) <==> MemKeeps(w, a)
  {
    hide Wf, SleepInv, CurReady, Enabled, Step, MemOk, FreesOwn, MemKeeps;
    StepFreesOwnIff(w, a);
    MemKeepsIff(w, a);
  }

  // ---------------------------------------------------------------- what is marked and owned by no process

  /** Every process has memory of nonzero size, if it has any. */
  ghost predicate AllSized(w: World) {
    forall p :: Holder(w, p) ==> Sized(w.ps[p])
  }

  /** A guarded step meets the condition. */
  lemma GuardedKeeps(w: World, a: Action)
    requires Good(w) && Enabled(w, a) && AllSized(w) && MemGuarded(w, a)
    ensures MemKeeps(w, a)
  {
    hide ListWf, TablesWf, Queued, SleepInv, CurReady, Enabled, Allocated, FileOpened, NothingAbove, DestroyTarget;
    if !a.Exec? { TargetHolds(w, a); }
  }

  lemma DestroyedSized(w: World, t: int)
    requires Wf(w) && MemOk(w) && AllSized(w) && Holder(w, t)
    ensures KeepsMemory(w, Destroyed(w, t), {}) && AllSized(Destroyed(w, t))
  {
    hide ListWf, TablesWf, RunWf, Queued, Destroyed, MemOk, Unowned;
    DestroyedMemory(w, t);
    DestroyedChanges(w, t);
    DestroyedUsed(w, t);
  }

  lemma SleptSized(w: World, t: int)
    requires Wf(w) && AllSized(w)
    ensures AllSized(Scheduled(SleptOn(w, t)))
  {
    hide ListWf, TablesWf, RunWf, Queued, Enqueued;
    SleptChanges(w, t);
  }

  lemma WaitedMemory(w: World, t: int)
    requires Wf(w) && MemOk(w) && AllSized(w) && 0 <= t < |w.ps|
    requires w.ps[t].status == Exited ==> Holder(w, t)
    ensures KeepsMemory(w, Waited(w, t), {}) && AllSized(Waited(w, t))
  {
    hide ListWf, TablesWf, RunWf, Queued, SleptOn, Destroyed, Scheduled, MemOk, Unowned;
    if w.ps[t].status == Exited {
      DestroyedSized(w, t);
      SameBlocksStep(Destroyed(w, t), Waited(w, t));
    } else {
      SleptMemory(w, t);
      SleptSized(w, t);
    }
  }

  lemma WaitCalledMemory(w: World, pid: int, nohang: bool)
    requires Wf(w) && MemOk(w) && AllSized(w)
    ensures KeepsMemory(w, WaitCalled(w, pid, nohang), {}) && AllSized(WaitCalled(w, pid, nohang))
  {
    hide TablesWf, Queued, Waited, Destroyed, Named, MemOk, Unowned, Linked;
    Ranges(w);
    SameBlocksStep(w, w);
    var t := Named(w, pid);
    if t >= 0 {
      if !nohang {
        WaitedMemory(w, t);
      } else if w.ps[t].status == Exited {
        DestroyedSized(w, t);
      }
    }
  }

  lemma LoadedSized(w: World, l: Lookup, stackSize: nat, programSize: nat)
    requires Wf(w) && AllSized(w) && 1 <= stackSize && 1 <= programSize
    ensures AllSized(Loaded(w, l, stackSize, programSize))
  {
    hide ListWf, TablesWf, RunWf, Queued, FileOpened, FileFreed, Allocated;
    Ranges(w);
  }

  lemma ExecedMemory(w: World, l: Lookup, stackSize: nat, programSize: nat)
    requires Good(w) && MemOk(w) && AllSized(w) && w.cur != w.first && 1 <= stackSize && 1 <= programSize && InRange(w)
    ensures KeepsMemory(w, Execed(w, l, stackSize, programSize),
                        if LoadSucceeds(w, l, stackSize, programSize) then Owned(w.ps[w.cur]) else {})
    ensures AllSized(Execed(w, l, stackSize, programSize))
  {
    hide ListWf, TablesWf, RunWf, Queued, SleepInv, CurReady, Loaded, MemOk, Unowned, LoadSucceeds, BlockAt, Owned,
         StackOf, TextOf, ExecFrees, ExecMarks;
    LoadedKeeps(w, l, stackSize, programSize);
    LoadedMemory(w, l, stackSize, programSize);
    LoadedSized(w, l, stackSize, programSize);
    var w1 := Loaded(w, l, stackSize, programSize);
    if LoadSucceeds(w, l, stackSize, programSize) {
      FreshBlocks(w, w1, w.cur);
    } else {
      SizedExecFrees(w, l, stackSize, programSize);
      SameBlocksStep(w, w1);
    }
    ParentWokenKeeps(w1);
    SameBlocksStep(w1, Execed(w, l, stackSize, programSize));
  }

  lemma ForkedSized(w: World)
    requires Wf(w) && AllSized(w)
    ensures AllSized(Vforked(w))
  {
    hide ListWf, TablesWf, RunWf, Queued, ForkedInto, Picked;
    match FreeBlock(w.ps)
    case None =>
    case Some(c) =>
      ForkedChanges(w, c);
      ForkedUsed(w, c);
  }

  lemma SameSized(w: World, w1: World)
    requires AllSized(w) && SameBlocks(w.ps, w1.ps) && w1.first == w.first
    ensures AllSized(w1)
  {}

  lemma DescriptorBlocks(w: World, a: Action)
    requires Wf(w)
    requires a.Open? || a.Close? || (a.Dup2? && a.newfd < MAX_FD_PER_PROC) || a.PathCall?
    ensures SameBlocks(w.ps, DescriptorStep(w, a).ps) && DescriptorStep(w, a).first == w.first
  {
    hide ListWf, TablesWf, RunWf, Queued, FileOpened, FileFreed, FileIncremented, LookedUp, InodeFreed, Mapped;
    Ranges(w);
  }

  lemma EndedBlocks(w: World, status: int)
    requires Wf(w)
    ensures var w1 := Scheduled(Ended(w, status)); SameBlocks(w.ps, w1.ps) && w1.first == w.first
  {
    hide ListWf, TablesWf, RunWf, Queued, Ended, Picked;
    EndedKeepsFields(w, status);
  }

  lemma YieldedBlocks(w: World)
    requires Wf(w) && AllSized(w)
    ensures AllSized(Yielded(w))
  {
    hide ListWf, TablesWf, RunWf, Queued;
  }

  /** A guarded step adds exactly its orphans to the chunks that are marked without an owner. */
  lemma StepKeepsLedger(w: World, a: Action)
    requires Good(w) && Enabled(w, a) && MemGuarded(w, a) && MemOk(w) && AllSized(w)
    ensures KeepsMemory(w, Step(w, a), Orphaned(w, a)) && AllSized(Step(w, a))
  {
    hide ListWf, TablesWf, Queued, SleepInv, CurReady, DescriptorStep, ForkedInto, Execed, Ended,
         Scheduled, Waited, Destroyed, Allocated, Named, MemOk, Unowned, Owned, LoadSucceeds, AllSized;
    Ranges(w);
    match a
    case Vfork => VforkedMemory(w); ForkedSized(w);
    case Exec(l, stackSize, programSize) => ExecedMemory(w, l, stackSize, programSize);
    case Exit(status) => EndedMemory(w, status); EndedBlocks(w, status); SameSized(w, Step(w, a));
    case Wait(pid, nohang) => WaitCalledMemory(w, pid, nohang);
    case Resume => WaitedMemory(w, w.target[w.cur]);
    case Yield => YieldedMemory(w); YieldedBlocks(w);
    case Malloc(size) => MallocMemory(w, size); SameSized(w, Step(w, a));
    case _ => DescriptorMemory(w, a); DescriptorBlocks(w, a); SameSized(w, Step(w, a));
  }

  // ---------------------------------------------------------------- every run

  /** Ownership is exclusive at the start, after every step, and so at the end. */
  ghost predicate MemOkThroughout(w: World, actions: seq<Action>)
    requires Good(w) && Can(w, actions)
    decreases |actions|
  {
    MemOk(w) && (actions != [] ==> (StepKeepsGood(w, actions[0]); MemOkThroughout(Step(w, actions[0]), actions[1..])))
  }

  /** No step of the run frees chunks of a process other than the one it destroys. */
  ghost predicate MemKeepsThroughout(w: World, actions: seq<Action>)
    requires Good(w) && Can(w, actions)
    decreases |actions|
  {
    actions != [] ==>
      MemKeeps(w, actions[0]) && (StepKeepsGood(w, actions[0]); MemKeepsThroughout(Step(w, actions[0]), actions[1..]))
  }

  /** Exclusive ownership over every run: it holds throughout if and only if no step frees chunks of another process. */
  lemma {:induction false} RunKeepsMemoryIff(w: World, actions: seq<Action>)
    requires Good(w) && Can(w, actions) && MemOk(w)
    ensures MemOkThroughout(w, actions) <==> MemKeepsThroughout(w, actions)
    decreases |actions|
  {
    hide ListWf, TablesWf, RunWf, Queued, SleepInv, CurReady, Enabled, Step, MemOk, MemKeeps;
    if actions != [] {
      StepKeepsGood(w, actions[0]);
      StepKeepsMemoryIff(w, actions[0]);
      if MemKeeps(w, actions[0]) {
        RunKeepsMemoryIff(Step(w, actions[0]), actions[1..]);
      }
    }
  }

  /** A guarded run; if `ledger`, no step orphans a chunk: no malloc, and nobody who owns memory executes a program. */
  ghost predicate MemRuns(w: World, actions: seq<Action>, w': World, ledger: bool)
    requires Good(w)
    decreases |actions|
  {
    if actions == [] then w' == w
    else
      && Enabled(w, actions[0]) && MemGuarded(w, actions[0]) && (ledger ==> Orphaned(w, actions[0]) == {})
      && (StepKeepsGood(w, actions[0]); MemRuns(Step(w, actions[0]), actions[1..], w', ledger))
  }

  /** Over every guarded run ownership stays exclusive, and without orphans the unowned chunks stay the same. */
  lemma {:induction false} RunKeepsLedger(w: World, actions: seq<Action>, w': World, ledger: bool)
    requires Good(w) && MemOk(w) && AllSized(w) && MemRuns(w, actions, w', ledger)
    ensures MemOk(w') && (ledger ==> Unowned(w') == Unowned(w))
    decreases |actions|
  {
    hide ListWf, TablesWf, RunWf, Queued, SleepInv, CurReady, Enabled, Step, MemOk, Unowned, MemGuarded, Orphaned,
         AllSized;
    if actions != [] {
      StepKeepsGood(w, actions[0]);
      StepKeepsLedger(w, actions[0]);
      RunKeepsLedger(Step(w, actions[0]), actions[1..], w', ledger);
    }
  }

  lemma UsedSplits(w: World)
    requires MemOk(w)
    ensures forall c :: c in w.used <==> c in Unowned(w) || HasOwner(w, c)
  {}

  /** A run that orphans nothing and leaves the same processes owning the same blocks, as when a child is forked,
      executes a program, exits and is waited for, marks at its end exactly the chunks marked at its start, whatever
      ran in between. */
  lemma RunReturnsMemory(w: World, actions: seq<Action>, w': World)
    requires Good(w) && MemOk(w) && AllSized(w) && MemRuns(w, actions, w', true)
    requires forall p :: Holder(w', p) <==> Holder(w, p)
    requires forall p :: Holder(w, p) && Holder(w', p) ==> Owned(w'.ps[p]) == Owned(w.ps[p])
    ensures w'.used == w.used
  {
    hide Good, MemOk, Unowned, MemRuns, Owned, AllSized;
    RunKeepsLedger(w, actions, w', true);
    UsedSplits(w);
    UsedSplits(w');
    forall c ensures HasOwner(w', c) <==> HasOwner(w, c) {
      if p :| Holder(w, p) && c in Owned(w.ps[p]) {
        assert Holder(w', p) && c in Owned(w'.ps[p]);
      }
      if p :| Holder(w', p) && c in Owned(w'.ps[p]) {
        assert Holder(w, p) && c in Owned(w.ps[p]);
      }
    }
    assert forall c :: c in w'.used <==> c in w.used;
  }
}
