/** The world in which user space starts, every run from it, and calls that break reference conservation in it. */
module KernelBoot {
  import opened Common
  import opened Processes
  import opened Descriptors
  import opened Chunks
  import opened Kernels
  import opened KernelStructure
  import opened KernelReferences
  import opened KernelMemory

  const GIGABYTE := 0x4000_0000

  const IDLE := Pcb(1, NIL, NIL, true, Ready, 0, 0, NIL, 0x100_0000, 4096, 0x8000, 4, NO_FILES)

  /** init has standard input, output and error, and is its own parent. */
  const INIT := Pcb(NIL, 0, NIL, true, Ready, 1, 0, 1, 0, 0, 0, 0, [0, 1, 2, NIL, NIL, NIL, NIL, NIL])

  function BootBlocks(): (r: seq<Pcb>)
    ensures |r| == MAX_PROCS && r[0] == IDLE && r[1] == INIT && forall i :: 2 <= i < MAX_PROCS ==> r[i] == BLANK
  {
    seq(MAX_PROCS, i => if i == 0 then IDLE else if i == 1 then INIT else BLANK)
  }

  function BootTables(): (r: Tables)
    ensures |r.files| == MAX_OPEN_FILES && |r.inodes| == NUM_INODES
    ensures forall f :: 0 <= f < MAX_OPEN_FILES ==> r.files[f] == if f < 3 then FileObject(1, f) else FileObject(0, NIL)
    ensures forall n :: 0 <= n < NUM_INODES ==> r.inodes[n].count == if n < 3 then 1 else 0
  {
    Tables(seq(MAX_OPEN_FILES, f => if f < 3 then FileObject(1, f) else FileObject(0, NIL)),
           seq(NUM_INODES, n => if n < 3 then Inode(1, n, 0) else Inode(0, 0, 0)))
  }

  /** The world just before init executes its program; `used` is what memory_init and the idle task's stack have
      marked. */
  function Boot(used: set<int>, maxChunk: nat): World {
    World(BootBlocks(), 0, 2, 1, [0, 1], BootTables(), used, maxChunk, NIL, [], seq(MAX_PROCS, _ => NIL))
  }

  /** The chunks that are marked and the limit when the allocator has been set up: the kernel's, and on machines with
      several processors their stacks below the kernel's end. Nothing looks at the answer of memory_init. */
  function FirstMemory(memoryTotal: nat, memoryKernel: nat, multicore: bool): (set<int>, nat) {
    var stacks := if multicore then Range(4084, 12) else {};
    if memoryTotal > MAX_MEMORY || memoryKernel > RESERVED_KERNEL || memoryTotal % CHUNK_SIZE != 0 then (stacks, 0)
    else ((if memoryKernel % CHUNK_SIZE != 0 then {} else Range(0, memoryKernel / CHUNK_SIZE)) + stacks,
          memoryTotal / CHUNK_SIZE)
  }

  /** The idle task's stack takes the first chunk for users, if there is one. */
  function BootFrom(memoryTotal: nat, memoryKernel: nat, multicore: bool): World {
    var (used, maxChunk) := FirstMemory(memoryTotal, memoryKernel, multicore);
    var (stack, used1) := Allocated(used, IDLE.stackSize, maxChunk);
    Boot(used1, maxChunk).(ps := BootBlocks()[0 := IDLE.(stack := stack)])
  }

  lemma FirstStack(memoryTotal: nat, memoryKernel: nat, multicore: bool)
    ensures var (used, maxChunk) := FirstMemory(memoryTotal, memoryKernel, multicore);
            && (forall c :: c in used ==> c < RESERVED_CHUNKS)
            && Allocated(used, IDLE.stackSize, maxChunk)
            == if maxChunk > RESERVED_CHUNKS + 1 then (IDLE.stack, used + {RESERVED_CHUNKS}) else (0, used)
  {
    var (used, maxChunk) := FirstMemory(memoryTotal, memoryKernel, multicore);
    assert forall c :: c in used ==> c < RESERVED_CHUNKS;
    assert Range(RESERVED_CHUNKS, 1) == {RESERVED_CHUNKS};
    if maxChunk > RESERVED_CHUNKS + 1 {
      assert Fits(used, 1, RESERVED_CHUNKS, maxChunk);
    }
  }

  /** With memory for the idle task's stack the kernel comes up in the boot world. */
  lemma BootFromIsBoot(memoryTotal: nat, memoryKernel: nat, multicore: bool)
    requires FirstMemory(memoryTotal, memoryKernel, multicore).1 > RESERVED_CHUNKS + 1
    ensures var (used, maxChunk) := FirstMemory(memoryTotal, memoryKernel, multicore);
            BootFrom(memoryTotal, memoryKernel, multicore) == Boot(used + {RESERVED_CHUNKS}, maxChunk)
  {
    hide Allocated, FirstMemory;
    FirstStack(memoryTotal, memoryKernel, multicore);
    assert BootBlocks()[0 := IDLE.(stack := IDLE.stack)] == BootBlocks();
  }

  lemma {:induction false} NoRefs(ps: seq<Pcb>, f: int)
    requires forall i :: 0 <= i < |ps| ==> PcbRefs(ps[i], f) == 0
    ensures SlotRefs(ps, f) == 0
    decreases |ps|
  {
    if ps != [] {
      NoRefs(ps[1..], f);
    }
  }

  lemma {:induction false} NoInodeRefs(files: seq<FileObject>, n: int)
    requires forall f :: 0 <= f < |files| ==> Contribution(files[f], n) == 0
    ensures InodeRefs(files, n) == 0
    decreases |files|
  {
    if files != [] {
      NoInodeRefs(files[1..], n);
    }
  }

  /** One block that counts among blocks that do not. */
  lemma OneHolder(ps: seq<Pcb>, i: nat, f: int)
    requires i < |ps| && forall j :: 0 <= j < |ps| && j != i ==> PcbRefs(ps[j], f) == 0
    ensures SlotRefs(ps, f) == PcbRefs(ps[i], f)
  {
    var blank := ps[i := ps[i].(valid := false)];
    NoRefs(blank, f);
    SlotRefsUpdate(ps, i, ps[i].(valid := false), f);
  }

  lemma OneUser(files: seq<FileObject>, i: nat, n: int)
    requires i < |files| && forall j :: 0 <= j < |files| && j != i ==> Contribution(files[j], n) == 0
    ensures InodeRefs(files, n) == Contribution(files[i], n)
  {
    var none := files[i := FileObject(0, NIL)];
    NoInodeRefs(none, n);
    InodeRefsUpdate(files, i, FileObject(0, NIL), n);
  }

  lemma BootTablesBalance(n: nat)
    requires n < NUM_INODES
    ensures InodeExcess(BootTables(), n) == 0
  {
    if n < 3 {
      OneUser(BootTables().files, n, n);
    } else {
      NoInodeRefs(BootTables().files, n);
    }
  }

  lemma BootList(ps: seq<Pcb>, availPid: nat)
    requires |ps| == MAX_PROCS && ps[0] == IDLE.(stack := ps[0].stack) && ps[1] == INIT && availPid >= 2
    requires forall i :: 2 <= i < MAX_PROCS ==> !ps[i].valid
    ensures Listed(ps, 0, [0, 1], availPid)
  {
    var order := [0, 1];
    assert Linked(ps, 0, order);
    assert forall i :: i in order <==> i == 0 || i == 1;
  }

  lemma BootSlots(ps: seq<Pcb>)
    requires |ps| == MAX_PROCS && ps[0] == IDLE.(stack := ps[0].stack) && ps[1] == INIT
    requires forall i :: 2 <= i < MAX_PROCS ==> |ps[i].files| == MAX_FD_PER_PROC && SlotValues(ps[i].files)
    ensures SlotsInRange(ps)
  {
    assert SlotValues(NO_FILES) && SlotValues(INIT.files);
  }

  /** Idle, init and blank blocks, with nobody asleep, make a good world. */
  lemma BootLike(w: World)
    requires |w.ps| == MAX_PROCS && w.ps[0] == IDLE.(stack := w.ps[0].stack) && w.ps[1] == INIT
    requires forall i :: 2 <= i < MAX_PROCS ==>
      !w.ps[i].valid && w.ps[i].waitNext == NIL && |w.ps[i].files| == MAX_FD_PER_PROC && SlotValues(w.ps[i].files)
    requires w.first == 0 && w.cur == 1 && w.order == [0, 1] && w.availPid >= 2 && Shape(w.tables)
    requires w.waitFirst == NIL && w.queue == []
    requires |w.target| == MAX_PROCS && forall i :: 0 <= i < MAX_PROCS && i != 1 ==> w.target[i] == NIL
    requires w.target[1] == NIL || 0 <= w.target[1] < MAX_PROCS
    ensures Good(w)
  {
    hide Listed, SlotsInRange, SlotValues, Shape;
    BootList(w.ps, w.availPid);
    BootSlots(w.ps);
    assert w.order[1] == 1;
    assert forall i :: i in w.order <==> i == 0 || i == 1;
  }

  lemma BootIsGood(used: set<int>, maxChunk: nat)
    ensures Good(Boot(used, maxChunk))
  {
    hide Good;
    assert SlotValues(NO_FILES);
    BootLike(Boot(used, maxChunk));
  }

  lemma BootFromIsGood(memoryTotal: nat, memoryKernel: nat, multicore: bool)
    ensures Good(BootFrom(memoryTotal, memoryKernel, multicore))
  {
    hide Good, Allocated, FirstMemory;
    assert SlotValues(NO_FILES);
    BootLike(BootFrom(memoryTotal, memoryKernel, multicore));
  }

  /** The tables once the first k standard descriptors have been set up. */
  function SpecialTables(k: nat): (r: Tables)
    requires k <= 3
    ensures Shape(r)
    ensures forall f :: 0 <= f < MAX_OPEN_FILES ==> r.files[f] == if f < k then FileObject(1, f) else FileObject(0, NIL)
    ensures forall n :: 0 <= n < NUM_INODES ==> r.inodes[n] == if n < k then Inode(1, n, 0) else Inode(0, 0, 0)
  {
    Tables(seq(MAX_OPEN_FILES, f => if f < k then FileObject(1, f) else FileObject(0, NIL)),
           seq(NUM_INODES, n => if n < k then Inode(1, n, 0) else Inode(0, 0, 0)))
  }

  /** Each takes the next entry of both tables. */
  lemma SpecialNext(k: nat)
    requires k < 3
    ensures InodeAllocated(SpecialTables(k)).1.Some? && Special(SpecialTables(k), k) == SpecialTables(k + 1)
  {
    var t, t1 := SpecialTables(k), SpecialTables(k + 1);
    assert FreeEntry(t.inodes[k]) && forall n :: 0 <= n < k ==> !FreeEntry(t.inodes[n]);
    assert InodeAllocated(t).1 == Some(k);
    assert Special(t, k).files == t1.files && Special(t, k).inodes == t1.inodes;
  }

  lemma SpecialsAreBoot()
    ensures SpecialTables(3) == BootTables()
  {
    assert SpecialTables(3).files == BootTables().files && SpecialTables(3).inodes == BootTables().inodes;
  }

  lemma SlotPut(fds: seq<int>, d: nat, g: int, f: int)
    requires d < |fds|
    ensures multiset(fds[d := g])[f] == multiset(fds)[f] - (if fds[d] == f then 1 else 0) + (if g == f then 1 else 0)
  {}

  lemma InitRefs(f: int)
    requires 0 <= f
    ensures PcbRefs(INIT, f) == if f < 3 then 1 else 0
  {
    var one := NO_FILES[0 := 0];
    var two := one[1 := 1];
    assert f !in NO_FILES;
    SlotPut(NO_FILES, 0, 0, f);
    SlotPut(one, 1, 1, f);
    SlotPut(two, 2, 2, f);
    assert INIT.files == two[2 := 2];
  }

  lemma BootFiles(f: nat)
    requires f < MAX_OPEN_FILES
    ensures FileExcess(BootBlocks(), BootTables().files, f) == 0
  {
    assert PcbRefs(IDLE, f) == 0 && PcbRefs(BLANK, f) == 0;
    OneHolder(BootBlocks(), 1, f);
    InitRefs(f);
  }

  lemma BootConserves(used: set<int>, maxChunk: nat)
    ensures Conserved(Boot(used, maxChunk).ps, Boot(used, maxChunk).tables)
  {
    hide FileExcess, InodeExcess, BootBlocks, BootTables;
    forall n: nat | n < NUM_INODES ensures InodeExcess(BootTables(), n) == 0 {
      BootTablesBalance(n);
    }
    forall f: nat | f < MAX_OPEN_FILES ensures FileExcess(BootBlocks(), BootTables().files, f) == 0 {
      BootFiles(f);
    }
    assert SlotValues(NO_FILES);
    BootSlots(BootBlocks());
  }

  lemma BootOwnsNothing(used: set<int>, maxChunk: nat)
    ensures MemOk(Boot(used, maxChunk))
  {}

  /** The very first dup2 with a closed old descriptor breaks conservation: standard output is given up, and its slot
      stays. */
  lemma DupCounterexample(used: set<int>, maxChunk: nat)
    ensures var w := Boot(used, maxChunk);
            && Good(w) && Conserved(w.ps, w.tables) && Enabled(w, Dup2(5, 1))
            && !Conserved(Step(w, Dup2(5, 1)).ps, Step(w, Dup2(5, 1)).tables)
  {
    var w := Boot(used, maxChunk);
    BootIsGood(used, maxChunk);
    BootConserves(used, maxChunk);
    DupConservesIff(w, 5, 1);
  }

  lemma Loses(used: set<int>, maxChunk: nat, a: Action)
    requires Good(Boot(used, maxChunk)) && Enabled(Boot(used, maxChunk), a) && !Keeps(Boot(used, maxChunk), a)
    ensures var w := Boot(used, maxChunk);
            Conserved(w.ps, w.tables) && !Conserved(Step(w, a).ps, Step(w, a).tables)
  {
    hide Good, Enabled, Step, Keeps, Boot, Conserved;
    BootConserves(used, maxChunk);
    StepConservesIff(Boot(used, maxChunk), a);
  }

  lemma BootEntries()
    ensures InodeAllocated(BootTables()).1 == Some(3) && FindFrom(BootTables().files, FreeObject, 0) == Some(3)
  {
    var t := BootTables();
    assert FreeEntry(t.inodes[3]) && FreeObject(t.files[3]);
    assert forall k :: 0 <= k < 3 ==> !FreeEntry(t.inodes[k]) && !FreeObject(t.files[k]);
  }

  ghost predicate LosesAtBoot(used: set<int>, maxChunk: nat, a: Action)
    requires Good(Boot(used, maxChunk))
  {
    var w := Boot(used, maxChunk);
    Conserved(w.ps, w.tables) && Enabled(w, a) && !Conserved(Step(w, a).ps, Step(w, a).tables)
  }

  /** No machine has room for a gigabyte beside the kernel. */
  lemma TooLarge(used: set<int>, maxChunk: nat)
    requires maxChunk <= MAP_CHUNKS
    ensures Allocated(used, GIGABYTE, maxChunk) == (0, used)
  {}

  lemma CreationFails()
    ensures Shape(BootTables()) && !OpenConserves(BootTables(), NotFound, Some(Creation(Found(1, 7), None, true)))
  {
    var t := BootTables();
    BootEntries();
    var t1 := LookedUp(t, NotFound).0;
    assert FreeEntry(t1.inodes[3]);
  }

  lemma GuardsFail(used: set<int>, maxChunk: nat, stackSize: nat, programSize: nat)
    requires Good(Boot(used, maxChunk)) && maxChunk <= MAP_CHUNKS
    ensures var w := Boot(used, maxChunk);
            && (forall a: Action :: a.Open? || a.Exec? ==> Enabled(w, a))
            && !Keeps(w, Open(NotFound, Some(Creation(Found(1, 7), None, true))))
            && !Keeps(w, Exec(Found(1, 7), 1, GIGABYTE))
            && !Keeps(w, Exec(NoMount, stackSize, programSize))
  {
    hide ListWf, TablesWf, RunWf, Queued, SleepInv, CurReady, BootTables, InodeAllocated, FindFrom, FileOpened,
         LookedUp, Allocated;
    BootEntries();
    TooLarge(Allocated(used, 1, maxChunk).1, maxChunk);
    CreationFails();
    assert INIT.files[3] == NIL;
    assert FreeSlot(INIT.files).Some?;
  }

  /** Calls that lose a reference as the very first thing init does: opening a file that the file system then does
      not create, and executing a program for which there is no memory. So does an execve() under no mount, but only
      that of the boot itself can meet one: if "/" could not be mounted, init is not started at all. */
  lemma LosingCalls(used: set<int>, maxChunk: nat, stackSize: nat, programSize: nat)
    requires maxChunk <= MAP_CHUNKS
    ensures Good(Boot(used, maxChunk))
    ensures LosesAtBoot(used, maxChunk, Open(NotFound, Some(Creation(Found(1, 7), None, true))))
    ensures LosesAtBoot(used, maxChunk, Exec(Found(1, 7), 1, GIGABYTE))
    ensures LosesAtBoot(used, maxChunk, Exec(NoMount, stackSize, programSize))
  {
    hide Good, Step, Keeps, Conserved, Boot, Enabled;
    BootIsGood(used, maxChunk);
    GuardsFail(used, maxChunk, stackSize, programSize);
    Loses(used, maxChunk, Open(NotFound, Some(Creation(Found(1, 7), None, true))));
    Loses(used, maxChunk, Exec(Found(1, 7), 1, GIGABYTE));
    Loses(used, maxChunk, Exec(NoMount, stackSize, programSize));
  }

  /** Over every run from the boot world: references are conserved throughout exactly when every call meets its
      condition, and memory is owned exclusively throughout exactly when no step frees chunks of another process. */
  lemma EveryRun(used: set<int>, maxChunk: nat, actions: seq<Action>)
    requires Good(Boot(used, maxChunk)) && Can(Boot(used, maxChunk), actions)
    ensures ConservedThroughout(Boot(used, maxChunk), actions) <==> KeepsThroughout(Boot(used, maxChunk), actions)
    ensures MemOkThroughout(Boot(used, maxChunk), actions) <==> MemKeepsThroughout(Boot(used, maxChunk), actions)
  {
    hide Good, Can, ConservedThroughout, KeepsThroughout, MemOkThroughout, MemKeepsThroughout, Boot, Conserved, MemOk;
    BootConserves(used, maxChunk);
    BootOwnsNothing(used, maxChunk);
    RunConservesIff(Boot(used, maxChunk), actions);
    RunKeepsMemoryIff(Boot(used, maxChunk), actions);
  }
}
