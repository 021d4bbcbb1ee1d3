/** The system calls, updating the process table, the file tables and the chunk map in place.
    Each is proved to take the kernel to the world the corresponding step names. */
module KernelCalls {
  import opened Common
  import opened Processes
  import opened Descriptors
  import opened Chunks
  import opened ProcessTables
  import opened FileTables
  import opened ChunkMaps
  import opened Kernels
  import opened KernelStructure
  import opened KernelReferences
  import opened KernelSlots
  import opened KernelBoot
  import opened KernelEffects

  /** Taking block p off the list leaves its descriptors and its memory as they were. */
  lemma UnlinkedKeepsBlock(w: World, p: int)
    requires Wf(w) && 0 <= p < |w.ps| && p != w.first
    ensures var after := Destroyed(w, p).ps;
            && |after| == |w.ps| && after[p].files == w.ps[p].files
            && after[p].stack == w.ps[p].stack && after[p].stackSize == w.ps[p].stackSize
            && after[p].text == w.ps[p].text && after[p].textSize == w.ps[p].textSize
  {
    hide ListWf, TablesWf, RunWf, Queued, Destroyed;
    DestroyedChanges(w, p);
  }

  lemma {:induction false} IncrementedAllKeepsInodes(t: Tables, fds: seq<int>)
    requires Shape(t) && SlotValues(fds)
    ensures forall f :: 0 <= f < MAX_OPEN_FILES ==> IncrementedAll(t, fds).files[f].inode == t.files[f].inode
    decreases |fds|
  {
    if fds != [] {
      IncrementedAllKeepsInodes(t, fds[..|fds| - 1]);
    }
  }

  /** The descriptors of the running process have inodes. */
  lemma BackedSlots(w: World)
    requires Wf(w) && Backed(w) && Kernels.InRange(w)
    ensures SlotValues(w.ps[w.cur].files)
    ensures forall d :: 0 <= d < MAX_FD_PER_PROC && w.ps[w.cur].files[d] != NIL ==>
              w.tables.files[w.ps[w.cur].files[d]].inode != NIL
  {
    hide ListWf, TablesWf, RunWf, Queued;
    assert SlotsBacked(w.tables, w.ps[w.cur].files);
  }

  lemma SameBacked(w: World, w1: World)
    requires Backed(w) && SameSlots(w.ps, w1.ps) && w1.tables == w.tables
    ensures Backed(w1)
  {
    BackedCarries(w, w1);
  }

  /** What dup2 returns: the error of the descriptor it could not use, or 0. */
  function DupResult(w: World, oldfd: nat, newfd: nat): int
    requires Wf(w) && newfd < MAX_FD_PER_PROC
  {
    hide ListWf, TablesWf, RunWf, Queued;
    Ranges(w);
    var g := if w.ps[w.cur].files[newfd] == NIL then 0 else Mapped(w, w.tables, newfd);
    var t := if w.ps[w.cur].files[newfd] == NIL || g < 0 then w.tables else FileFreed(w.tables, g);
    if g < 0 then g else if Mapped(w, t, oldfd) < 0 then Mapped(w, t, oldfd) else 0
  }

  lemma ForkedIs(w: World, c: int)
    requires Wf(w) && 0 <= c < |w.ps| && !w.ps[c].valid
    ensures var made := Inserted(w.ps[c := NewPcb(w.availPid)], w.order, c);
            && Shape(w.tables) && |made| == |w.ps| && 0 <= w.cur < |w.ps| && c != w.cur
            && SlotValues(w.ps[w.cur].files) && made[c].pid == w.availPid && made[w.cur].files == w.ps[w.cur].files
            && ForkedInto(w, c) ==
                 w.(ps := made[c := ChildOf(made[c], made[w.cur], w.cur)][w.cur := made[w.cur].(status := Sleeping)],
                    order := w.order + [c], availPid := w.availPid + 1,
                    tables := IncrementedAll(w.tables, w.ps[w.cur].files))
  {
    hide TablesWf, RunWf, Queued, Inserted, IncrementedAll, Listed;
    WithProcessChanges(w, c);
    ForkedChanges(w, c);
  }

  lemma AllocatedIs(used: set<int>, size: nat, maxChunk: nat)
    ensures match Placed(used, size, UserRegion, maxChunk)
            case None => Allocated(used, size, maxChunk) == (0, used)
            case Some(i) =>
              && i >= RESERVED_CHUNKS
              && Allocated(used, size, maxChunk) == (i * CHUNK_SIZE, used + Range(i, BlockChunks(size)))
  {}

  lemma FreedIs(address: nat, size: nat)
    ensures FreedAt(address, size) == if address == 0 then {} else Range(address / CHUNK_SIZE, FreedChunks(size))
  {}

  lemma OnList(w: World)
    requires Wf(w)
    ensures Linked(w.ps, w.first, w.order) && w.order != [] && w.order[0] == w.first
  {
    hide TablesWf, RunWf, Queued, Linked;
    Ranges(w);
  }

  lemma ParentWokenListed(w: World)
    requires Wf(w) && w.cur != w.first && Backed(w)
    requires 0 <= w.cur < |w.ps| && 0 <= w.ps[w.cur].parent < |w.ps|
    ensures Linked(ParentWoken(w).ps, w.first, w.order) && w.order != []
    ensures Backed(Scheduled(ParentWoken(w)))
  {
    hide Picked, TablesWf, RunWf, Queued, Linked, Backed;
    OnList(w);
    LinkedCarries(w.ps, ParentWoken(w).ps, w.first, w.order);
    Ranges(w);
    SameBacked(w, Scheduled(ParentWoken(w)));
  }

  lemma CurUnqueued(w: World)
    requires Good(w) && Kernels.InRange(w) && w.target[w.cur] == NIL
    ensures w.cur !in w.queue
  {
    hide ListWf, TablesWf, RunWf, Queued;
  }

  lemma EndedListed(w: World, status: int)
    requires Wf(w) && Backed(w) && w.cur !in w.queue && 0 <= w.cur < |w.ps|
    ensures var mid := w.ps[w.cur := w.ps[w.cur].(status := Exited, exitValue := status)];
            Queued(mid, w.waitFirst, w.queue) && Linked(Ended(w, status).ps, w.first, w.order)
    ensures Backed(Scheduled(Ended(w, status))) && w.order != []
  {
    hide Picked, TablesWf, RunWf, Queued, Linked, Backed;
    OnList(w);
    Ranges(w);
    QueueCarries(w.ps, w.ps[w.cur := w.ps[w.cur].(status := Exited, exitValue := status)], w.waitFirst, w.queue);
    LinkedCarries(w.ps, Ended(w, status).ps, w.first, w.order);
    SameBacked(w, Scheduled(Ended(w, status)));
  }

  lemma SleptIs(w: World, t: int)
    requires Wf(w) && Backed(w)
    ensures Backed(Scheduled(SleptOn(w, t))) && Kernels.InRange(w)
    ensures SleptOn(w, t) == w.(ps := Enqueued(w.ps, w.queue, w.cur),
                                waitFirst := if w.queue == [] then w.cur else w.waitFirst,
                                queue := QueueWith(w.queue, w.cur),
                                target := w.target[w.cur := t])
  {
    hide Picked, ListWf, TablesWf, RunWf, Queued, Enqueued, Backed;
    SleptChanges(w, t);
    SameBacked(w, Scheduled(SleptOn(w, t)));
  }

  lemma NamedInTable(w: World, t: int)
    requires Wf(w) && t in w.order
    ensures 0 <= t < |w.ps|
  {
    hide ListWf, TablesWf, RunWf, Queued;
    Ranges(w);
  }

  lemma ForkedListed(w: World, c: int)
    requires Wf(w) && 0 <= c < |w.ps| && !w.ps[c].valid
    ensures var w1 := ForkedInto(w, c);
            Linked(w1.ps, w.first, w1.order) && w1.order == w.order + [c] && w1.cur == w.cur && w.cur in w1.order
            && w1.tables == IncrementedAll(w.tables, w.ps[w.cur].files)
  {
    hide TablesWf, RunWf, Queued, Linked, ForkedInto, IncrementedAll;
    ForkedKeepsList(w, c);
    ForkedChanges(w, c);
    ForkedSame(w, c);
    ForkedTables(w, c);
  }

  lemma InvalidUnlisted(w: World)
    requires Wf(w)
    ensures forall i :: 0 <= i < |w.ps| && !w.ps[i].valid ==> i !in w.order
  {
    hide TablesWf, RunWf, Queued, Linked;
  }

  lemma PutKeepsListed(w: World, p: int)
    requires Linked(w.ps, w.first, w.order) && 0 <= p < |w.ps|
    ensures Linked(w.ps[p := w.ps[p].(valid := false)], w.first, w.order)
  {
    hide Linked;
    LinkedCarries(w.ps, w.ps[p := w.ps[p].(valid := false)], w.first, w.order);
  }

  lemma TablesKeepWf(w: World, t: Tables)
    requires Wf(w) && Shape(t)
    ensures Wf(w.(tables := t))
  {
    hide Listed, Queued, SlotsInRange, Shape;
  }

  lemma ClosingKeepsShape(w: World, newfd: nat)
    requires Wf(w) && newfd < MAX_FD_PER_PROC
    ensures forall g :: 0 <= g < MAX_OPEN_FILES ==> Wf(w.(tables := FileFreed(w.tables, g)))
  {
    hide ListWf, Queued, RunWf, FileFreed;
    Ranges(w);
    forall g: nat | g < MAX_OPEN_FILES ensures Wf(w.(tables := FileFreed(w.tables, g))) {
      TablesKeepWf(w, FileFreed(w.tables, g));
    }
  }

  lemma BootIsBacked(memoryTotal: nat, memoryKernel: nat, multicore: bool)
    ensures Backed(BootFrom(memoryTotal, memoryKernel, multicore))
  {
    hide Allocated, FirstMemory;
  }

  /** The process table with the idle task only. */
  function IdleAlone(stack: nat): (r: seq<Pcb>)
    ensures |r| == MAX_PROCS && r[0] == IDLE.(next := NIL, stack := stack) && forall i :: 1 <= i < MAX_PROCS ==>
              r[i] == BLANK
  {
    seq(MAX_PROCS, i => if i == 0 then IDLE.(next := NIL, stack := stack) else BLANK)
  }

  lemma SlotNext(files: seq<int>, k: nat)
    requires k < 3 <= |files|
    ensures ([0, 1, 2][..k] + files[k..])[k := k] == [0, 1, 2][..k + 1] + files[k + 1..]
  {}

  lemma AloneLinked(stack: nat)
    ensures Linked(IdleAlone(stack), 0, [0])
  {}

  class Kernel {
    const table: ProcessTable
    const fs: FileTable
    const memory: ChunkMap

    /** For each block, the block it waits for inside waitpid(), or NIL. */
    ghost var target: seq<int>

    /** The kernel as it enters user space: memory set up, the idle task and init on the list, init with its three
        descriptors. A machine without memory for the idle task's stack gets this far too. */
    constructor (memoryTotal: nat, memoryKernel: nat, multicore: bool, beyond: nat -> bool)
      ensures Valid() && State() == BootFrom(memoryTotal, memoryKernel, multicore)
      ensures fresh(table) && fresh(table.procs) && fresh(fs) && fresh(fs.files) && fresh(fs.inodes)
      ensures fresh(memory) && fresh(memory.memoryMap)
    {
      hide Good, Backed, BootBlocks, BootTables, UsedOf, Linked, Queued, FirstMemory, Allocated, SpecialTables;
      table := new ProcessTable();
      fs := new FileTable();
      memory := new ChunkMap();
      target := seq(MAX_PROCS, _ => NIL);
      new;
      MemoryHierarchyInit(memoryTotal, memoryKernel, multicore);
      CreateIdleTask(beyond);
      StartUserspace();
      SpecialsAreBoot();
      BootFromIsGood(memoryTotal, memoryKernel, multicore);
      BootIsBacked(memoryTotal, memoryKernel, multicore);
    }

    ghost function State(): World
      reads this, table, table.procs, fs, fs.files, fs.inodes, memory, memory.memoryMap
    {
      World(table.procs[..], table.first, table.availPid, table.current, table.order, fs.Table(),
            memory.Used(), memory.maxChunk, table.waitFirst, table.queue, target)
    }

    ghost predicate Valid()
      reads this, table, table.procs, fs, fs.files, fs.inodes, memory, memory.memoryMap
    {
      Good(State()) && memory.Valid() && Backed(State())
    }

    /** memory_hierarchy_init; the answer of memory_init is not looked at. */
    method MemoryHierarchyInit(memoryTotal: nat, memoryKernel: nat, multicore: bool)
      requires memory.Valid() && memory.Used() == {} && memory.maxChunk == 0
      modifies memory, memory.memoryMap
      ensures memory.Valid() && (memory.Used(), memory.maxChunk) == FirstMemory(memoryTotal, memoryKernel, multicore)
    {
      hide UsedOf;
      var r := memory.Init(memoryTotal, memoryKernel);
      assert memory.Used() == memory.Used() + {} == FirstMemory(memoryTotal, memoryKernel, false).0;
      if multicore {
        var c := 0xff4000;
        ghost var used := memory.Used();
        while c < 0x100_0000
          invariant memory.Valid() && memory.maxChunk == FirstMemory(memoryTotal, memoryKernel, multicore).1
          invariant 0xff4000 <= c <= 0x100_0000 && c % CHUNK_SIZE == 0
          invariant memory.Used() == used + Range(4084, c / CHUNK_SIZE - 4084)
        {
          memory.MarkUsed(c / CHUNK_SIZE);
          c := c + CHUNK_SIZE;
        }
        assert memory.Used() == FirstMemory(memoryTotal, memoryKernel, true).0;
      }
    }

    /** create_idle_task. */
    method CreateIdleTask(beyond: nat -> bool)
      requires table.procs.Length == MAX_PROCS && forall i :: 0 <= i < MAX_PROCS ==> table.procs[i] == BLANK
      requires table.first == NIL && table.order == [] && table.availPid == 0 && memory.Valid()
      modifies table`first, table`order, table`availPid, table.procs, memory.memoryMap
      ensures var (stack, used) := Allocated(old(memory.Used()), IDLE.stackSize, memory.maxChunk);
              memory.Used() == used && table.procs[..] == IdleAlone(stack)
      ensures table.first == 0 && table.order == [0] && table.availPid == 1
    {
      hide UsedOf, Placed, Allocated, Range;
      assert FreeBlock(table.procs[..]) == Some(0);
      var idle := table.Create();
      var p := table.procs[idle].(text := IDLE.text, textSize := 4);
      AllocatedIs(memory.Used(), 4096, memory.maxChunk);
      var stack := memory.Allocate(4096, UserRegion, beyond);
      p := p.(stack := stack, stackSize := 4096);
      table.procs[idle] := p.(status := Ready);
      assert table.procs[..] == IdleAlone(stack);
    }

    /** init as process_create leaves it, put on the list and made its own parent. */
    method CreateInit()
      requires table.procs.Length == MAX_PROCS && table.procs[..] == IdleAlone(table.procs[0].stack)
      requires table.first == 0 && table.order == [0] && table.availPid == 1
      modifies table`first, table`order, table`availPid, table`current, table.procs
      ensures table.procs[..]
           == BootBlocks()[0 := IDLE.(stack := old(table.procs[0].stack))][1 := INIT.(status := Sleeping,
                                                                                      files := NO_FILES)]
      ensures table.first == 0 && table.order == [0, 1] && table.availPid == 2 && table.current == 1
    {
      ghost var stack := table.procs[0].stack;
      AloneLinked(stack);
      assert table.procs[..][0].valid && !table.procs[..][1].valid;
      assert FreeBlock(table.procs[..]) == Some(1);
      var init := table.Create();
      table.current := init;
      table.procs[init] := table.procs[init].(parent := init);
      assert table.procs[..]
             == BootBlocks()[0 := IDLE.(stack := stack)][1 := INIT.(status := Sleeping, files := NO_FILES)];
    }

    /** The three standard descriptors of block p. */
    method OpenStandard(p: nat)
      requires p < table.procs.Length && |table.procs[p].files| >= 3 && fs.Table() == SpecialTables(0)
      modifies table.procs, fs.files, fs.inodes
      ensures table.procs[..]
              == old(table.procs[..])[p := old(table.procs[p]).(files := [0, 1, 2] + old(table.procs[p].files)[3..])]
      ensures fs.Table() == SpecialTables(3)
    {
      hide Special, InodeAllocated, SpecialTables;
      ghost var was := table.procs[..];
      ghost var files := was[p].files;
      var which := 0;
      assert [0, 1, 2][..0] + files[0..] == files && was[p := was[p].(files := files)] == was;
      while which < 3
        invariant 0 <= which <= 3 && fs.Table() == SpecialTables(which)
        invariant table.procs[..] == was[p := was[p].(files := [0, 1, 2][..which] + files[which..])]
      {
        SpecialNext(which);
        fs.FileSpecial(which);
        SlotNext(files, which);
        table.procs[p] := WithSlot(table.procs[p], which, which);
        which := which + 1;
      }
      assert [0, 1, 2][..3] == [0, 1, 2];
    }

    /** start_userspace, up to its execve(): init with the three standard descriptors. */
    method StartUserspace()
      requires table.procs.Length == MAX_PROCS && table.procs[..] == IdleAlone(table.procs[0].stack)
      requires table.first == 0 && table.order == [0] && table.availPid == 1
      requires fs.files.Length == MAX_OPEN_FILES && fs.inodes.Length == NUM_INODES
      requires forall f :: 0 <= f < MAX_OPEN_FILES ==> fs.files[f] == FileObject(0, NIL)
      requires forall n :: 0 <= n < NUM_INODES ==> fs.inodes[n] == Inode(0, 0, 0)
      modifies table`first, table`order, table`availPid, table`current, table.procs, fs.files, fs.inodes
      ensures table.procs[..] == BootBlocks()[0 := IDLE.(stack := old(table.procs[0].stack))]
      ensures table.first == 0 && table.order == [0, 1] && table.availPid == 2 && table.current == 1
      ensures fs.Table() == SpecialTables(3)
    {
      hide IdleAlone;
      ghost var stack := table.procs[0].stack;
      assert fs.Table() == SpecialTables(0);
      CreateInit();
      var init := table.current;
      OpenStandard(init);
      table.procs[init] := table.procs[init].(status := Ready);
      assert [0, 1, 2] + NO_FILES[3..] == INIT.files;
      assert table.procs[..] == BootBlocks()[0 := IDLE.(stack := stack)];
    }

    lemma Facts()
      requires Valid()
      ensures Kernels.InRange(State()) && table.ListOk() && table.QueueOk() && Shape(fs.Table())
    {
      hide SleepInv;
      Ranges(State());
    }

    /** map_fd_to_file. */
    method MapFdToFile(fd: nat) returns (f: int)
      requires Wf(State())
      ensures f == Mapped(State(), State().tables, fd)
    {
      hide ListWf, TablesWf, RunWf, Queued;
      Ranges(State());
      if fd >= MAX_FD_PER_PROC {
        return -ENFILE;
      }
      f := table.procs[table.current].files[fd];
      if f == NIL {
        return -ENFILE;
      }
      if fs.files[f].count == 0 {
        return -EBADF;
      }
    }

    method CloseSyscall(fd: nat) returns (r: int)
      requires Valid()
      modifies table.procs, fs.files, fs.inodes
      ensures Valid() && State() == Closed(old(State()), fd)
      ensures var f := Mapped(old(State()), old(State()).tables, fd); r == if f < 0 then f else 0
      ensures r == 0 ==> fd < 8 && table.procs[table.current].files[fd] == NIL
      ensures r != 0 ==> r == -23 || r == -9
    {
      hide ListWf, TablesWf, RunWf, Queued, SleepInv, CurReady, FileFreed, Backed;
      Facts();
      ClosedKeeps(State(), fd);
      ClosedBacked(State(), fd);
      MappedIs(State(), fs.Table(), fd);
      CloseEffect(State(), fd);
      var f := MapFdToFile(fd);
      if f < 0 {
        return f;
      }
      r := fs.FileObjectFree(f);
      var p := table.procs[table.current];
      ghost var was := table.procs[..];
      table.procs[table.current] := p.(files := p.files[fd := NIL]);
      assert table.procs[..] == was[table.current := WithSlot(p, fd, NIL)];
    }

    /** open(): the first free descriptor, then a file object for the path. */
    method OpenSyscall(l: Lookup, c: Option<Creation>) returns (r: int)
      requires Valid()
      modifies table.procs, fs.files, fs.inodes
      ensures Valid() && State() == Opened(old(State()), l, c)
      ensures 0 <= old(table.current) < table.procs.Length && Shape(old(fs.Table()))
      ensures match FreeSlot(old(table.procs[table.current]).files)
              case None => r == -ENFILE
              case Some(d) => if FileOpened(old(fs.Table()), l, c).1.Some? then r == d else r < 0
      ensures r >= 0 ==> FirstFree(Slots(old(State())), r) && OpenedAt(old(State()), State(), r, l, c)
    {
      hide ListWf, TablesWf, RunWf, Queued, SleepInv, CurReady, FileOpened, Backed;
      Facts();
      OpenedKeeps(State(), l, c);
      OpenedBacked(State(), l, c);
      OpenEffect(State(), l, c);
      SlotsAre(State());
      var i := 0;
      var p := table.procs[table.current];
      while i < MAX_FD_PER_PROC
        modifies {}
        invariant 0 <= i <= MAX_FD_PER_PROC
        invariant forall j :: 0 <= j < i ==> p.files[j] != NIL
      {
        if p.files[i] == NIL { break; }
        i := i + 1;
      }
      if i == MAX_FD_PER_PROC {
        return -ENFILE;
      }
      var f := fs.OpenFileObject(l, c);
      if f < 0 {
        return f;
      }
      ghost var was := table.procs[..];
      table.procs[table.current] := p.(files := p.files[i := f]);
      assert table.procs[..] == was[table.current := WithSlot(p, i, f)];
      return i;
    }

    /** dup2(): closes newfd if it is open, then points it to oldfd's file object. */
    method Dup2Syscall(oldfd: nat, newfd: nat) returns (r: int)
      requires Valid() && newfd < MAX_FD_PER_PROC
      modifies table.procs, fs.files, fs.inodes
      ensures Valid() && State() == Duped(old(State()), oldfd, newfd)
      ensures r == DupResult(old(State()), oldfd, newfd)
      ensures r == 0 ==>
                && oldfd < 8 && Slots(old(State()))[oldfd] != NIL
                && table.procs[table.current].files[newfd] == Slots(old(State()))[oldfd]
    {
      hide ListWf, TablesWf, RunWf, Queued, SleepInv, CurReady, FileFreed, FileIncremented, Backed;
      Facts();
      ghost var w := State();
      DupedKeeps(w, oldfd, newfd);
      DupedBacked(w, oldfd, newfd);
      SlotsAre(w);
      ClosingKeepsShape(w, newfd);
      if table.procs[table.current].files[newfd] != NIL {
        var g := MapFdToFile(newfd);
        if g < 0 {
          return g;
        }
        r := fs.FileObjectFree(g);
      }
      assert State() == w.(tables := State().tables);
      var f := MapFdToFile(oldfd);
      if f < 0 {
        return f;
      }
      MappedHasInode(w, oldfd, newfd);
      fs.FilesIncrementCount(f);
      var p := table.procs[table.current];
      ghost var was := table.procs[..];
      table.procs[table.current] := p.(files := p.files[newfd := f]);
      assert table.procs[..] == was[table.current := WithSlot(p, newfd, f)];
      r := 0;
    }

    /** The loop of process_destroy that closes the block's descriptors. */
    method CloseAll(p: nat)
      requires p < table.procs.Length && |table.procs[p].files| == MAX_FD_PER_PROC
      requires SlotValues(table.procs[p].files) && Shape(fs.Table())
      modifies fs.files, fs.inodes
      ensures fs.Table() == FreedAll(old(fs.Table()), table.procs[p].files)
    {
      hide FileFreed;
      ghost var fds, t := table.procs[p].files, fs.Table();
      var i := 0;
      while i < MAX_FD_PER_PROC
        invariant 0 <= i <= MAX_FD_PER_PROC && Shape(fs.Table()) && fds == table.procs[p].files
        invariant fs.Table() == FreedAll(t, fds[..i])
      {
        assert fds[..i + 1][..i] == fds[..i] && Last(fds[..i + 1]) == fds[i];
        if table.procs[p].files[i] != NIL {
          var r := fs.FileObjectFree(table.procs[p].files[i]);
        }
        i := i + 1;
      }
      assert fds[..i] == fds;
    }

    /** process_destroy for a block other than the first. */
    method ProcessDestroy(p: nat)
      requires Wf(State()) && memory.Valid() && p < MAX_PROCS && p != table.first
      modifies table`first, table`order, table.procs, fs.files, fs.inodes, memory.memoryMap
      ensures memory.Valid() && State() == Destroyed(old(State()), p)
    {
      hide Listed, TablesWf, RunWf, Queued, FreedAll, Unlinked, Without, Linked;
      ghost var w := State();
      Ranges(w);
      OnList(w);
      PutKeepsListed(w, p);
      table.procs[p] := table.procs[p].(valid := false);
      assert table.procs[..] == w.ps[p := w.ps[p].(valid := false)];
      var r := table.Remove(p);
      UnlinkedKeepsBlock(w, p);
      CloseAll(p);
      if table.procs[p].stack != 0 {
        memory.Free(table.procs[p].stack, table.procs[p].stackSize);
      }
      if table.procs[p].text != 0 {
        memory.Free(table.procs[p].text, table.procs[p].textSize);
      }
    }

    /** The loop of vfork that counts the descriptors parent and child now share. */
    method CountAll(p: nat)
      requires p < table.procs.Length && |table.procs[p].files| == MAX_FD_PER_PROC
      requires SlotValues(table.procs[p].files) && Shape(fs.Table())
      requires forall d :: 0 <= d < MAX_FD_PER_PROC && table.procs[p].files[d] != NIL ==>
                 fs.files[table.procs[p].files[d]].inode != NIL
      modifies fs.files, fs.inodes
      ensures fs.Table() == IncrementedAll(old(fs.Table()), table.procs[p].files)
    {
      hide FileIncremented;
      ghost var fds, t := table.procs[p].files, fs.Table();
      var i := 0;
      while i < MAX_FD_PER_PROC
        invariant 0 <= i <= MAX_FD_PER_PROC && Shape(fs.Table()) && fds == table.procs[p].files
        invariant fs.Table() == IncrementedAll(t, fds[..i])
      {
        assert fds[..i + 1][..i] == fds[..i] && Last(fds[..i + 1]) == fds[i];
        if table.procs[p].files[i] != NIL {
          IncrementedAllKeepsInodes(t, fds[..i]);
          fs.FilesIncrementCount(table.procs[p].files[i]);
        }
        i := i + 1;
      }
      assert fds[..i] == fds;
    }

    /** The duplication in vfork: the child's block is the parent's except for what is restored or reset; their
        descriptors are counted again. */
    method Duplicate(child: nat, parent: nat)
      requires child < table.procs.Length && parent < table.procs.Length && child != parent
      requires |table.procs[parent].files| == MAX_FD_PER_PROC && SlotValues(table.procs[parent].files)
               && Shape(fs.Table())
      requires forall d :: 0 <= d < MAX_FD_PER_PROC && table.procs[parent].files[d] != NIL ==>
        fs.files[table.procs[parent].files[d]].inode != NIL
      modifies table.procs, fs.files, fs.inodes
      ensures var old', new' := old(table.procs[..]), table.procs[..];
              new' == old'[child := ChildOf(old'[child], old'[parent],
                                            parent)][parent := old'[parent].(status := Sleeping)]
      ensures fs.Table() == IncrementedAll(old(fs.Table()), old(table.procs[parent].files))
    {
      ghost var was := table.procs[..];
      var childPid := table.procs[child].pid;
      var prev, next := table.procs[child].prev, table.procs[child].next;
      table.procs[child] := table.procs[parent];
      CountAll(child);
      var c := table.procs[child];
      table.procs[child] := c.(pid := childPid, prev := prev, next := next, parent := parent, stack := 0, text := 0);
      table.procs[parent] := table.procs[parent].(status := Sleeping);
      table.procs[child] := table.procs[child].(status := Ready);
      assert table.procs[..]
             == was[child := ChildOf(was[child], was[parent], parent)][parent := was[parent].(status := Sleeping)];
    }

    /** vfork() up to the switch to another process: -1, or the pid that the parent will get. */
    method Vfork() returns (childPid: int)
      requires Valid() && table.current != table.first && State().target[table.current] == NIL
      modifies table, table.procs, fs.files, fs.inodes
      ensures Valid() && State() == Vforked(old(State()))
      ensures childPid == if FreeBlock(old(table.procs[..])).None? then -1 else old(table.availPid)
    {
      hide ListWf, TablesWf, RunWf, Queued, SleepInv, CurReady, Linked, Inserted, Backed, Picked,
           ForkedInto, WithProcess, ChildOf, IncrementedAll;
      Facts();
      ghost var w := State();
      OnList(w);
      InvalidUnlisted(w);
      VforkedKeeps(w);
      var parent := table.current;
      var child := table.Create();
      if child == NIL {
        return -1;
      }
      ForkedIs(w, child);
      ForkedTables(w, child);
      ForkedBacked(w, child);
      BackedSlots(w);
      childPid := table.procs[child].pid;
      Duplicate(child, parent);
      assert table.procs[..] == ForkedInto(w, child).ps;
      ForkedListed(w, child);
      table.Schedule();
    }

    /** Memory for the stack and the program; unless both are there, whichever was made is freed again. */
    method AllocateImage(stackSize: nat, programSize: nat, beyond: nat -> bool)
      returns (stack: nat, text: nat, ok: bool)
      requires memory.Valid()
      modifies memory.memoryMap
      ensures var (s, used1) := Allocated(old(memory.Used()), stackSize, memory.maxChunk);
              var (t, used2) := Allocated(used1, programSize, memory.maxChunk);
              && stack == s && text == t && ok == (s != 0 && t != 0)
              && memory.Used() == if ok then used2 else used2 - FreedAt(t, programSize) - FreedAt(s, stackSize)
    {
      hide Allocated, FreedAt, Range, Placed, BlockChunks, FreedChunks;
      AllocatedIs(memory.Used(), stackSize, memory.maxChunk);
      stack := memory.Allocate(stackSize, UserRegion, beyond);
      AllocatedIs(memory.Used(), programSize, memory.maxChunk);
      text := memory.Allocate(programSize, UserRegion, beyond);
      ok := text != 0 && stack != 0;
      FreedIs(text, programSize);
      FreedIs(stack, stackSize);
      if !ok {
        if text != 0 {
          memory.Free(text, programSize);
        }
        if stack != 0 {
          memory.Free(stack, stackSize);
        }
      }
    }

    /** execve() for an image of the given sizes: the argument count, or an error. The new blocks are installed only
        when both allocations succeed; otherwise whichever was made is freed again. */
    method Execve(l: Lookup, stackSize: nat, programSize: nat, argc: nat, beyond: nat -> bool) returns (r: int)
      requires Valid() && table.current != table.first
      modifies table.procs, fs.files, fs.inodes, memory.memoryMap
      ensures Valid() && State() == Loaded(old(State()), l, stackSize, programSize)
      ensures r == argc || r < 0
      ensures r == argc <==> LoadSucceeds(old(State()), l, stackSize, programSize)
      ensures r == argc ==>
                var (stack, used1) := Allocated(old(memory.Used()), stackSize, memory.maxChunk);
                var text := Allocated(used1, programSize, memory.maxChunk).0;
                table.procs[table.current] == old(table.procs[table.current])
                  .(stack := stack, stackSize := stackSize, text := text, textSize := programSize)
    {
      hide ListWf, TablesWf, RunWf, Queued, SleepInv, CurReady, FileOpened, FileFreed, Allocated, FreedAt, Backed,
           Range;
      Facts();
      ghost var w := State();
      LoadedKeeps(w, l, stackSize, programSize);
      LoadedBacked(w, l, stackSize, programSize);
      var f := fs.OpenFileObject(l, None);
      if f < 0 {
        return f;
      }
      var stack, text, ok := AllocateImage(stackSize, programSize, beyond);
      if !ok {
        assert State() == Loaded(w, l, stackSize, programSize);
        return -ENOMEM;
      }
      r := fs.FileObjectFree(f);
      var p := table.procs[table.current];
      p := p.(stack := stack, stackSize := stackSize);
      p := p.(text := text, textSize := programSize);
      table.procs[table.current] := p;
      assert table.procs[..] == w.ps[w.cur := p];
      r := argc;
    }

    /** The execve system call: afterwards the parent is made ready and another process may run. */
    method ExecveSyscall(l: Lookup, stackSize: nat, programSize: nat, argc: nat, beyond: nat -> bool) returns (r: int)
      requires Valid() && table.current != table.first
      modifies table`current, table.procs, fs.files, fs.inodes, memory.memoryMap
      ensures Valid() && State() == Execed(old(State()), l, stackSize, programSize)
      ensures r == argc || r < 0
      ensures r == argc <==> LoadSucceeds(old(State()), l, stackSize, programSize)
    {
      hide ListWf, TablesWf, RunWf, Queued, SleepInv, CurReady, Loaded, Backed, Linked, Picked, LoadSucceeds;
      ghost var w := State();
      ExecedKeeps(w, l, stackSize, programSize);
      r := Execve(l, stackSize, programSize, argc, beyond);
      ghost var w1 := State();
      Facts();
      ParentWokenKeeps(w1);
      ParentWokenListed(w1);
      var parent := table.procs[table.current].parent;
      table.procs[parent] := table.procs[parent].(status := Ready);
      assert table.procs[..] == ParentWoken(w1).ps;
      table.Schedule();
    }

    /** exit(): the exit value is kept, everything asleep in waitpid() wakes, and another process runs. */
    method Exit(status: int)
      requires Valid() && table.current != table.first && State().target[table.current] == NIL
      modifies table`current, table`waitFirst, table`queue, table.procs
      ensures Valid() && State() == Scheduled(Ended(old(State()), status))
      ensures var p := table.procs[old(table.current)]; p.status == Exited && p.exitValue == status
    {
      hide ListWf, TablesWf, RunWf, Queued, SleepInv, CurReady, Backed, Linked, Picked, Woken;
      Facts();
      ghost var w := State();
      ExitKeeps(w, status);
      CurUnqueued(w);
      EndedListed(w, status);
      EndEffect(w, status);
      table.procs[table.current] := table.procs[table.current].(status := Exited, exitValue := status);
      assert table.procs[..] == w.ps[w.cur := w.ps[w.cur].(status := Exited, exitValue := status)];
      table.WaitQueueWake();
      table.Schedule();
    }

    /** One turn of waitpid()'s loop on block t: it destroys the block if it has exited, and otherwise puts the
        process to sleep. `done` says whether the loop is over. */
    method WaitTurn(t: nat) returns (done: bool, wstatus: int)
      requires Valid() && t < MAX_PROCS && table.current != table.first
      requires State().target[table.current] == NIL || State().target[table.current] == t
      modifies this`target, table, table.procs, fs.files, fs.inodes, memory.memoryMap
      ensures Valid() && State() == Waited(old(State()), t)
      ensures done == old(table.procs[t].status == Exited)
      ensures done ==> wstatus == old(table.procs[t].exitValue)
    {
      hide ListWf, TablesWf, RunWf, Queued, SleepInv, CurReady, Backed, Linked, Picked, Destroyed, SleptOn, Enqueued;
      Facts();
      ghost var w := State();
      WaitedKeeps(w, t);
      if table.procs[t].status != Exited {
        SleptIs(w, t);
        OnList(w);
        target := target[table.current := t];
        table.WaitQueueAdd(table.current);
        return false, 0;
      }
      wstatus := table.procs[t].exitValue;
      DestroyedKeeps(w, t);
      DestroyedTables(w, t);
      DestroyedBacked(w, t);
      SameBacked(Destroyed(w, t), Destroyed(w, t).(target := target[table.current := NIL]));
      ProcessDestroy(t);
      target := target[table.current := NIL];
      done := true;
    }

    /** waitpid() up to its first sleep. The result is the pid it returns when it does not block, or the error; a
        child that has exited also leaves its exit value. */
    method Waitpid(pid: int, nohang: bool) returns (r: Option<int>, wstatus: Option<int>)
      requires Valid() && table.current != table.first && State().target[table.current] == NIL
      requires pid >= 0 ==> Named(State(), pid) != NIL
      modifies this`target, table, table.procs, fs.files, fs.inodes, memory.memoryMap
      ensures Valid() && State() == WaitCalled(old(State()), pid, nohang)
      ensures var w, t := old(State()), Named(old(State()), pid);
              r == if t < 0 then Some(t)
                   else if w.ps[t].status != Exited then (if nohang then Some(0) else None)
                   else Some(if nohang then w.ps[t].pid else pid)
      ensures var w, t := old(State()), Named(old(State()), pid);
              wstatus == if t >= 0 && w.ps[t].status == Exited then Some(w.ps[t].exitValue) else None
      ensures pid == -1 ==> (r == Some(-10) <==> forall p :: p in old(table.order) ==> !ChildOfCurrent(old(State()), p))
    {
      hide ListWf, TablesWf, RunWf, Queued, SleepInv, CurReady, Backed, Linked, Destroyed, Waited, FindFrom;
      Facts();
      ghost var w := State();
      WaitCalledKeeps(w, pid, nohang);
      ChildNamed(w);
      var t := 0;
      wstatus := None;
      if pid == -1 {
        t := table.LookupChild(table.current);
        if t == NIL {
          return Some(-ECHILD), None;
        }
      } else if pid < 0 {
        return Some(-ENODEV), None;
      } else {
        t := table.Lookup(pid);
      }
      assert t == Named(w, pid);
      NamedInTable(w, t);
      if nohang {
        if table.procs[t].status == Exited {
          wstatus := Some(table.procs[t].exitValue);
          r := Some(table.procs[t].pid);
          DestroyedKeeps(w, t);
          DestroyedTables(w, t);
          DestroyedBacked(w, t);
          ProcessDestroy(t);
        } else {
          r := Some(0);
        }
      } else {
        var done, value := WaitTurn(t);
        r := if done then Some(pid) else None;
        wstatus := if done then Some(value) else None;
      }
    }
  }
}
