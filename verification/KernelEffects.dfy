/** What the system calls do, field by field: the descriptors, blocks and counts after a call in terms of those
    before it, the process that waitpid() names, and the one that runs next. Error numbers are written out. */
module KernelEffects {
  import opened Common
  import opened Processes
  import opened Descriptors
  import opened DescriptorEffects
  import opened Chunks
  import opened Kernels
  import opened KernelStructure

  // ---------------------------------------------------------------- descriptors

  /** The descriptors of the running process. */
  function Slots(w: World): (fds: seq<int>)
    requires Wf(w)
    ensures |fds| == 8 && forall d :: 0 <= d < 8 ==> fds[d] == NIL || 0 <= fds[d] < MAX_OPEN_FILES
  {
    hide ListWf, TablesWf, RunWf, Queued;
    Ranges(w);
    w.ps[w.cur].files
  }

  lemma SlotsAre(w: World)
    requires Wf(w)
    ensures 0 <= w.cur < |w.ps| && Slots(w) == w.ps[w.cur].files && Shape(w.tables)
  {
    hide ListWf, TablesWf, RunWf, Queued;
    Ranges(w);
  }

  /** At most slot d of the running process and the tables change. */
  ghost predicate OnlySlot(w: World, w1: World, d: nat)
    requires Wf(w)
  {
    && w1 == w.(ps := w1.ps, tables := w1.tables)
    && |w1.ps| == |w.ps| && 0 <= w.cur < |w.ps|
    && (forall p :: 0 <= p < |w.ps| && p != w.cur ==> w1.ps[p] == w.ps[p])
    && w1.ps[w.cur] == w.ps[w.cur].(files := w1.ps[w.cur].files)
    && |w1.ps[w.cur].files| == 8
    && forall e :: 0 <= e < 8 && e != d ==> w1.ps[w.cur].files[e] == w.ps[w.cur].files[e]
  }

  lemma MappedIs(w: World, t: Tables, fd: nat)
    requires Wf(w) && Shape(t)
    ensures fd >= 8 || Slots(w)[fd] == NIL ==> Mapped(w, t, fd) == -23
    ensures fd < 8 && Slots(w)[fd] != NIL && t.files[Slots(w)[fd]].count == 0 ==> Mapped(w, t, fd) == -9
    ensures fd < 8 && Slots(w)[fd] != NIL && t.files[Slots(w)[fd]].count > 0 ==> Mapped(w, t, fd) == Slots(w)[fd]
  {
    hide ListWf, TablesWf, RunWf, Queued;
  }

  ghost predicate FirstFree(fds: seq<int>, d: nat) {
    d < |fds| && fds[d] == NIL && forall e :: 0 <= e < d ==> fds[e] != NIL
  }

  /** Descriptor d names a file object that was free, and that holds the file asked for. */
  ghost predicate OpenedAt(w: World, w1: World, d: nat, l: Lookup, c: Option<Creation>)
    requires Wf(w)
  {
    && d < 8 && OnlySlot(w, w1, d)
    && |w.tables.files| == MAX_OPEN_FILES && |w1.tables.files| == MAX_OPEN_FILES
    && var f := w1.ps[w.cur].files[d];
       && 0 <= f < MAX_OPEN_FILES && w.tables.files[f].count == 0
       && w1.tables.files[f].count == 1 && HoldsFile(w1.tables, f, l, c)
       && forall k :: 0 <= k < MAX_OPEN_FILES && k != f ==> w1.tables.files[k] == w.tables.files[k]
  }

  /** open(): the first free descriptor is taken; without one nothing happens, and when the file cannot be opened no
      descriptor and no file object changes. */
  lemma OpenEffect(w: World, l: Lookup, c: Option<Creation>)
    requires Wf(w) && Shape(w.tables)
    ensures (forall d :: 0 <= d < 8 ==> Slots(w)[d] != NIL) ==> Opened(w, l, c) == w
    ensures FileOpened(w.tables, l, c).1.None? ==>
              Opened(w, l, c) == w.(tables := Opened(w, l, c).tables) && Opened(w, l, c).tables.files == w.tables.files
    ensures FileOpened(w.tables, l, c).1.Some? ==>
              forall d :: FirstFree(Slots(w), d) ==> OpenedAt(w, Opened(w, l, c), d, l, c)
    ensures (exists d :: 0 <= d < 8 && Slots(w)[d] == NIL) ==> exists d: nat :: FirstFree(Slots(w), d)
  {
    hide ListWf, TablesWf, RunWf, Queued, FileOpened, HoldsFile;
    SlotsAre(w);
    OpenAnswers(w.tables, l, c);
    if FreeSlot(Slots(w)).Some? {
      assert FirstFree(Slots(w), FreeSlot(Slots(w)).value);
    }
  }

  /** close(): the descriptor is free afterwards, and its file object and that one's inode entry have one reference
      less. */
  lemma CloseEffect(w: World, fd: nat)
    requires Wf(w)
    ensures Shape(w.tables) && var w1, t := Closed(w, fd), w.tables;
            if fd < 8 && Slots(w)[fd] != NIL && t.files[Slots(w)[fd]].count > 0 then
              var f := Slots(w)[fd];
              var n := t.files[f].inode;
              && OnlySlot(w, w1, fd) && w1.ps[w.cur].files[fd] == NIL
              && |w1.tables.files| == MAX_OPEN_FILES && |w1.tables.inodes| == NUM_INODES
              && w1.tables.files[f].count == t.files[f].count - 1
              && (forall k :: 0 <= k < MAX_OPEN_FILES && k != f ==> w1.tables.files[k] == t.files[k])
              && (n != NIL && t.inodes[n].count > 0 ==> w1.tables.inodes[n].count == t.inodes[n].count - 1)
              && (forall k :: 0 <= k < NUM_INODES && k != n ==> w1.tables.inodes[k] == t.inodes[k])
            else w1 == w
  {
    hide ListWf, TablesWf, RunWf, Queued, FileFreed;
    SlotsAre(w);
    MappedIs(w, w.tables, fd);
    if fd < 8 && Slots(w)[fd] != NIL && w.tables.files[Slots(w)[fd]].count > 0 {
      FreeLowers(w.tables, Slots(w)[fd]);
    }
  }

  /** How often dup2() counts file object k once newfd has been given up. */
  function Remaining(w: World, newfd: nat, k: nat): int
    requires Wf(w) && newfd < 8 && k < |w.tables.files|
  {
    w.tables.files[k].count - if k == Slots(w)[newfd] then 1 else 0
  }

  /** dup2(): newfd names oldfd's file object, which has one reference more, and what newfd named has one less. When
      oldfd is of no use once newfd is given up, newfd still names what it named. */
  lemma DupEffect(w: World, oldfd: nat, newfd: nat)
    requires Wf(w) && newfd < 8
    ensures Shape(w.tables) && var w1, t, fds := Duped(w, oldfd, newfd), w.tables, Slots(w);
            if fds[newfd] != NIL && t.files[fds[newfd]].count == 0 then w1 == w
            else
              && |w1.tables.files| == MAX_OPEN_FILES
              && if oldfd < 8 && fds[oldfd] != NIL && Remaining(w, newfd, fds[oldfd]) > 0 then
                   && OnlySlot(w, w1, newfd) && w1.ps[w.cur].files[newfd] == fds[oldfd]
                   && forall k: nat :: k < MAX_OPEN_FILES ==>
                        && w1.tables.files[k].inode == t.files[k].inode
                        && w1.tables.files[k].count == Remaining(w, newfd, k) + if k == fds[oldfd] then 1 else 0
                 else
                   && w1 == w.(tables := w1.tables)
                   && forall k: nat :: k < MAX_OPEN_FILES ==> w1.tables.files[k].count == Remaining(w, newfd, k)
  {
    hide ListWf, TablesWf, RunWf, Queued, FileFreed, FileIncremented;
    SlotsAre(w);
    var t, fds := w.tables, Slots(w);
    MappedIs(w, t, newfd);
    if fds[newfd] == NIL || t.files[fds[newfd]].count > 0 {
      if fds[newfd] != NIL { FreeLowers(t, fds[newfd]); }
      var t1 := if fds[newfd] != NIL then FileFreed(t, fds[newfd]) else t;
      MappedIs(w, t1, oldfd);
      assert forall k: nat :: k < MAX_OPEN_FILES ==> t1.files[k].count == Remaining(w, newfd, k);
      if oldfd < 8 && fds[oldfd] != NIL { CountRaises(t1, fds[oldfd]); }
    }
  }

  // ---------------------------------------------------------------- memory

  /** The n chunks from i on are free and end before the limit. */
  ghost predicate FreeRun(used: set<int>, i: int, n: nat, limit: nat) {
    i + n < limit && forall c :: i <= c < i + n ==> c !in used
  }

  /** The chunks for so many bytes; no bytes take one. */
  function ChunksFor(size: nat): nat {
    if size == 0 then 1 else (size + 4095) / 4096
  }

  lemma RunsFit(used: set<int>, i: int, n: nat, limit: nat)
    requires n >= 1
    ensures FreeRun(used, i, n, limit) <==> Fits(used, n, i, limit)
  {
    assert forall c :: c in Range(i, n) <==> i <= c < i + n;
    assert i in Range(i, n);
  }

  /** memory_allocate() for users: the first free run of chunks from 16 MB on becomes marked, or nothing when there
      is none. */
  lemma AllocatedEffect(used: set<int>, size: nat, limit: nat)
    ensures var (address, used1) := Allocated(used, size, limit);
            if address == 0 then used1 == used && forall i :: 4096 <= i < limit ==>
                !FreeRun(used, i, ChunksFor(size), limit)
            else
              && address % 4096 == 0 && address >= 0x100_0000
              && FreeRun(used, address / 4096, ChunksFor(size), limit)
              && (forall i :: 4096 <= i < address / 4096 ==> !FreeRun(used, i, ChunksFor(size), limit))
              && forall c :: c in used1 <==> c in used || address / 4096 <= c < address / 4096 + ChunksFor(size)
  {
    hide FirstFit;
    assert BlockChunks(size) == ChunksFor(size);
    forall i | 4096 <= i < limit
      ensures FreeRun(used, i, ChunksFor(size), limit) <==> Fits(used, ChunksFor(size), i, limit)
    {
      RunsFit(used, i, ChunksFor(size), limit);
    }
    assert Placed(used, size, UserRegion, limit) == FirstFit(used, ChunksFor(size), 4096, limit);
  }

  /** execve(): the stack and the program are installed with their own sizes, each in chunks of its own; nothing else
      of any block changes, and no file object is counted differently afterwards. */
  lemma LoadEffect(w: World, l: Lookup, stackSize: nat, programSize: nat)
    requires Wf(w) && LoadSucceeds(w, l, stackSize, programSize)
    ensures 0 <= w.cur < |w.ps| && Shape(w.tables)
    ensures var w1, p := Loaded(w, l, stackSize, programSize), w.ps[w.cur];
            var (stack, used1) := Allocated(w.used, stackSize, w.maxChunk);
            var (text, used2) := Allocated(used1, programSize, w.maxChunk);
            && |w1.ps| == |w.ps| && w1 == w.(ps := w1.ps, tables := w1.tables, used := used2)
            && (forall q :: 0 <= q < |w.ps| && q != w.cur ==> w1.ps[q] == w.ps[q])
            && stack != 0 && text != 0
            && w1.ps[w.cur] == p.(stack := stack, stackSize := stackSize, text := text, textSize := programSize)
            && |w1.tables.files| == MAX_OPEN_FILES
            && forall k :: 0 <= k < MAX_OPEN_FILES ==> w1.tables.files[k].count == w.tables.files[k].count
  {
    hide ListWf, TablesWf, RunWf, Queued, FileOpened, FileFreed, Allocated;
    SlotsAre(w);
    OpenAnswers(w.tables, l, None);
    var (t, f) := FileOpened(w.tables, l, None);
    FreeLowers(t, f.value);
  }

  // ---------------------------------------------------------------- exit and waitpid

  /** exit(): the value is kept in the block, whoever is on the queue becomes ready, and nobody else changes. */
  lemma EndEffect(w: World, status: int)
    requires Wf(w) && w.cur !in w.queue
    ensures var w1 := Ended(w, status);
            && |w1.ps| == |w.ps| && 0 <= w.cur < |w.ps|
            && w1 == w.(ps := w1.ps, queue := [], waitFirst := NIL)
            && w1.ps[w.cur] == w.ps[w.cur].(status := Exited, exitValue := status)
            && (forall p :: 0 <= p < |w.ps| && p != w.cur && p in w.queue ==>
                  w1.ps[p] == w.ps[p].(status := Ready, waitNext := NIL))
            && forall p :: 0 <= p < |w.ps| && p != w.cur && p !in w.queue ==> w1.ps[p] == w.ps[p]
  {
    hide ListWf, TablesWf, RunWf, Queued;
    Ranges(w);
  }

  /** Block p, on the list, has this pid, and no block before it has. */
  ghost predicate FirstWithPid(w: World, p: int, pid: int) {
    && Indices(w.order, |w.ps|)
    && exists k :: 0 <= k < |w.order| && w.order[k] == p && w.ps[p].pid == pid
         && forall j :: 0 <= j < k ==> w.ps[w.order[j]].pid != pid
  }

  ghost predicate ChildOfCurrent(w: World, p: int) {
    0 <= p < |w.ps| && p != w.cur && w.ps[p].parent == w.cur
  }

  /** Block p, on the list, is another block whose parent is the running process, and no block before it is. */
  ghost predicate FirstChild(w: World, p: int) {
    exists k :: 0 <= k < |w.order| && w.order[k] == p && ChildOfCurrent(w, p)
      && forall j :: 0 <= j < k ==> !ChildOfCurrent(w, w.order[j])
  }

  /** waitpid(-1) means the first child on the list, and fails with ECHILD exactly when there is none. */
  lemma ChildNamed(w: World)
    requires Wf(w)
    ensures Named(w, -1) >= 0 ==> FirstChild(w, Named(w, -1))
    ensures Named(w, -1) < 0 ==> Named(w, -1) == -10
    ensures Named(w, -1) == -10 <==> forall p :: p in w.order ==> !ChildOfCurrent(w, p)
  {
    hide ListWf, TablesWf, RunWf, Queued;
    Ranges(w);
    var k := FindFrom(w.order, IsChild(w.ps, w.cur), 0);
    assert forall p :: 0 <= p < |w.ps| ==> (IsChild(w.ps, w.cur)(p) <==> ChildOfCurrent(w, p));
    if k.Some? {
      assert w.order[k.value] in w.order;
    }
  }

  /** Any other pid is that of the first block with it, if there is one; other negative pids are an error. */
  lemma PidNamed(w: World, pid: int)
    requires Wf(w) && pid != -1
    ensures pid < 0 ==> Named(w, pid) == -19
    ensures pid >= 0 && Named(w, pid) >= 0 ==> FirstWithPid(w, Named(w, pid), pid)
    ensures pid >= 0 && Named(w, pid) < 0 ==>
              Named(w, pid) == -1 && Indices(w.order, |w.ps|) && forall p :: p in w.order ==> w.ps[p].pid != pid
  {
    hide ListWf, TablesWf, RunWf, Queued;
    Ranges(w);
    var k := FindFrom(w.order, HasPid(w.ps, pid), 0);
    assert forall p :: 0 <= p < |w.ps| ==> (HasPid(w.ps, pid)(p) <==> w.ps[p].pid == pid);
  }

  /** Sleeping in waitpid(): the running process is asleep at the end of the queue, and waits for block t. */
  lemma SleepEffect(w: World, t: int)
    requires Wf(w)
    ensures 0 <= w.cur < |w.ps| && |w.target| == |w.ps|
    ensures var w1 := SleptOn(w, t);
            && w1.queue == (if w.cur in w.queue then w.queue else w.queue + [w.cur])
            && w1.waitFirst == (if w.queue == [] then w.cur else w.waitFirst)
            && w1.target == w.target[w.cur := t]
            && w1 == w.(ps := w1.ps, queue := w1.queue, waitFirst := w1.waitFirst, target := w1.target)
            && |w1.ps| == |w.ps| && w1.ps[w.cur].status == Sleeping
            && forall p :: 0 <= p < |w.ps| && p != w.cur ==> w1.ps[p] == w.ps[p].(waitNext := w1.ps[p].waitNext)
  {
    hide ListWf, TablesWf, RunWf, Queued, Enqueued;
    Ranges(w);
    SleptChanges(w, t);
  }

  lemma UsedAfter(w: World, p: int)
    requires Wf(w) && 0 <= p < |w.ps| && p != w.first
    ensures Destroyed(w, p).used
         == w.used - (FreedAt(w.ps[p].stack, w.ps[p].stackSize) + FreedAt(w.ps[p].text, w.ps[p].textSize))
  {
    hide ListWf, TablesWf, RunWf, Queued, FreedAll, Unlinked, Without, FreedAt;
  }

  /** waitpid(): a child that has exited is destroyed, and the running process goes on; for one that has not, it
      sleeps, unless it asked not to. */
  lemma WaitEffect(w: World, pid: int, nohang: bool)
    requires Wf(w)
    ensures Named(w, pid) < 0 ==> WaitCalled(w, pid, nohang) == w
    ensures var t, w1 := Named(w, pid), WaitCalled(w, pid, nohang);
            t >= 0 ==>
              && t < |w.ps| && (w.ps[t].status == Exited ==> t != w.first)
              && (w.ps[t].status == Exited ==>
                    |w1.ps| == |w.ps| && !w1.ps[t].valid && t !in w1.order && w1.cur == w.cur
                    && w1.used
                      == w.used - (FreedAt(w.ps[t].stack, w.ps[t].stackSize) + FreedAt(w.ps[t].text, w.ps[t].textSize)))
              && (w.ps[t].status != Exited && nohang ==> w1 == w)
              && (w.ps[t].status != Exited && !nohang ==> w1 == Scheduled(SleptOn(w, t)))
  {
    hide ListWf, TablesWf, Queued, Destroyed, SleptOn, Named, FreedAt;
    Ranges(w);
    var t := Named(w, pid);
    if t >= 0 && w.ps[t].status == Exited {
      DestroyedChanges(w, t);
      DestroyedSame(w, t);
      UsedAfter(w, t);
    }
  }

  /** A waiter that goes on: it destroys its child if that has exited, and else sleeps again. */
  lemma TurnEffect(w: World, t: int)
    requires Wf(w) && 0 <= t < |w.ps| && (w.ps[t].status == Exited ==> t != w.first)
    ensures InRange(w)
    ensures var w1 := Waited(w, t);
            if w.ps[t].status == Exited then
              |w1.ps| == |w.ps| && !w1.ps[t].valid && t !in w1.order && w1.cur == w.cur
                && w1.target == w.target[w.cur := NIL]
            else w1 == Scheduled(SleptOn(w, t))
  {
    hide ListWf, TablesWf, Queued, Destroyed, SleptOn;
    Ranges(w);
    if w.ps[t].status == Exited {
      DestroyedChanges(w, t);
      DestroyedSame(w, t);
    }
  }

  // ---------------------------------------------------------------- the next process

  /** Position r of the list is ready, and going round from position s no position before it is; position 0 is not
      visited. */
  ghost predicate NextReady(ps: seq<Pcb>, order: seq<int>, s: nat, r: nat)
    requires Indices(order, |ps|)
  {
    && 1 <= r < |order| && ps[order[r]].status == Ready
    && if r > s then forall j :: s < j < r ==> ps[order[j]].status != Ready
       else
         && (forall j :: s < j < |order| ==> ps[order[j]].status != Ready)
         && forall j :: 1 <= j < r ==> ps[order[j]].status != Ready
  }

  ghost predicate NoneReady(ps: seq<Pcb>, order: seq<int>)
    requires Indices(order, |ps|)
  {
    forall j :: 1 <= j < |order| ==> ps[order[j]].status != Ready
  }

  /** schedule(): the next ready process on the list after the running one, or after the second position when idle
      runs; the idle task, which heads the list, exactly when no other is ready. */
  lemma ScheduleEffect(ps: seq<Pcb>, order: seq<int>, k: nat)
    requires Indices(order, |ps|) && Distinct(order) && k < |order|
    ensures if NoneReady(ps, order) then Picked(ps, order, order[k]) == order[0]
            else exists r: nat ::
              NextReady(ps, order, if k == 0 then 1 else k, r)
              && Picked(ps, order, order[k]) == order[r]
  {
    var ready := ReadyFlags(ps, order);
    assert Position(order, order[k]) == k;
    ChooseIsNext(ready, k);
    var r := Choose(ready, k);
    if r != 0 { assert NextReady(ps, order, if k == 0 then 1 else k, r); }
  }
}
