/** The kernel's process, descriptor and memory state, and one step per atomic section of kernel code. Interrupts
    stay off inside a system call, so a section runs from its entry, or from the return of schedule(), to the next
    schedule(). A process blocked in waitpid() continues with Resume when it is scheduled again. */
module Kernels {
  import opened Common
  import opened Processes
  import opened Descriptors
  import opened Chunks

  /** `order` lists the blocks on the process list, `queue` those on the waitpid queue;
      target[p] is the block that p waits for inside waitpid(), or NIL. */
  datatype World = World(
    ps: seq<Pcb>, first: int, availPid: nat, cur: int, order: seq<int>,
    tables: Tables,
    used: set<int>, maxChunk: nat,
    waitFirst: int, queue: seq<int>, target: seq<int>)

  datatype Action =
    | Open(lookup: Lookup, creation: Option<Creation>)
    | Close(fd: nat)
    | Dup2(oldfd: nat, newfd: nat)
    | PathCall(lookup: Lookup)                            // stat, chmod, chdir, truncate64, unlink
    | Vfork
    | Exec(lookup: Lookup, stackSize: nat, programSize: nat)
    | Exit(status: int)
    | Wait(pid: int, nohang: bool)
    | Resume
    | Yield
    | Malloc(size: nat)

  // ---------------------------------------------------------------- well-formed worlds

  ghost predicate ListWf(w: World) {
    |w.ps| == MAX_PROCS && w.order != [] && Listed(w.ps, w.first, w.order, w.availPid)
  }

  ghost predicate TablesWf(w: World) {
    Shape(w.tables) && SlotsInRange(w.ps)
  }

  /** The current process is on the list, every other process has a parent, and the idle task neither exits nor
      waits. */
  ghost predicate RunWf(w: World) {
    && w.cur in w.order
    && |w.target| == |w.ps|
    && (forall p :: 0 <= p < |w.ps| ==> w.target[p] == NIL || 0 <= w.target[p] < |w.ps|)
    && (forall p :: p in w.order && p != w.first ==> 0 <= p < |w.ps| && 0 <= w.ps[p].parent < |w.ps|)
    && 0 <= w.first < |w.ps|
    && w.ps[w.first].status != Exited && w.target[w.first] == NIL
  }

  ghost predicate Wf(w: World) {
    ListWf(w) && Queued(w.ps, w.waitFirst, w.queue) && TablesWf(w) && RunWf(w)
  }

  /** The ranges of the indices a world holds. */
  ghost predicate InRange(w: World) {
    && |w.ps| == MAX_PROCS && |w.target| == |w.ps|
    && Indices(w.order, |w.ps|) && Indices(w.queue, |w.ps|)
    && w.cur in w.order && 0 <= w.cur < |w.ps|
    && w.order[0] == w.first && 0 <= w.first < |w.ps|
    && w.ps[w.cur].valid
    && (w.target[w.cur] == NIL || 0 <= w.target[w.cur] < |w.ps|)
    && Shape(w.tables) && SlotsInRange(w.ps)
  }

  lemma Ranges(w: World)
    requires Wf(w)
    ensures InRange(w)
  {
    assert w.order[0] == w.first;
  }

  // ---------------------------------------------------------------- helpers of the steps

  function Position(order: seq<int>, x: int): (k: nat)
    requires x in order
    ensures k < |order| && order[k] == x
  {
    FindFrom(order, (y: int) => y == x, 0).value
  }

  function ReadyFlags(ps: seq<Pcb>, order: seq<int>): (r: seq<bool>)
    requires Indices(order, |ps|)
    ensures |r| == |order|
    ensures forall k :: 0 <= k < |order| ==> r[k] == ps[order[k]].status.Ready?
  {
    seq(|order|, k requires 0 <= k < |order| => ps[order[k]].status.Ready?)
  }

  /** The block schedule() switches to. */
  function Picked(ps: seq<Pcb>, order: seq<int>, cur: int): (p: int)
    requires Indices(order, |ps|) && cur in order
    ensures p in order
  {
    order[Choose(ReadyFlags(ps, order), Position(order, cur))]
  }

  ghost predicate Schedulable(w: World) {
    Indices(w.order, |w.ps|) && w.cur in w.order
  }

  /** The world after schedule(). */
  function Scheduled(w: World): World
    requires Schedulable(w)
  {
    w.(cur := Picked(w.ps, w.order, w.cur))
  }

  /** The chunks of an allocated block; address 0 stands for no block, and a size of 0 has taken one chunk. */
  function BlockAt(address: nat, size: nat): set<int> {
    if address == 0 then {} else Range(address / CHUNK_SIZE, BlockChunks(size))
  }

  /** The chunks memory_free(address, size) unmarks, for a pointer that is not NULL. */
  function FreedAt(address: nat, size: nat): set<int> {
    if address == 0 then {} else Range(address / CHUNK_SIZE, FreedChunks(size))
  }

  function StackOf(p: Pcb): set<int> {
    BlockAt(p.stack, p.stackSize)
  }

  function TextOf(p: Pcb): set<int> {
    BlockAt(p.text, p.textSize)
  }

  function Owned(p: Pcb): set<int> {
    StackOf(p) + TextOf(p)
  }

  /** What process_destroy unmarks for a block. */
  function Freed(p: Pcb): set<int> {
    FreedAt(p.stack, p.stackSize) + FreedAt(p.text, p.textSize)
  }

  /** memory_allocate(size, MEMORY_USER) on the set of marked chunks: the address, 0 for none, and the new set. */
  function Allocated(used: set<int>, size: nat, maxChunk: nat): (nat, set<int>) {
    match Placed(used, size, UserRegion, maxChunk)
    case None => (0, used)
    case Some(i) => (i * CHUNK_SIZE, used + Range(i, BlockChunks(size)))
  }

  function WithSlot(p: Pcb, d: nat, f: int): Pcb
    requires d < |p.files|
  {
    p.(files := p.files[d := f])
  }

  // ---------------------------------------------------------------- descriptor system calls

  /** The first free descriptor. */
  function FreeSlot(fds: seq<int>): Option<nat> {
    FindFrom(fds, (f: int) => f == NIL, 0)
  }

  function Opened(w: World, l: Lookup, c: Option<Creation>): World
    requires Wf(w)
  {
    hide ListWf, TablesWf, RunWf, Queued;
    Ranges(w);
    match FreeSlot(w.ps[w.cur].files)
    case None => w
    case Some(d) =>
      match FileOpened(w.tables, l, c)
      case (t, None) => w.(tables := t)
      case (t, Some(f)) => w.(tables := t, ps := w.ps[w.cur := WithSlot(w.ps[w.cur], d, f)])
  }

  /** map_fd_to_file: the file object behind a descriptor, or the error. */
  function Mapped(w: World, t: Tables, fd: nat): int
    requires Wf(w) && Shape(t)
  {
    hide ListWf, TablesWf, RunWf, Queued;
    Ranges(w);
    if fd >= MAX_FD_PER_PROC then -ENFILE
    else
      var f := w.ps[w.cur].files[fd];
      if f == NIL then -ENFILE
      else if t.files[f].count == 0 then -EBADF
      else f
  }

  function Closed(w: World, fd: nat): World
    requires Wf(w)
  {
    hide ListWf, TablesWf, RunWf, Queued;
    Ranges(w);
    var f := Mapped(w, w.tables, fd);
    if f < 0 then w
    else w.(tables := FileFreed(w.tables, f), ps := w.ps[w.cur := WithSlot(w.ps[w.cur], fd, NIL)])
  }

  function Duped(w: World, oldfd: nat, newfd: nat): World
    requires Wf(w) && newfd < MAX_FD_PER_PROC
  {
    hide ListWf, TablesWf, RunWf, Queued;
    Ranges(w);
    var closing := w.ps[w.cur].files[newfd] != NIL;
    var g := Mapped(w, w.tables, newfd);
    if closing && g < 0 then w
    else
      var t := if closing then FileFreed(w.tables, g) else w.tables;
      var f := Mapped(w, t, oldfd);
      if f < 0 then w.(tables := t)
      else w.(tables := FileIncremented(t, f), ps := w.ps[w.cur := WithSlot(w.ps[w.cur], newfd, f)])
  }

  /** A system call that looks a path up and gives the inode entry back. */
  function PathCalled(w: World, l: Lookup): World
    requires Wf(w)
  {
    hide ListWf, TablesWf, RunWf, Queued;
    Ranges(w);
    match LookedUp(w.tables, l)
    case (t, None) => w.(tables := t)
    case (t, Some(n)) => w.(tables := InodeFreed(t, n))
  }

  // ---------------------------------------------------------------- process system calls

  function FreeBlock(ps: seq<Pcb>): Option<nat> {
    FindFrom(ps, (p: Pcb) => !p.valid, 0)
  }

  /** process_create in free slot c. */
  function WithProcess(w: World, c: int): (r: World)
    requires ListWf(w) && 0 <= c < |w.ps|
    ensures |r.ps| == |w.ps| && r.order == w.order + [c]
  {
    w.(ps := Inserted(w.ps[c := NewPcb(w.availPid)], w.order, c), order := w.order + [c], availPid := w.availPid + 1)
  }

  /** The child's block: the parent's, except for what is restored or reset. */
  function ChildOf(created: Pcb, parentPcb: Pcb, parent: int): Pcb {
    parentPcb.(pid := created.pid, prev := created.prev, next := created.next, parent := parent,
               stack := 0, text := 0, status := Ready)
  }

  /** vfork() in free slot c, up to its call of schedule(). */
  function ForkedInto(w: World, c: int): (r: World)
    requires Wf(w) && 0 <= c < |w.ps|
    ensures Schedulable(r)
  {
    hide ListWf, TablesWf, RunWf, Queued, Inserted, IncrementedAll;
    Ranges(w);
    var w1 := WithProcess(w, c);
    var child := ChildOf(w1.ps[c], w1.ps[w.cur], w.cur);
    w1.(ps := w1.ps[c := child][w.cur := w1.ps[w.cur].(status := Sleeping)],
        tables := IncrementedAll(w.tables, w.ps[w.cur].files))
  }

  /** execve() itself: the new blocks are installed only when both allocations succeed. */
  function Loaded(w: World, l: Lookup, stackSize: nat, programSize: nat): (r: World)
    requires Wf(w)
    ensures r.cur == w.cur && r.order == w.order && |r.ps| == |w.ps| && 0 <= w.cur < |w.ps|
    ensures r.ps[w.cur].parent == w.ps[w.cur].parent
  {
    hide ListWf, TablesWf, RunWf, Queued;
    Ranges(w);
    match FileOpened(w.tables, l, None)
    case (t, None) => w.(tables := t)
    case (t, Some(f)) =>
      var (stack, used1) := Allocated(w.used, stackSize, w.maxChunk);
      var (text, used2) := Allocated(used1, programSize, w.maxChunk);
      if stack == 0 || text == 0 then
        w.(tables := t, used := used2 - FreedAt(text, programSize) - FreedAt(stack, stackSize))
      else
        w.(tables := FileFreed(t, f), used := used2,
           ps := w.ps[w.cur := w.ps[w.cur].(stack := stack, stackSize := stackSize, text := text,
                                            textSize := programSize)])
  }

  /** Whether execve() gets its file object and both blocks. */
  predicate LoadSucceeds(w: World, l: Lookup, stackSize: nat, programSize: nat)
    requires Wf(w)
  {
    hide ListWf, RunWf, Queued, TablesWf;
    Ranges(w);
    FileOpened(w.tables, l, None).1.Some?
    && Allocated(w.used, stackSize, w.maxChunk).0 != 0
    && Allocated(Allocated(w.used, stackSize, w.maxChunk).1, programSize, w.maxChunk).0 != 0
  }

  /** After execve(), successful or not, the system call handler makes the parent ready. */
  function ParentWoken(w: World): World
    requires 0 <= w.cur < |w.ps| && 0 <= w.ps[w.cur].parent < |w.ps|
  {
    var parent := w.ps[w.cur].parent;
    w.(ps := w.ps[parent := w.ps[parent].(status := Ready)])
  }

  /** exit() up to its call of schedule(). */
  function Ended(w: World, status: int): (r: World)
    requires Wf(w)
    ensures Schedulable(r)
  {
    hide ListWf, TablesWf, RunWf, Queued;
    Ranges(w);
    var ps := w.ps[w.cur := w.ps[w.cur].(status := Exited, exitValue := status)];
    w.(ps := Woken(ps, w.queue), waitFirst := NIL, queue := [])
  }

  /** process_destroy for a block other than the first: off the list if it is on it, its descriptors closed, its
      memory freed. */
  function Destroyed(w: World, p: int): World
    requires Wf(w) && 0 <= p < |w.ps| && p != w.first
  {
    hide ListWf, TablesWf, RunWf, Queued;
    Ranges(w);
    var ps := w.ps[p := w.ps[p].(valid := false)];
    var w1 := w.(tables := FreedAll(w.tables, w.ps[p].files),
                 used := w.used - FreedAt(w.ps[p].stack, w.ps[p].stackSize) - FreedAt(w.ps[p].text, w.ps[p].textSize));
    if p in w.order then
      var k := Position(w.order, p);
      w1.(ps := Unlinked(ps, w.order, k), order := Without(w.order, k))
    else w1.(ps := ps)
  }

  /** waitpid()'s loop putting the running process to sleep until block t exits, up to the call of schedule(). */
  function SleptOn(w: World, t: int): (r: World)
    requires Wf(w)
    ensures Schedulable(r)
  {
    hide ListWf, TablesWf, RunWf, Queued;
    Ranges(w);
    w.(ps := Enqueued(w.ps, w.queue, w.cur),
       waitFirst := if w.queue == [] then w.cur else w.waitFirst,
       queue := QueueWith(w.queue, w.cur),
       target := w.target[w.cur := t])
  }

  /** One turn of waitpid()'s loop on block t: destroy it if it has exited, otherwise sleep. */
  function Waited(w: World, t: int): World
    requires Wf(w) && 0 <= t < |w.ps|
  {
    hide ListWf, TablesWf, Queued, Destroyed, SleptOn;
    Ranges(w);
    if w.ps[t].status == Exited then Destroyed(w, t).(target := w.target[w.cur := NIL])
    else Scheduled(SleptOn(w, t))
  }

  function HasPid(ps: seq<Pcb>, pid: int): int -> bool {
    (p: int) => 0 <= p < |ps| && ps[p].pid == pid
  }

  function IsChild(ps: seq<Pcb>, caller: int): int -> bool {
    (p: int) => p != caller && 0 <= p < |ps| && ps[p].parent == caller
  }

  /** The process that waitpid(pid) names, or the error it returns; NIL for a pid that does not exist. */
  function Named(w: World, pid: int): (r: int)
    requires Wf(w)
    ensures r >= 0 ==> r in w.order
  {
    if pid == -1 then
      match FindFrom(w.order, IsChild(w.ps, w.cur), 0)
      case None => -ECHILD
      case Some(k) => w.order[k]
    else if pid < 0 then -ENODEV
    else
      match FindFrom(w.order, HasPid(w.ps, pid), 0)
      case None => NIL
      case Some(k) => w.order[k]
  }

  /** What the running process can do next. A process inside waitpid() goes on with its loop; the idle task is only
      interrupted. Calls on which the C code runs off its tables are excluded: dup2 onto a number that is no
      descriptor, and waitpid on a pid that does not exist. */
  ghost predicate Enabled(w: World, a: Action)
    requires Wf(w)
  {
    if w.target[w.cur] != NIL then a.Resume?
    else if w.cur == w.first then a.Yield?
    else match a
      case Resume => false
      case Dup2(_, newfd) => newfd < MAX_FD_PER_PROC
      case Wait(pid, _) => pid >= 0 ==> Named(w, pid) != NIL
      case _ => true
  }

  function Yielded(w: World): World
    requires Wf(w)
  {
    Scheduled(w)
  }

  function Vforked(w: World): World
    requires Wf(w)
  {
    match FreeBlock(w.ps)
    case None => w
    case Some(c) => Scheduled(ForkedInto(w, c))
  }

  ghost function Execed(w: World, l: Lookup, stackSize: nat, programSize: nat): World
    requires Wf(w) && w.cur != w.first
  {
    hide TablesWf, Queued, Loaded;
    Scheduled(ParentWoken(Loaded(w, l, stackSize, programSize)))
  }

  function WaitCalled(w: World, pid: int, nohang: bool): World
    requires Wf(w)
  {
    var t := Named(w, pid);
    if t < 0 then w
    else if !nohang then Waited(w, t)
    else if w.ps[t].status == Exited then Destroyed(w, t)
    else w
  }

  ghost function DescriptorStep(w: World, a: Action): World
    requires Wf(w)
    requires a.Open? || a.Close? || (a.Dup2? && a.newfd < MAX_FD_PER_PROC) || a.PathCall?
  {
    hide Opened, Closed, Duped, PathCalled, ListWf, TablesWf, RunWf, Queued;
    match a
    case Open(l, c) => Opened(w, l, c)
    case Close(fd) => Closed(w, fd)
    case Dup2(oldfd, newfd) => Duped(w, oldfd, newfd)
    case PathCall(l) => PathCalled(w, l)
  }

  ghost function Step(w: World, a: Action): World
    requires Wf(w) && Enabled(w, a)
  {
    hide ListWf, TablesWf, RunWf, Queued, DescriptorStep, Vforked, Execed, Ended, WaitCalled, Waited, Yielded,
         Scheduled, Allocated, Named;
    Ranges(w);
    match a
    case Vfork => Vforked(w)
    case Exec(l, stackSize, programSize) => Execed(w, l, stackSize, programSize)
    case Exit(status) => Scheduled(Ended(w, status))
    case Wait(pid, nohang) => WaitCalled(w, pid, nohang)
    case Resume => Waited(w, w.target[w.cur])
    case Yield => Yielded(w)
    case Malloc(size) => w.(used := Allocated(w.used, size, w.maxChunk).1)
    case _ => DescriptorStep(w, a)
  }
}
