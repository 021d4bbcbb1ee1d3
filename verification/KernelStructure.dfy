/** Every step keeps the kernel's structures well formed, and no wakeup is ever lost. */
module KernelStructure {
  import opened Common
  import opened Processes
  import opened Descriptors
  import opened Kernels

  // ---------------------------------------------------------------- what a change of blocks leaves alone

  ghost predicate SameList(ps: seq<Pcb>, qs: seq<Pcb>) {
    && |qs| == |ps|
    && forall i :: 0 <= i < |ps| ==>
         qs[i].next == ps[i].next && qs[i].prev == ps[i].prev && qs[i].valid == ps[i].valid && qs[i].pid == ps[i].pid
  }

  ghost predicate SameQueue(ps: seq<Pcb>, qs: seq<Pcb>) {
    |qs| == |ps| && forall i :: 0 <= i < |ps| ==> qs[i].waitNext == ps[i].waitNext
  }

  ghost predicate SameSlots(ps: seq<Pcb>, qs: seq<Pcb>) {
    |qs| == |ps| && forall i :: 0 <= i < |ps| ==> qs[i].files == ps[i].files
  }

  ghost predicate SameParents(ps: seq<Pcb>, qs: seq<Pcb>) {
    |qs| == |ps| && forall i :: 0 <= i < |ps| ==> qs[i].parent == ps[i].parent
  }

  lemma ListCarries(w: World, w': World)
    requires ListWf(w) && SameList(w.ps, w'.ps)
    requires w'.order == w.order && w'.first == w.first && w'.availPid == w.availPid
    ensures ListWf(w')
  {}

  lemma QueueCarries(ps: seq<Pcb>, qs: seq<Pcb>, waitFirst: int, q: seq<int>)
    requires Queued(ps, waitFirst, q) && SameQueue(ps, qs)
    ensures Queued(qs, waitFirst, q)
  {}

  lemma SlotsCarry(ps: seq<Pcb>, qs: seq<Pcb>)
    requires SlotsInRange(ps) && SameSlots(ps, qs)
    ensures SlotsInRange(qs)
  {}

  /** A step that leaves the list, the queue and the bookkeeping of waiting processes alone. */
  ghost predicate SameFrame(w: World, w': World) {
    && SameList(w.ps, w'.ps) && SameQueue(w.ps, w'.ps) && SameParents(w.ps, w'.ps)
    && w'.order == w.order && w'.first == w.first && w'.availPid == w.availPid
    && w'.waitFirst == w.waitFirst && w'.queue == w.queue && w'.target == w.target
  }

  lemma FrameCarries(w: World, w': World)
    requires Wf(w) && SameFrame(w, w') && TablesWf(w') && w'.cur in w.order
    requires w'.ps[w.first].status != Exited
    ensures Wf(w')
  {
    ListCarries(w, w');
    QueueCarries(w.ps, w'.ps, w.waitFirst, w.queue);
  }

  // ---------------------------------------------------------------- sleeping

  /** Every queued process is inside waitpid() for a block that has not exited, and every process asleep inside
      waitpid() is queued. */
  ghost predicate SleepInv(w: World) {
    && |w.target| == |w.ps|
    && (forall p :: 0 <= p < |w.ps| ==> w.target[p] == NIL || 0 <= w.target[p] < |w.ps|)
    && Indices(w.queue, |w.ps|)
    && (forall p :: p in w.queue ==>
          w.ps[p].valid && w.ps[p].status != Exited && w.target[p] != NIL && w.ps[w.target[p]].status != Exited)
    && (forall p :: 0 <= p < |w.ps| && w.target[p] != NIL && w.ps[p].status == Sleeping ==> p in w.queue)
    && (forall p :: 0 <= p < |w.ps| && (w.ps[p].status == Exited || !w.ps[p].valid) ==> w.target[p] == NIL)
  }

  /** Whatever runs, other than the idle task, is ready. */
  ghost predicate CurReady(w: World) {
    w.cur == w.first || (0 <= w.cur < |w.ps| && w.ps[w.cur].status == Ready)
  }

  ghost predicate SameSleep(w: World, w': World) {
    && |w'.ps| == |w.ps| && w'.queue == w.queue && w'.target == w.target
    && forall i :: 0 <= i < |w.ps| ==> w'.ps[i].status == w.ps[i].status && w'.ps[i].valid == w.ps[i].valid
  }

  lemma SleepCarries(w: World, w': World)
    requires SleepInv(w) && SameSleep(w, w')
    ensures SleepInv(w')
    ensures w'.cur == w.cur && w'.first == w.first && CurReady(w) ==> CurReady(w')
  {}

  ghost predicate Good(w: World) {
    Wf(w) && SleepInv(w) && CurReady(w)
  }

  lemma CurInRange(w: World)
    requires Wf(w)
    ensures 0 <= w.cur < |w.ps|
  {}

  lemma FrameKeepsGood(w: World, w': World)
    requires Good(w) && SameFrame(w, w') && SameSleep(w, w') && TablesWf(w') && w'.cur == w.cur
    ensures Good(w')
  {
    FrameCarries(w, w');
    SleepCarries(w, w');
  }

  /** Descriptor slots, tables and memory fields of the running process are all that changes. */
  lemma LocalChange(w: World, p: Pcb, t: Tables, used: set<int>)
    requires Good(w) && Shape(t) && SlotsInRange([p]) && 0 <= w.cur < |w.ps|
    requires var q := w.ps[w.cur];
             p.next == q.next && p.prev == q.prev && p.valid == q.valid && p.pid == q.pid
             && p.waitNext == q.waitNext && p.parent == q.parent && p.status == q.status
    ensures Good(w.(tables := t, used := used, ps := w.ps[w.cur := p]))
  {
    hide ListWf, Queued, RunWf, SleepInv, CurReady;
    var w' := w.(tables := t, used := used, ps := w.ps[w.cur := p]);
    assert SlotsInRange(w'.ps) by {
      assert [p][0] == p;
    }
    FrameKeepsGood(w, w');
  }

  lemma TablesChange(w: World, t: Tables, used: set<int>)
    requires Good(w) && Shape(t)
    ensures Good(w.(tables := t, used := used))
  {
    hide ListWf, Queued, RunWf, SleepInv, CurReady;
    FrameKeepsGood(w, w.(tables := t, used := used));
  }

  lemma OpenedKeeps(w: World, l: Lookup, c: Option<Creation>)
    requires Good(w)
    ensures Good(Opened(w, l, c))
  {
    hide ListWf, Queued, SleepInv, CurReady, FileOpened, Shape;
    match FreeSlot(w.ps[w.cur].files)
    case None =>
    case Some(d) =>
      match FileOpened(w.tables, l, c) {
        case (t, None) => TablesChange(w, t, w.used);
        case (t, Some(f)) => LocalChange(w, WithSlot(w.ps[w.cur], d, f), t, w.used);
      }
  }

  lemma ClosedKeeps(w: World, fd: nat)
    requires Good(w)
    ensures Good(Closed(w, fd))
  {
    hide ListWf, Queued, SleepInv, CurReady, FileFreed;
    var f := Mapped(w, w.tables, fd);
    if f >= 0 {
      LocalChange(w, WithSlot(w.ps[w.cur], fd, NIL), FileFreed(w.tables, f), w.used);
    }
  }

  lemma DupedKeeps(w: World, oldfd: nat, newfd: nat)
    requires Good(w) && newfd < MAX_FD_PER_PROC
    ensures Good(Duped(w, oldfd, newfd))
  {
    hide ListWf, Queued, SleepInv, CurReady, FileFreed, FileIncremented;
    var closing := w.ps[w.cur].files[newfd] != NIL;
    var g := Mapped(w, w.tables, newfd);
    if !(closing && g < 0) {
      var t := if closing then FileFreed(w.tables, g) else w.tables;
      var f := Mapped(w, t, oldfd);
      if f < 0 {
        TablesChange(w, t, w.used);
      } else {
        LocalChange(w, WithSlot(w.ps[w.cur], newfd, f), FileIncremented(t, f), w.used);
      }
    }
  }

  lemma PathCalledKeeps(w: World, l: Lookup)
    requires Good(w)
    ensures Good(PathCalled(w, l))
  {
    hide ListWf, Queued, RunWf, SleepInv, CurReady, LookedUp;
    TablesChange(w, PathCalled(w, l).tables, w.used);
  }

  // ---------------------------------------------------------------- switching, exiting, executing

  /** The process schedule() picks is ready, or is the idle task. */
  lemma PickedRuns(ps: seq<Pcb>, order: seq<int>, cur: int)
    requires Indices(order, |ps|) && cur in order
    ensures Picked(ps, order, cur) == order[0] || ps[Picked(ps, order, cur)].status == Ready
  {
    ChooseIsNext(ReadyFlags(ps, order), Position(order, cur));
  }

  lemma ScheduledKeeps(w: World)
    requires Wf(w) && SleepInv(w)
    ensures Good(Scheduled(w))
  {
    hide Queued, SleepInv, Picked;
    PickedRuns(w.ps, w.order, w.cur);
    var w' := Scheduled(w);
    FrameCarries(w, w');
    SleepCarries(w, w');
  }

  /** exit() changes nothing of a block but status, exit value and queue link. */
  ghost predicate EndedFields(w: World, status: int)
    requires Wf(w)
  {
    var w1 := Ended(w, status);
    && |w1.ps| == |w.ps| && w1.first == w.first && w1.used == w.used && w1.tables == w.tables
    && forall i :: 0 <= i < |w.ps| ==>
         w1.ps[i] == w.ps[i].(status := w1.ps[i].status, exitValue := w1.ps[i].exitValue, waitNext := w1.ps[i].waitNext)
  }

  lemma EndedKeepsFields(w: World, status: int)
    requires Wf(w)
    ensures EndedFields(w, status)
  {
    hide ListWf, TablesWf, RunWf, Queued;
    Ranges(w);
  }

  /** exit() ends the running process and readies the queue. */
  lemma EndedStatus(w: World, status: int)
    requires Wf(w) && w.cur !in w.queue
    ensures var w1 := Ended(w, status);
            && |w1.ps| == |w.ps| && 0 <= w.cur < |w.ps|
            && forall i :: 0 <= i < |w.ps| ==>
                 w1.ps[i].status == if i == w.cur then Exited else if i in w.queue then Ready else w.ps[i].status
    ensures EndedFields(w, status)
  {
    hide ListWf, TablesWf, RunWf, Queued;
    Ranges(w);
  }

  /** Exit wakes every sleeper, so none is left waiting for the process that exits. */
  lemma EndedKeepsSleep(w: World, status: int)
    requires Wf(w) && SleepInv(w) && w.target[w.cur] == NIL
    ensures SleepInv(Ended(w, status))
  {
    hide ListWf, TablesWf, RunWf, Queued, Woken;
    Ranges(w);
    var w1 := Ended(w, status);
    EndedStatus(w, status);
    assert w1.queue == [] && w1.target == w.target;
    forall p | 0 <= p < |w1.ps| && (w1.ps[p].status == Exited || !w1.ps[p].valid) ensures w1.target[p] == NIL {
      assert p != w.cur ==> w.ps[p].status == Exited || !w.ps[p].valid;
    }
    forall p | 0 <= p < |w1.ps| && w1.target[p] != NIL ensures w1.ps[p].status != Sleeping {
      assert w.ps[p].status == Sleeping ==> p in w.queue;
    }
  }

  lemma EndedChanges(w: World, status: int)
    requires Wf(w) && w.cur !in w.queue
    ensures var w1 := Ended(w, status);
            && SameList(w.ps, w1.ps) && SameSlots(w.ps, w1.ps) && SameParents(w.ps, w1.ps)
            && Queued(w1.ps, NIL, [])
            && forall i :: 0 <= i < |w.ps| && i != w.cur && w.ps[i].status != Exited ==> w1.ps[i].status != Exited
  {
    hide ListWf, TablesWf, RunWf, Queued;
    Ranges(w);
    var ps := w.ps[w.cur := w.ps[w.cur].(status := Exited, exitValue := status)];
    QueueCarries(w.ps, ps, w.waitFirst, w.queue);
    WakeKeepsQueued(ps, w.waitFirst, w.queue);
  }

  /** The links, slots and waiting bookkeeping that make a world well formed carry over. */
  lemma StepKeepsWf(w: World, w1: World)
    requires Wf(w)
    requires SameList(w.ps, w1.ps) && SameSlots(w.ps, w1.ps) && SameParents(w.ps, w1.ps)
    requires w1.order == w.order && w1.first == w.first && w1.availPid == w.availPid && w1.cur == w.cur
    requires Queued(w1.ps, w1.waitFirst, w1.queue)
    requires Shape(w1.tables)
    requires |w1.target| == |w1.ps| && forall p :: 0 <= p < |w1.ps| ==>
               w1.target[p] == NIL || 0 <= w1.target[p] < |w1.ps|
    requires 0 <= w.first < |w1.ps| && w1.ps[w.first].status != Exited && w1.target[w.first] == NIL
    ensures Wf(w1)
  {
    hide Queued, Shape, ListWf, SlotsInRange;
    ListCarries(w, w1);
    SlotsCarry(w.ps, w1.ps);
  }

  lemma EndedKeepsWf(w: World, status: int)
    requires Wf(w) && w.cur != w.first && w.cur !in w.queue
    ensures Wf(Ended(w, status))
  {
    hide ListWf, Queued, SlotsInRange;
    EndedChanges(w, status);
    StepKeepsWf(w, Ended(w, status));
  }

  lemma ExitKeeps(w: World, status: int)
    requires Good(w) && w.cur != w.first && w.target[w.cur] == NIL
    ensures Good(Scheduled(Ended(w, status)))
  {
    hide ListWf, TablesWf, Queued, RunWf;
    EndedKeepsWf(w, status);
    EndedKeepsSleep(w, status);
    ScheduledKeeps(Ended(w, status));
  }

  // ---------------------------------------------------------------- waiting

  lemma SleptChanges(w: World, t: int)
    requires Wf(w)
    ensures var w1 := SleptOn(w, t);
            && InRange(w) && |w1.ps| == |w.ps|
            && (forall i :: 0 <= i < |w.ps| ==>
                  w1.ps[i] == w.ps[i].(waitNext := w1.ps[i].waitNext, status := if i == w.cur then Sleeping
                    else w.ps[i].status))
  {
    hide ListWf, TablesWf, RunWf, Queued;
    Ranges(w);
    if w.queue != [] {
      assert 0 <= w.queue[|w.queue| - 1] < |w.ps|;
    }
  }

  /** A process goes to sleep only on a block that has not exited, and then it is on the queue. */
  lemma SleptKeepsSleep(w: World, t: int)
    requires Wf(w) && SleepInv(w) && CurReady(w) && w.cur != w.first
    requires 0 <= t < |w.ps| && w.ps[t].status != Exited
    ensures SleepInv(SleptOn(w, t))
  {
    hide ListWf, TablesWf, RunWf, Queued, Enqueued;
    SleptChanges(w, t);
    var w1 := SleptOn(w, t);
    assert forall p :: p in w1.queue <==> p in w.queue || p == w.cur;
    assert w1.target == w.target[w.cur := t];
  }

  lemma SleptKeepsWf(w: World, t: int)
    requires Wf(w) && w.cur != w.first && 0 <= t < |w.ps|
    ensures Wf(SleptOn(w, t))
  {
    hide ListWf, Queued, SlotsInRange, Enqueued;
    SleptChanges(w, t);
    EnqueueKeepsQueued(w.ps, w.waitFirst, w.queue, w.cur);
    StepKeepsWf(w, SleptOn(w, t));
  }

  // ---------------------------------------------------------------- destroying

  lemma WithoutKeepsOthers(order: seq<int>, k: nat)
    requires k < |order| && Distinct(order)
    ensures forall i :: i in Without(order, k) <==> i in order && i != order[k]
  {
    var rest := Without(order, k);
    assert forall j :: 0 <= j < |rest| ==> rest[j] == order[if j < k then j else j + 1];
    forall i | i in order && i != order[k] ensures i in rest {
      var j := Position(order, i);
      assert rest[if j < k then j else j - 1] == i;
    }
  }

  lemma DistinctOrder(w: World)
    requires Wf(w)
    ensures Distinct(w.order) && w.order[0] == w.first
    ensures forall j, k :: 0 <= j < k < |w.order| ==> w.ps[w.order[j]].pid < w.ps[w.order[k]].pid
    ensures forall k :: 0 <= k < |w.order| ==> w.ps[w.order[k]].pid < w.availPid
    ensures forall i :: 0 <= i < |w.ps| ==> (w.ps[i].valid <==> i in w.order)
  {
    hide TablesWf, RunWf, Queued;
  }

  /** Destroying block p makes it invalid, takes it off the list, and changes only the links of other blocks. */
  lemma DestroyedChanges(w: World, p: int)
    requires Wf(w) && 0 <= p < |w.ps| && p != w.first
    ensures var w1 := Destroyed(w, p);
            && |w1.ps| == |w.ps|
            && (forall i :: 0 <= i < |w.ps| ==>
                  w1.ps[i] == w.ps[i].(next := w1.ps[i].next, prev := w1.ps[i].prev, valid := i != p && w.ps[i].valid))
            && (forall i :: i in w1.order <==> i in w.order && i != p)
  {
    hide ListWf, TablesWf, RunWf, Queued, Without, FreedAll, FreedAt;
    Ranges(w);
    if p in w.order {
      DistinctOrder(w);
      WithoutKeepsOthers(w.order, Position(w.order, p));
    }
  }

  lemma DestroyedKeepsSleep(w: World, p: int)
    requires Wf(w) && SleepInv(w) && 0 <= p < |w.ps| && p != w.first && w.ps[p].status == Exited
    ensures SleepInv(Destroyed(w, p))
  {
    hide ListWf, TablesWf, RunWf, Queued, Unlinked, Without, FreedAll, FreedAt;
    DestroyedChanges(w, p);
  }

  /** The list without block p, before p's links are looked at. */
  lemma InvalidatedIsLinked(w: World, p: int)
    requires Wf(w) && p in w.order && p != w.first
    ensures 0 <= p < |w.ps|
    ensures var ps := w.ps[p := w.ps[p].(valid := false)];
            Linked(ps, w.first, w.order) && Linked(Destroyed(w, p).ps, w.first, Destroyed(w, p).order)
  {
    hide TablesWf, RunWf, Queued, Unlinked, Without, FreedAll, FreedAt;
    var ps := w.ps[p := w.ps[p].(valid := false)];
    RemoveKeepsLinked(ps, w.first, w.order, Position(w.order, p));
  }

  lemma DestroyedSame(w: World, t: int)
    requires Wf(w) && 0 <= t < |w.ps| && t != w.first
    ensures var w1 := Destroyed(w, t);
            && w1.queue == w.queue && w1.target == w.target && w1.cur == w.cur && w1.first == w.first
            && w1.availPid == w.availPid
            && w1.order == if t in w.order then Without(w.order, Position(w.order, t)) else w.order
  {
    hide ListWf, TablesWf, RunWf, Queued, Unlinked, Without, FreedAll, FreedAt;
  }

  lemma DestroyedUnlisted(w: World, p: int)
    requires Wf(w) && 0 <= p < |w.ps| && p !in w.order && p != w.first
    ensures Destroyed(w, p).ps == w.ps[p := w.ps[p].(valid := false)]
  {
    hide ListWf, TablesWf, RunWf, Queued, FreedAll, FreedAt;
  }

  lemma NotListed(w: World, p: int)
    requires Wf(w) && 0 <= p < |w.ps| && p !in w.order
    ensures ListWf(w.(ps := w.ps[p := w.ps[p].(valid := false)]))
  {
    hide TablesWf, RunWf, Queued;
    ListCarries(w, w.(ps := w.ps[p := w.ps[p].(valid := false)]));
  }

  lemma DestroyedKeepsList(w: World, p: int)
    requires Wf(w) && 0 <= p < |w.ps| && p != w.first
    ensures ListWf(Destroyed(w, p))
  {
    hide TablesWf, RunWf, Queued, Linked, Distinct, Destroyed, Without;
    DestroyedChanges(w, p);
    DestroyedSame(w, p);
    Ranges(w);
    if p in w.order {
      InvalidatedIsLinked(w, p);
      WithoutAt(w.order, Position(w.order, p));
    } else {
      NotListed(w, p);
      DestroyedUnlisted(w, p);
    }
  }

  lemma DestroyedKeepsWf(w: World, p: int)
    requires Wf(w) && 0 <= p < |w.ps| && p != w.first && p != w.cur
    ensures Wf(Destroyed(w, p))
  {
    hide ListWf, Unlinked, Without, FreedAll, FreedAt, Queued, SlotsInRange;
    DestroyedChanges(w, p);
    DestroyedKeepsList(w, p);
    Ranges(w);
    var w1 := Destroyed(w, p);
    QueueCarries(w.ps, w1.ps, w.waitFirst, w.queue);
    SlotsCarry(w.ps, w1.ps);
  }

  // ---------------------------------------------------------------- executing

  lemma LoadedKeeps(w: World, l: Lookup, stackSize: nat, programSize: nat)
    requires Good(w)
    ensures var w1 := Loaded(w, l, stackSize, programSize);
            Good(w1) && w1.cur == w.cur && w1.first == w.first && w1.order == w.order && w1.target == w.target
  {
    hide ListWf, Queued, SleepInv, CurReady, FileOpened, FileFreed, Shape, Allocated;
    match FileOpened(w.tables, l, None)
    case (t, None) => TablesChange(w, t, w.used);
    case (t, Some(f)) =>
      var (stack, used1) := Allocated(w.used, stackSize, w.maxChunk);
      var (text, used2) := Allocated(used1, programSize, w.maxChunk);
      if stack == 0 || text == 0 {
        TablesChange(w, t, used2 - FreedAt(text, programSize) - FreedAt(stack, stackSize));
      } else {
        var p := w.ps[w.cur].(stack := stack, stackSize := stackSize, text := text, textSize := programSize);
        LocalChange(w, p, FileFreed(t, f), used2);
      }
  }

  /** Waking the parent early, wherever it sleeps, loses no wakeup. */
  lemma ParentWokenKeepsSleep(w: World)
    requires SleepInv(w) && 0 <= w.cur < |w.ps| && 0 <= w.ps[w.cur].parent < |w.ps|
    ensures SleepInv(ParentWoken(w))
  {}

  lemma ParentWokenKeeps(w: World)
    requires Wf(w) && w.cur != w.first
    ensures 0 <= w.cur < |w.ps| && 0 <= w.ps[w.cur].parent < |w.ps|
    ensures Wf(ParentWoken(w))
  {
    hide ListWf, Queued, SlotsInRange;
    Ranges(w);
    SlotsCarry(w.ps, ParentWoken(w).ps);
    FrameCarries(w, ParentWoken(w));
  }

  // ---------------------------------------------------------------- forking

  /** process_create appends the new block to the list and gives it the next pid. */
  lemma WithProcessLinked(w: World, c: int)
    requires ListWf(w) && 0 <= c < |w.ps| && !w.ps[c].valid
    ensures c !in w.order
    ensures Linked(WithProcess(w, c).ps, w.first, w.order + [c])
  {
    hide Linked, Inserted;
    PutKeepsLinked(w.ps, w.first, w.order, c, NewPcb(w.availPid));
    InsertKeepsLinked(w.ps[c := NewPcb(w.availPid)], w.first, w.order, c);
  }

  /** Besides the new block, creating a process changes one forward link. */
  lemma WithProcessChanges(w: World, c: int)
    requires ListWf(w) && 0 <= c < |w.ps| && !w.ps[c].valid
    ensures var ps := WithProcess(w, c).ps;
            && |ps| == |w.ps|
            && ps[c] == NewPcb(w.availPid).(next := ps[c].next, prev := ps[c].prev)
            && forall i :: 0 <= i < |w.ps| && i != c ==> ps[i] == w.ps[i].(next := ps[i].next)
  {}

  /** What vfork() does to the blocks. */
  lemma ForkedChanges(w: World, c: int)
    requires Wf(w) && 0 <= c < |w.ps| && !w.ps[c].valid
    ensures var w1, ps := ForkedInto(w, c), WithProcess(w, c).ps;
            && |w1.ps| == |w.ps| && |ps| == |w.ps| && InRange(w) && c != w.cur && c !in w.order
            && w1.order == w.order + [c]
            && w1.ps[c] == w.ps[w.cur].(pid := w.availPid, next := ps[c].next, prev := ps[c].prev,
                                        parent := w.cur, stack := 0, text := 0, status := Ready)
            && w1.ps[w.cur] == w.ps[w.cur].(next := ps[w.cur].next, status := Sleeping)
            && forall i :: 0 <= i < |w.ps| && i != c && i != w.cur ==> w1.ps[i] == w.ps[i].(next := ps[i].next)
  {
    hide ListWf, TablesWf, RunWf, Queued, Inserted, IncrementedAll;
    Ranges(w);
    DistinctOrder(w);
    WithProcessChanges(w, c);
  }

  lemma WithProcessLinkedWf(w: World, c: int)
    requires Wf(w) && 0 <= c < |w.ps| && !w.ps[c].valid
    ensures Linked(WithProcess(w, c).ps, w.first, w.order + [c])
  {
    hide Linked, Inserted, Queued, TablesWf, RunWf;
    WithProcessLinked(w, c);
  }

  lemma ForkedSame(w: World, c: int)
    requires Wf(w) && 0 <= c < |w.ps|
    ensures var w1 := ForkedInto(w, c);
            w1.queue == w.queue && w1.target == w.target && w1.waitFirst == w.waitFirst
            && w1.cur == w.cur && w1.first == w.first && w1.availPid == w.availPid + 1
  {
    hide ListWf, TablesWf, RunWf, Queued;
  }

  lemma ForkedKeepsList(w: World, c: int)
    requires Wf(w) && 0 <= c < |w.ps| && !w.ps[c].valid
    ensures ListWf(ForkedInto(w, c))
  {
    hide TablesWf, RunWf, Queued, Inserted, IncrementedAll, Linked, ForkedInto;
    ForkedSame(w, c);
    ForkedChanges(w, c);
    WithProcessLinkedWf(w, c);
    WithProcessChanges(w, c);
    DistinctOrder(w);
    var w1 := ForkedInto(w, c);
    LinkedCarries(WithProcess(w, c).ps, w1.ps, w.first, w1.order);
    assert forall i :: i in w1.order <==> i in w.order || i == c;
    assert forall k :: 0 <= k < |w.order| ==> w1.order[k] == w.order[k];
  }

  lemma ForkedKeepsQueue(w: World, c: int)
    requires Wf(w) && 0 <= c < |w.ps| && !w.ps[c].valid && w.cur !in w.queue && c !in w.queue
    ensures Queued(ForkedInto(w, c).ps, w.waitFirst, w.queue)
  {
    hide ListWf, TablesWf, RunWf, Inserted, IncrementedAll, ForkedInto;
    ForkedChanges(w, c);
    QueueCarries(w.ps, ForkedInto(w, c).ps, w.waitFirst, w.queue);
  }

  lemma ForkedKeepsSlots(w: World, c: int)
    requires Wf(w) && 0 <= c < |w.ps| && !w.ps[c].valid
    ensures TablesWf(ForkedInto(w, c))
  {
    hide ListWf, Queued, RunWf, Inserted;
    ForkedChanges(w, c);
    var w1 := ForkedInto(w, c);
    forall p | 0 <= p < |w1.ps| ensures w1.ps[p].files == w.ps[if p == c then w.cur else p].files {}
  }

  lemma ForkedKeepsRun(w: World, c: int)
    requires Wf(w) && 0 <= c < |w.ps| && !w.ps[c].valid && w.cur != w.first
    ensures RunWf(ForkedInto(w, c))
  {
    hide ListWf, Queued, TablesWf, Inserted, IncrementedAll;
    ForkedChanges(w, c);
  }

  lemma ForkedKeepsSleep(w: World, c: int)
    requires Wf(w) && SleepInv(w) && 0 <= c < |w.ps| && !w.ps[c].valid && w.target[w.cur] == NIL
    ensures SleepInv(ForkedInto(w, c))
  {
    hide ListWf, Queued, TablesWf, RunWf, Inserted, IncrementedAll, ForkedInto;
    ForkedChanges(w, c);
    ForkedSame(w, c);
  }

  lemma ForkedKeeps(w: World, c: int)
    requires Good(w) && w.cur != w.first && w.target[w.cur] == NIL
    requires 0 <= c < |w.ps| && !w.ps[c].valid
    ensures Good(Scheduled(ForkedInto(w, c)))
  {
    hide ListWf, TablesWf, RunWf, Queued, ForkedInto;
    ForkedKeepsList(w, c);
    ForkedKeepsQueue(w, c);
    ForkedKeepsSlots(w, c);
    ForkedKeepsRun(w, c);
    ForkedKeepsSleep(w, c);
    ForkedSame(w, c);
    ScheduledKeeps(ForkedInto(w, c));
  }

  lemma VforkedKeeps(w: World)
    requires Good(w) && w.cur != w.first && w.target[w.cur] == NIL
    ensures Good(Vforked(w))
  {
    hide ListWf, TablesWf, RunWf, Queued, ForkedInto, SleepInv, CurReady;
    match FreeBlock(w.ps)
    case None =>
    case Some(c) => ForkedKeeps(w, c);
  }

  // ---------------------------------------------------------------- every step

  lemma DestroyedKeeps(w: World, t: int)
    requires Good(w) && 0 <= t < |w.ps| && w.ps[t].status == Exited
    ensures t != w.first && (w.cur != w.first ==> t != w.cur)
    ensures w.cur != w.first ==> Good(Destroyed(w, t))
  {
    hide ListWf, TablesWf, Queued, Destroyed;
    if w.cur != w.first {
      DestroyedKeepsWf(w, t);
      DestroyedKeepsSleep(w, t);
      DestroyedChanges(w, t);
      DestroyedSame(w, t);
      CurInRange(w);
    }
  }

  lemma TargetCleared(w: World)
    requires Good(w) && w.cur !in w.queue && |w.target| == |w.ps| && 0 <= w.cur < |w.ps|
    ensures Good(w.(target := w.target[w.cur := NIL]))
  {
    hide Listed, Shape, SlotsInRange, Queued;
  }

  lemma WaitedKeeps(w: World, t: int)
    requires Good(w) && w.cur != w.first && 0 <= t < |w.ps|
    requires 0 <= w.cur < |w.target| && (w.target[w.cur] == NIL || w.target[w.cur] == t)
    ensures Good(Waited(w, t))
  {
    hide ListWf, TablesWf, RunWf, Queued, SleptOn, Destroyed;
    Ranges(w);
    if w.ps[t].status == Exited {
      DestroyedKeeps(w, t);
      DestroyedSame(w, t);
      TargetCleared(Destroyed(w, t));
    } else {
      SleptKeepsWf(w, t);
      SleptKeepsSleep(w, t);
      ScheduledKeeps(SleptOn(w, t));
    }
  }

  lemma ExecedKeeps(w: World, l: Lookup, stackSize: nat, programSize: nat)
    requires Good(w) && w.cur != w.first
    ensures Good(Execed(w, l, stackSize, programSize))
  {
    hide ListWf, TablesWf, RunWf, Queued, SleepInv, Loaded, ParentWoken, CurReady;
    LoadedKeeps(w, l, stackSize, programSize);
    var w1 := Loaded(w, l, stackSize, programSize);
    ParentWokenKeeps(w1);
    ParentWokenKeepsSleep(w1);
    ScheduledKeeps(ParentWoken(w1));
  }

  lemma TablesChangeOnly(w: World, used: set<int>)
    requires Good(w)
    ensures Good(w.(used := used))
  {
    hide ListWf, RunWf, Queued, SleepInv, CurReady;
    TablesChange(w, w.tables, used);
  }

  lemma YieldKeeps(w: World)
    requires Good(w)
    ensures Good(Yielded(w))
  {
    hide ListWf, TablesWf, Queued, RunWf, SleepInv, Scheduled;
    ScheduledKeeps(w);
  }

  lemma WaitCalledKeeps(w: World, pid: int, nohang: bool)
    requires Good(w) && w.cur != w.first && 0 <= w.cur < |w.target| && w.target[w.cur] == NIL
    ensures Good(WaitCalled(w, pid, nohang))
  {
    hide ListWf, TablesWf, RunWf, Queued, SleepInv, CurReady, Waited, Destroyed, Named;
    Ranges(w);
    var t := Named(w, pid);
    if t >= 0 {
      if !nohang {
        WaitedKeeps(w, t);
      } else if w.ps[t].status == Exited {
        DestroyedKeeps(w, t);
      }
    }
  }

  /** Whatever the running process does, including the calls that fail, the structures stay well formed and no wakeup
      is lost. */
  lemma StepKeepsGood(w: World, a: Action)
    requires Good(w) && Enabled(w, a)
    ensures Good(Step(w, a))
  {
    hide ListWf, TablesWf, Queued, SleepInv, CurReady, Opened, Closed, Duped, PathCalled, ForkedInto, Execed, Ended,
         Scheduled, Waited, Destroyed, Allocated, Named;
    Ranges(w);
    match a
    case Open(l, c) => OpenedKeeps(w, l, c);
    case Close(fd) => ClosedKeeps(w, fd);
    case Dup2(oldfd, newfd) => DupedKeeps(w, oldfd, newfd);
    case PathCall(l) => PathCalledKeeps(w, l);
    case Vfork => VforkedKeeps(w);
    case Exec(l, stackSize, programSize) => ExecedKeeps(w, l, stackSize, programSize);
    case Exit(status) => ExitKeeps(w, status);
    case Wait(pid, nohang) => WaitCalledKeeps(w, pid, nohang);
    case Resume => WaitedKeeps(w, w.target[w.cur]);
    case Yield => YieldKeeps(w);
    case Malloc(size) => TablesChangeOnly(w, Allocated(w.used, size, w.maxChunk).1);
  }

  // ---------------------------------------------------------------- whole runs

  /** Each of the actions in turn is something the process then running can do. */
  ghost predicate Can(w: World, actions: seq<Action>)
    requires Good(w)
    decreases |actions|
  {
    actions != [] ==> Enabled(w, actions[0]) && (StepKeepsGood(w, actions[0]); Can(Step(w, actions[0]), actions[1..]))
  }

  /** w' is reached from w by the actions, each one something the process then running can do. */
  ghost predicate Runs(w: World, actions: seq<Action>, w': World)
    requires Good(w)
    decreases |actions|
  {
    if actions == [] then w' == w
    else
      Enabled(w, actions[0])
      && (StepKeepsGood(w, actions[0]); Runs(Step(w, actions[0]), actions[1..], w'))
  }

  lemma {:induction false} RunKeepsGood(w: World, actions: seq<Action>, w': World)
    requires Good(w) && Runs(w, actions, w')
    ensures Good(w')
    decreases |actions|
  {
    hide ListWf, TablesWf, RunWf, Queued, SleepInv, CurReady, Enabled, Step;
    if actions != [] {
      StepKeepsGood(w, actions[0]);
      RunKeepsGood(Step(w, actions[0]), actions[1..], w');
    }
  }

  lemma NoSteps(w: World)
    requires Good(w)
    ensures Runs(w, [], w)
  {
    hide Good;
  }

  /** A run goes on with whatever the process then running can do. */
  lemma {:induction false} RunsOn(w: World, actions: seq<Action>, w1: World, a: Action)
    requires Good(w) && Runs(w, actions, w1) && Good(w1) && Enabled(w1, a)
    ensures Runs(w, actions + [a], Step(w1, a)) && Good(Step(w1, a))
    decreases |actions|
  {
    hide ListWf, TablesWf, RunWf, Queued, SleepInv, CurReady, Enabled, Step;
    if actions == [] {
      StepKeepsGood(w1, a);
      NoSteps(Step(w1, a));
      assert ([] + [a])[0] == a && ([] + [a])[1..] == [];
    } else {
      StepKeepsGood(w, actions[0]);
      RunsOn(Step(w, actions[0]), actions[1..], w1, a);
      assert (actions + [a])[0] == actions[0] && (actions + [a])[1..] == actions[1..] + [a];
    }
  }

  /** No lost wakeup, over every run: the queue is well formed, a process asleep inside waitpid() is on it, and what
      it waits for has not exited. The list stays doubly linked in pid order, holding exactly the valid blocks. */
  lemma NoLostWakeup(w: World, actions: seq<Action>, w': World)
    requires Good(w) && Runs(w, actions, w')
    ensures Queued(w'.ps, w'.waitFirst, w'.queue)
    ensures Listed(w'.ps, w'.first, w'.order, w'.availPid)
    ensures |w'.target| == |w'.ps|
    ensures forall p :: 0 <= p < |w'.ps| && w'.target[p] != NIL && w'.ps[p].status == Sleeping ==>
              p in w'.queue && 0 <= w'.target[p] < |w'.ps| && w'.ps[w'.target[p]].status != Exited
  {
    hide Runs, TablesWf, Queued, Listed, RunWf;
    RunKeepsGood(w, actions, w');
  }

  /** When a process exits, everything that slept on the queue, in particular whoever waited for it, is ready. */
  lemma ExitWakesAll(w: World, status: int, p: int)
    requires Good(w) && w.target[w.cur] == NIL && p in w.queue
    ensures 0 <= p < |w.ps| && Ended(w, status).ps[p].status == Ready
  {
    hide ListWf, TablesWf, RunWf;
    Ranges(w);
  }
}
