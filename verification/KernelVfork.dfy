/** The sleep of vfork(): what wakes a parent, and what never does. */
module KernelVfork {
  import opened Common
  import opened Processes
  import opened Descriptors
  import opened Kernels
  import opened KernelStructure
  import opened KernelMemory
  import opened KernelBoot
  import opened KernelRace

  /** Asleep, but not inside waitpid(). */
  ghost predicate VforkSleeper(w: World, p: int) {
    && 0 <= p < |w.ps| && |w.target| == |w.ps|
    && w.ps[p].valid && w.ps[p].status == Sleeping && w.target[p] == NIL
  }

  /** The running process executes a program, with or without success, and p is its parent. */
  ghost predicate ChildExecs(w: World, a: Action, p: int)
    requires Wf(w)
  {
    hide ListWf, TablesWf, RunWf, Queued;
    Ranges(w);
    a.Exec? && w.ps[w.cur].parent == p
  }

  lemma NotRunning(w: World, p: int)
    requires Good(w) && VforkSleeper(w, p) && w.cur != w.first
    ensures p != w.cur && p !in w.queue
  {
    hide ListWf, TablesWf, RunWf, Queued;
  }

  lemma DescriptorSleeper(w: World, a: Action, p: int)
    requires Wf(w) && VforkSleeper(w, p) && p != w.cur
    requires a.Open? || a.Close? || (a.Dup2? && a.newfd < MAX_FD_PER_PROC) || a.PathCall?
    ensures VforkSleeper(DescriptorStep(w, a), p)
  {
    hide ListWf, TablesWf, RunWf, Queued, FileOpened, FileFreed, FileIncremented, LookedUp, InodeFreed, Mapped;
    Ranges(w);
  }

  lemma VforkedSleeper(w: World, p: int)
    requires Wf(w) && VforkSleeper(w, p) && p != w.cur
    ensures VforkSleeper(Vforked(w), p)
  {
    hide ListWf, TablesWf, RunWf, Queued, ForkedInto, Picked;
    match FreeBlock(w.ps)
    case None =>
    case Some(c) =>
      ForkedChanges(w, c);
      ForkedSame(w, c);
  }

  lemma ExecedSleeper(w: World, l: Lookup, stackSize: nat, programSize: nat, p: int)
    requires Good(w) && w.cur != w.first && VforkSleeper(w, p) && p != w.cur && InRange(w)
    ensures var w1 := Execed(w, l, stackSize, programSize);
            if w.ps[w.cur].parent == p then |w1.ps| == |w.ps| && w1.ps[p].status == Ready else VforkSleeper(w1, p)
  {
    hide ListWf, TablesWf, RunWf, Queued, SleepInv, CurReady, Loaded, ExecMarks, ExecFrees, Owned, LoadSucceeds, Picked;
    LoadedMemory(w, l, stackSize, programSize);
    LoadedKeeps(w, l, stackSize, programSize);
    ParentWokenKeeps(Loaded(w, l, stackSize, programSize));
  }

  lemma EndedTargets(w: World, status: int)
    requires Wf(w)
    ensures Ended(w, status).target == w.target
  {
    hide ListWf, TablesWf, RunWf, Queued, Woken;
  }

  lemma EndedSleeper(w: World, status: int, p: int)
    requires Good(w) && w.cur != w.first && VforkSleeper(w, p) && w.target[w.cur] == NIL
    ensures VforkSleeper(Scheduled(Ended(w, status)), p)
  {
    hide ListWf, TablesWf, RunWf, Queued, Picked, Ended;
    NotRunning(w, p);
    EndedStatus(w, status);
    EndedTargets(w, status);
  }

  lemma DestroyedSleeper(w: World, t: int, p: int)
    requires Wf(w) && VforkSleeper(w, p) && 0 <= t < |w.ps| && t != w.first && w.ps[t].status == Exited
    ensures VforkSleeper(Destroyed(w, t), p)
  {
    hide ListWf, TablesWf, RunWf, Queued, Destroyed;
    DestroyedChanges(w, t);
    DestroyedSame(w, t);
  }

  lemma SleptTargets(w: World, t: int)
    requires Wf(w)
    ensures InRange(w) && SleptOn(w, t).target == w.target[w.cur := t]
  {
    hide ListWf, TablesWf, RunWf, Queued, Enqueued;
    Ranges(w);
  }

  lemma WaitedSleeper(w: World, t: int, p: int)
    requires Good(w) && VforkSleeper(w, p) && 0 <= t < |w.ps| && p != w.cur && InRange(w)
    ensures VforkSleeper(Waited(w, t), p)
  {
    hide ListWf, TablesWf, Queued, Destroyed, SleptOn, Picked;
    if w.ps[t].status == Exited {
      DestroyedSleeper(w, t, p);
      DestroyedChanges(w, t);
    } else {
      SleptChanges(w, t);
      SleptTargets(w, t);
    }
  }

  lemma WaitCalledSleeper(w: World, pid: int, nohang: bool, p: int)
    requires Good(w) && VforkSleeper(w, p) && p != w.cur && InRange(w)
    ensures VforkSleeper(WaitCalled(w, pid, nohang), p)
  {
    hide ListWf, TablesWf, Queued, Named, Waited, Destroyed;
    var t := Named(w, pid);
    if t >= 0 {
      if !nohang {
        WaitedSleeper(w, t, p);
      } else if w.ps[t].status == Exited {
        DestroyedSleeper(w, t, p);
      }
    }
  }

  /** A parent asleep in vfork() is woken by a step if and only if that is an execve() of one of its children; in
      particular not by the child's exit(), which readies only those inside waitpid(). Otherwise it sleeps on. */
  lemma VforkWokenIff(w: World, a: Action, p: int)
    requires Good(w) && Enabled(w, a) && VforkSleeper(w, p)
    ensures p < |Step(w, a).ps| && (Step(w, a).ps[p].status == Ready <==> ChildExecs(w, a, p))
    ensures !ChildExecs(w, a, p) ==> VforkSleeper(Step(w, a), p)
  {
    hide ListWf, TablesWf, Queued, SleepInv, CurReady, DescriptorStep, ForkedInto, Execed, Ended,
         Picked, Waited, WaitCalled, Destroyed, Allocated, Named;
    Ranges(w);
    if w.cur != w.first { NotRunning(w, p); }
    match a
    case Vfork => VforkedSleeper(w, p);
    case Exec(l, stackSize, programSize) => ExecedSleeper(w, l, stackSize, programSize, p);
    case Exit(status) => EndedSleeper(w, status, p);
    case Wait(pid, nohang) => WaitCalledSleeper(w, pid, nohang, p);
    case Resume => WaitedSleeper(w, w.target[w.cur], p);
    case Yield =>
    case Malloc(size) =>
    case _ => DescriptorSleeper(w, a, p);
  }

  // ---------------------------------------------------------------- whole runs

  ghost predicate AsleepThroughout(w: World, actions: seq<Action>, p: int)
    requires Good(w) && Can(w, actions)
    decreases |actions|
  {
    && 0 <= p < |w.ps| && w.ps[p].status == Sleeping
    && (actions != [] ==> (StepKeepsGood(w, actions[0]); AsleepThroughout(Step(w, actions[0]), actions[1..], p)))
  }

  ghost predicate SomeChildExecs(w: World, actions: seq<Action>, p: int)
    requires Good(w) && Can(w, actions)
    decreases |actions|
  {
    && actions != []
    && (ChildExecs(w, actions[0], p)
        || (StepKeepsGood(w, actions[0]); SomeChildExecs(Step(w, actions[0]), actions[1..], p)))
  }

  /** Over every run, such a parent stays asleep throughout if and only if none of its children comes to call
      execve(). */
  lemma {:induction false} VforkSleepsIff(w: World, actions: seq<Action>, p: int)
    requires Good(w) && Can(w, actions) && VforkSleeper(w, p)
    ensures AsleepThroughout(w, actions, p) <==> !SomeChildExecs(w, actions, p)
    decreases |actions|
  {
    hide ListWf, TablesWf, RunWf, Queued, SleepInv, CurReady, Enabled, Step, ChildExecs;
    if actions != [] {
      StepKeepsGood(w, actions[0]);
      VforkWokenIff(w, actions[0], p);
      if !ChildExecs(w, actions[0], p) {
        VforkSleepsIff(Step(w, actions[0]), actions[1..], p);
      }
    }
  }

  // ---------------------------------------------------------------- a wakeup that never comes

  /** The idle task runs, and nobody else can. */
  ghost predicate Stuck(w: World) {
    && Indices(w.order, |w.ps|) && w.cur == w.first && w.cur in w.order && w.order[0] == w.first
    && forall p :: p in w.order && p != w.first ==> w.ps[p].status != Ready
  }

  lemma {:induction false} StuckForever(w: World, actions: seq<Action>, w': World)
    requires Good(w) && Stuck(w) && Runs(w, actions, w')
    ensures w' == w
    decreases |actions|
  {
    hide ListWf, TablesWf, Queued, SleepInv, CurReady, Picked;
    if actions != [] {
      Ranges(w);
      PickedRuns(w.ps, w.order, w.cur);
      StuckForever(Step(w, actions[0]), actions[1..], w');
    }
  }

  /** A exits in the world after init's vfork(). */
  function Forsaken(used: set<int>, maxChunk: nat, status: int): World {
    At(Proc(1, 0, 2, Sleeping), Proc(2, 1, NIL, Exited).(exitValue := status), BLANK, 0, [0, 1, 2], 3,
       Counted(2, false),
       used, maxChunk, NIL, [], Targets(NIL, NIL))
  }

  lemma ChildExits(used: set<int>, maxChunk: nat, status: int)
    requires Good(World1(used, maxChunk))
    ensures Enabled(World1(used, maxChunk), Exit(status))
    ensures Step(World1(used, maxChunk), Exit(status)) == Forsaken(used, maxChunk, status)
  {
    hide ListWf, TablesWf, RunWf, Queued, SleepInv, CurReady, Counted, Picked, Woken;
    var w, w1 := World1(used, maxChunk), Forsaken(used, maxChunk, status);
    assert Ended(w, status).ps == w1.ps;
    PickedRuns(w1.ps, [0, 1, 2], 2);
  }

  lemma RunsApart(w: World, a: Action, rest: seq<Action>, w': World)
    requires Good(w) && Runs(w, [a] + rest, w')
    ensures Enabled(w, a) && Good(Step(w, a)) && Runs(Step(w, a), rest, w')
  {
    hide ListWf, TablesWf, RunWf, Queued, SleepInv, CurReady, Enabled, Step;
    StepKeepsGood(w, a);
    assert ([a] + rest)[0] == a && ([a] + rest)[1..] == rest;
  }

  lemma Forsakes(used: set<int>, maxChunk: nat, status: int)
    requires Good(Boot(used, maxChunk))
    ensures Runs(Boot(used, maxChunk), [Vfork, Exit(status)], Forsaken(used, maxChunk, status))
    ensures Good(Forsaken(used, maxChunk, status))
  {
    hide Good, Enabled, Step, Counted, Boot, Runs;
    var w := Boot(used, maxChunk);
    NoSteps(w);
    assert [] + [Vfork] == [Vfork] && [Vfork] + [Exit(status)] == [Vfork, Exit(status)];
    Fork1(used, maxChunk);
    RunsOn(w, [], w, Vfork);
    ChildExits(used, maxChunk, status);
    RunsOn(w, [Vfork], World1(used, maxChunk), Exit(status));
  }

  /** From the boot world: when init forks and its child exits without execve(), every run that goes on from there,
      of whatever length, leaves init asleep; nothing but the idle task runs any more. */
  lemma ForsakenParent(used: set<int>, maxChunk: nat, status: int, actions: seq<Action>, w': World)
    requires Good(Boot(used, maxChunk)) && Runs(Boot(used, maxChunk), [Vfork] + ([Exit(status)] + actions), w')
    ensures Runs(Boot(used, maxChunk), [Vfork, Exit(status)], Forsaken(used, maxChunk, status))
    ensures w' == Forsaken(used, maxChunk, status) && VforkSleeper(w', 1)
  {
    hide Good, Enabled, Step, Counted, Boot, Runs;
    Forsakes(used, maxChunk, status);
    RunsApart(Boot(used, maxChunk), Vfork, [Exit(status)] + actions, w');
    Fork1(used, maxChunk);
    RunsApart(World1(used, maxChunk), Exit(status), actions, w');
    ChildExits(used, maxChunk, status);
    StuckForever(Forsaken(used, maxChunk, status), actions, w');
  }
}
