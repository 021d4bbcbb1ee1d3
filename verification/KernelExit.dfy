/** What becomes of a process that has exited: its exit value waits for whoever calls waitpid(), unless one of its
    children calls execve(), which makes it ready again. */
module KernelExit {
  import opened Common
  import opened Processes
  import opened Descriptors
  import opened Kernels
  import opened KernelStructure
  import opened KernelMemory
  import opened KernelBoot
  import opened KernelRace
  import opened KernelVfork

  /** Block p has exited with this value and nobody has waited for it yet. */
  ghost predicate Zombie(w: World, p: int, value: int) {
    0 <= p < |w.ps| && w.ps[p].valid && w.ps[p].status == Exited && w.ps[p].exitValue == value
  }

  lemma NotCurrent(w: World, p: int, value: int)
    requires Good(w) && Zombie(w, p, value)
    ensures p != w.first && p !in w.queue && (w.cur != w.first ==> p != w.cur)
  {
    hide ListWf, TablesWf, Queued;
  }

  lemma DescriptorZombie(w: World, a: Action, p: int, value: int)
    requires Wf(w) && Zombie(w, p, value) && p != w.cur
    requires a.Open? || a.Close? || (a.Dup2? && a.newfd < MAX_FD_PER_PROC) || a.PathCall?
    ensures Zombie(DescriptorStep(w, a), p, value)
  {
    hide ListWf, TablesWf, RunWf, Queued, FileOpened, FileFreed, FileIncremented, LookedUp, InodeFreed, Mapped;
    Ranges(w);
  }

  lemma VforkedZombie(w: World, p: int, value: int)
    requires Wf(w) && Zombie(w, p, value) && p != w.cur
    ensures Zombie(Vforked(w), p, value)
  {
    hide ListWf, TablesWf, RunWf, Queued, ForkedInto, Picked;
    match FreeBlock(w.ps)
    case None =>
    case Some(c) => ForkedChanges(w, c);
  }

  lemma ExecedZombie(w: World, l: Lookup, stackSize: nat, programSize: nat, p: int, value: int)
    requires Good(w) && w.cur != w.first && Zombie(w, p, value) && p != w.cur && InRange(w)
    ensures var w1 := Execed(w, l, stackSize, programSize);
            if w.ps[w.cur].parent == p then |w1.ps| == |w.ps| && w1.ps[p].status == Ready && w1.ps[p].valid
            else Zombie(w1, p, value)
  {
    hide ListWf, TablesWf, RunWf, Queued, SleepInv, CurReady, Loaded, ExecMarks, ExecFrees, Owned, LoadSucceeds, Picked;
    LoadedMemory(w, l, stackSize, programSize);
    LoadedKeeps(w, l, stackSize, programSize);
    ParentWokenKeeps(Loaded(w, l, stackSize, programSize));
  }

  lemma EndedZombie(w: World, status: int, p: int, value: int)
    requires Good(w) && w.cur != w.first && w.target[w.cur] == NIL && Zombie(w, p, value)
    ensures Zombie(Scheduled(Ended(w, status)), p, value)
  {
    hide ListWf, TablesWf, RunWf, Queued, Picked;
    NotCurrent(w, p, value);
    Ranges(w);
  }

  lemma DestroyedZombie(w: World, t: int, p: int, value: int)
    requires Wf(w) && Zombie(w, p, value) && 0 <= t < |w.ps| && t != w.first
    ensures if t == p then |Destroyed(w, t).ps| == |w.ps| && !Destroyed(w, t).ps[p].valid
            else Zombie(Destroyed(w, t), p, value)
  {
    hide ListWf, TablesWf, RunWf, Queued, Destroyed;
    DestroyedChanges(w, t);
  }

  lemma WaitedZombie(w: World, t: int, p: int, value: int)
    requires Good(w) && Zombie(w, p, value) && 0 <= t < |w.ps| && p != w.cur && InRange(w)
    ensures if w.ps[t].status == Exited && t == p then |Waited(w, t).ps| == |w.ps| && !Waited(w, t).ps[p].valid
            else Zombie(Waited(w, t), p, value)
  {
    hide ListWf, TablesWf, Queued, Destroyed, SleptOn, Picked;
    if w.ps[t].status == Exited {
      DestroyedZombie(w, t, p, value);
    } else {
      SleptChanges(w, t);
    }
  }

  lemma WaitCalledZombie(w: World, pid: int, nohang: bool, p: int, value: int)
    requires Good(w) && Zombie(w, p, value) && p != w.cur && InRange(w)
    ensures if Named(w, pid) == p then |WaitCalled(w, pid, nohang).ps| == |w.ps|
            && !WaitCalled(w, pid, nohang).ps[p].valid
            else Zombie(WaitCalled(w, pid, nohang), p, value)
  {
    hide ListWf, TablesWf, Queued, Named, Waited, Destroyed;
    var t := Named(w, pid);
    if t >= 0 {
      if !nohang {
        WaitedZombie(w, t, p, value);
      } else if w.ps[t].status == Exited {
        DestroyedZombie(w, t, p, value);
      }
    }
  }

  lemma Sizes(w: World, a: Action)
    requires Good(w) && Enabled(w, a)
    ensures |w.ps| == |Step(w, a).ps| == MAX_PROCS
  {
    hide TablesWf, Queued, RunWf, SleepInv, CurReady, Listed, Step, Enabled;
    StepKeepsGood(w, a);
  }

  /** What a step can do to a process that has exited: waitpid() destroys it, an execve() of one of its children
      makes it ready again, and everything else leaves it and its exit value alone. */
  lemma ZombieStep(w: World, a: Action, p: int, value: int)
    requires Good(w) && Enabled(w, a) && Zombie(w, p, value)
    ensures |Step(w, a).ps| == |w.ps|
    ensures DestroyTarget(w, a) == p ==> !Step(w, a).ps[p].valid
    ensures ChildExecs(w, a, p) ==> Step(w, a).ps[p].valid && Step(w, a).ps[p].status == Ready
    ensures DestroyTarget(w, a) != p && !ChildExecs(w, a, p) ==> Zombie(Step(w, a), p, value)
  {
    hide ListWf, TablesWf, Queued, SleepInv, CurReady, DescriptorStep, ForkedInto, Execed, Ended,
         Picked, Waited, WaitCalled, Destroyed, Allocated, Named;
    Ranges(w);
    NotCurrent(w, p, value);
    Sizes(w, a);
    match a
    case Vfork => VforkedZombie(w, p, value);
    case Exec(l, stackSize, programSize) => ExecedZombie(w, l, stackSize, programSize, p, value);
    case Exit(status) => EndedZombie(w, status, p, value);
    case Wait(pid, nohang) => WaitCalledZombie(w, pid, nohang, p, value);
    case Resume => WaitedZombie(w, w.target[w.cur], p, value);
    case Yield =>
    case Malloc(size) =>
    case _ => DescriptorZombie(w, a, p, value);
  }

  // ---------------------------------------------------------------- whole runs

  ghost predicate ZombieThroughout(w: World, actions: seq<Action>, p: int, value: int)
    requires Good(w) && Can(w, actions)
    decreases |actions|
  {
    && Zombie(w, p, value)
    && (actions != [] ==> (StepKeepsGood(w, actions[0]); ZombieThroughout(Step(w, actions[0]), actions[1..], p, value)))
  }

  /** Some step destroys the block, or is an execve() of one of its children. */
  ghost predicate Disturbed(w: World, actions: seq<Action>, p: int)
    requires Good(w) && Can(w, actions)
    decreases |actions|
  {
    && actions != []
    && (DestroyTarget(w, actions[0]) == p || ChildExecs(w, actions[0], p)
        || (StepKeepsGood(w, actions[0]); Disturbed(Step(w, actions[0]), actions[1..], p)))
  }

  /** Over every run, the exit value waits in the block throughout if and only if nobody waits for the process and
      none of its children calls execve(). */
  lemma {:induction false} ExitValueWaits(w: World, actions: seq<Action>, p: int, value: int)
    requires Good(w) && Can(w, actions) && Zombie(w, p, value)
    ensures ZombieThroughout(w, actions, p, value) <==> !Disturbed(w, actions, p)
    decreases |actions|
  {
    hide ListWf, TablesWf, RunWf, Queued, SleepInv, CurReady, Enabled, Step, ChildExecs, DestroyTarget;
    if actions != [] {
      StepKeepsGood(w, actions[0]);
      ZombieStep(w, actions[0], p, value);
      if DestroyTarget(w, actions[0]) != p && !ChildExecs(w, actions[0], p) {
        ExitValueWaits(Step(w, actions[0]), actions[1..], p, value);
      }
    }
  }

  // ---------------------------------------------------------------- an exited process that runs again

  function Grandchild(next: int, status: Status): Pcb {
    Proc(3, 2, next, status).(parent := 2)
  }

  /** A has forked B. */
  function Again1(used: set<int>, maxChunk: nat): World {
    At(Proc(1, 0, 2, Sleeping), Proc(2, 1, 3, Sleeping), Grandchild(NIL, Ready), 3, [0, 1, 2, 3], 4, Counted(3, false),
       used, maxChunk, NIL, [], Targets(NIL, NIL))
  }

  /** B has executed a program, and A goes on. */
  function Again2(used: set<int>, maxChunk: nat): World {
    At(Proc(1, 0, 2, Sleeping), Proc(2, 1, 3, Ready), WithProgram(Grandchild(NIL, Ready)), 2, [0, 1, 2, 3], 4,
       Counted(3, true), used + {4097} + {4098}, maxChunk, NIL, [], Targets(NIL, NIL))
  }

  /** A has exited. */
  function Again3(used: set<int>, maxChunk: nat, value: int): World {
    At(Proc(1, 0, 2, Sleeping), Proc(2, 1, 3, Exited).(exitValue := value), WithProgram(Grandchild(NIL, Ready)), 3,
       [0, 1, 2, 3], 4, Counted(3, true), used + {4097} + {4098}, maxChunk, NIL, [], Targets(NIL, NIL))
  }

  lemma GrandchildForked(used: set<int>, maxChunk: nat)
    requires Good(World1(used, maxChunk))
    ensures Enabled(World1(used, maxChunk), Vfork) && Step(World1(used, maxChunk), Vfork) == Again1(used, maxChunk)
  {
    hide ListWf, TablesWf, RunWf, Queued, SleepInv, CurReady, Counted, Picked, Position, Scan, IncrementedAll;
    var w, w1 := World1(used, maxChunk), Again1(used, maxChunk);
    CountUp(2, false);
    assert FreeBlock(w.ps) == Some(3);
    assert ForkedInto(w, 3).ps == w1.ps;
    PicksAt(w1.ps, [0, 1, 2, 3], 2, 3);
    assert [0, 1, 2] + [3] == [0, 1, 2, 3];
  }

  lemma GrandchildExecuted(used: set<int>, maxChunk: nat)
    requires Roomy(used, maxChunk) && Good(Again1(used, maxChunk))
    ensures var a := Exec(PROGRAM, 1, 1);
            Enabled(Again1(used, maxChunk), a) && Step(Again1(used, maxChunk), a) == Again2(used, maxChunk)
  {
    hide ListWf, TablesWf, RunWf, Queued, SleepInv, CurReady, Counted, Picked, Position, Scan, FileOpened, FileFreed,
         Allocated;
    var w, w1 := Again1(used, maxChunk), Again2(used, maxChunk);
    ProgramOpened(3, false);
    ProgramPlaced(used, maxChunk);
    assert Loaded(w, PROGRAM, 1, 1).ps
        == Blocks(Proc(1, 0, 2, Sleeping), Proc(2, 1, 3, Sleeping), WithProgram(Grandchild(NIL, Ready)));
    assert ParentWoken(Loaded(w, PROGRAM, 1, 1)).ps == w1.ps;
    PicksAt(w1.ps, [0, 1, 2, 3], 3, 2);
  }

  lemma ParentExited(used: set<int>, maxChunk: nat, value: int)
    requires Good(Again2(used, maxChunk))
    ensures var a := Exit(value);
            Enabled(Again2(used, maxChunk), a) && Step(Again2(used, maxChunk), a) == Again3(used, maxChunk, value)
  {
    hide ListWf, TablesWf, RunWf, Queued, SleepInv, CurReady, Counted, Picked, Position, Scan, Woken;
    var w, w1 := Again2(used, maxChunk), Again3(used, maxChunk, value);
    assert Ended(w, value).ps == w1.ps;
    PicksAt(w1.ps, [0, 1, 2, 3], 2, 3);
  }

  lemma ExecutedAgain(used: set<int>, maxChunk: nat, value: int)
    requires Good(Again3(used, maxChunk, value))
    ensures var w, a := Again3(used, maxChunk, value), Exec(NotFound, 1, 1);
            Enabled(w, a) && Step(w, a).cur == 2 && |Step(w, a).ps| > 2 && Step(w, a).ps[2].exitValue == value
  {
    hide ListWf, TablesWf, RunWf, Queued, SleepInv, CurReady, Counted, Picked, Position, Scan, FileOpened, FileFreed,
         Allocated;
    var w := Again3(used, maxChunk, value);
    NothingOpened(3);
    var ps := ParentWoken(Loaded(w, NotFound, 1, 1)).ps;
    assert ps
           == Blocks(Proc(1, 0, 2, Sleeping), Proc(2, 1, 3, Ready).(exitValue := value),
                     WithProgram(Grandchild(NIL, Ready)));
    PicksAt(ps, [0, 1, 2, 3], 3, 2);
  }

  /** A run from the boot world: init forks A, A forks B, B executes a program, A exits. Then B calls execve() once
      more, with or without success, and A, which has exited, is the process that runs. */
  lemma ExitedRuns(used: set<int>, maxChunk: nat, value: int)
    requires Roomy(used, maxChunk)
    ensures var w, w1, a := Boot(used, maxChunk), Again3(used, maxChunk, value), Exec(NotFound, 1, 1);
            && Good(w) && Runs(w, [Vfork, Vfork, Exec(PROGRAM, 1, 1), Exit(value)], w1)
            && Good(w1) && Zombie(w1, 2, value) && Enabled(w1, a) && Step(w1, a).cur == 2
  {
    hide Good, Enabled, Step, Counted, Boot, Runs, Roomy;
    var w := Boot(used, maxChunk);
    BootIsGood(used, maxChunk);
    NoSteps(w);
    assert [] + [Vfork] == [Vfork] && [Vfork] + [Vfork] == [Vfork, Vfork];
    Fork1(used, maxChunk);
    RunsOn(w, [], w, Vfork);
    GrandchildForked(used, maxChunk);
    RunsOn(w, [Vfork], World1(used, maxChunk), Vfork);
    GrandchildExecuted(used, maxChunk);
    RunsOn(w, [Vfork, Vfork], Again1(used, maxChunk), Exec(PROGRAM, 1, 1));
    assert [Vfork, Vfork] + [Exec(PROGRAM, 1, 1)] == [Vfork, Vfork, Exec(PROGRAM, 1, 1)];
    ParentExited(used, maxChunk, value);
    RunsOn(w, [Vfork, Vfork, Exec(PROGRAM, 1, 1)], Again2(used, maxChunk), Exit(value));
    assert [Vfork, Vfork, Exec(PROGRAM, 1, 1)] + [Exit(value)] == [Vfork, Vfork, Exec(PROGRAM, 1, 1), Exit(value)];
    ExecutedAgain(used, maxChunk, value);
  }
}
