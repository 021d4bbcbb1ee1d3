/** The life of one child, from vfork() to waitpid(), gives back all the memory it took, whatever others do in
    between. */
module KernelLifecycle {
  import opened Common
  import opened Processes
  import opened Descriptors
  import opened Kernels
  import opened KernelStructure
  import opened KernelMemory

  /** One step that the running process can take. */
  ghost predicate Goes(w: World, a: Action, w': World) {
    Good(w) && Enabled(w, a) && w' == Step(w, a) && Good(w')
  }

  /** A step that neither takes nor gives back memory: no vfork, execve or malloc, and no destruction of a child. */
  ghost predicate Quiet(w: World, a: Action)
    requires Good(w) && Enabled(w, a)
  {
    !a.Vfork? && !a.Exec? && !a.Malloc? && DestroyTarget(w, a) == NIL
  }

  ghost predicate QuietRuns(w: World, actions: seq<Action>, w': World)
    requires Good(w)
    decreases |actions|
  {
    if actions == [] then w' == w
    else
      && Enabled(w, actions[0]) && Quiet(w, actions[0])
      && (StepKeepsGood(w, actions[0]); QuietRuns(Step(w, actions[0]), actions[1..], w'))
  }

  ghost predicate SameChunks(w: World, w1: World) {
    SameBlocks(w.ps, w1.ps) && w1.used == w.used && w1.first == w.first
  }

  lemma SleptChunks(w: World, t: int)
    requires Wf(w)
    ensures SameChunks(w, Scheduled(SleptOn(w, t)))
  {
    hide ListWf, TablesWf, RunWf, Queued, Enqueued;
    SleptChanges(w, t);
  }

  lemma DescriptorChunks(w: World, a: Action)
    requires Wf(w)
    requires a.Open? || a.Close? || (a.Dup2? && a.newfd < MAX_FD_PER_PROC) || a.PathCall?
    ensures SameChunks(w, DescriptorStep(w, a))
  {
    hide ListWf, TablesWf, RunWf, Queued, FileOpened, FileFreed, FileIncremented, LookedUp, InodeFreed, Mapped;
    DescriptorBlocks(w, a);
    Ranges(w);
  }

  lemma EndedChunks(w: World, status: int)
    requires Wf(w)
    ensures SameChunks(w, Scheduled(Ended(w, status)))
  {
    hide ListWf, TablesWf, RunWf, Queued, Ended, Picked;
    EndedKeepsFields(w, status);
  }

  lemma YieldedChunks(w: World)
    requires Wf(w)
    ensures SameChunks(w, Yielded(w))
  {
    hide ListWf, TablesWf, RunWf, Queued;
  }

  lemma Itself(w: World)
    ensures SameChunks(w, w)
  {}

  lemma QuietStep(w: World, a: Action)
    requires Good(w) && Enabled(w, a) && Quiet(w, a)
    ensures SameChunks(w, Step(w, a))
  {
    hide ListWf, TablesWf, Queued, SleepInv, CurReady, DescriptorStep, Ended, SleptOn, Scheduled, Destroyed, Named,
         SameChunks;
    Ranges(w);
    Itself(w);
    match a
    case Exit(status) => EndedChunks(w, status);
    case Wait(pid, nohang) =>
      if Named(w, pid) >= 0 { SleptChunks(w, Named(w, pid)); }
    case Resume => SleptChunks(w, w.target[w.cur]);
    case Yield => YieldedChunks(w);
    case _ => DescriptorChunks(w, a);
  }

  lemma {:induction false} QuietRun(w: World, actions: seq<Action>, w': World)
    requires Good(w) && QuietRuns(w, actions, w')
    ensures SameChunks(w, w') && Good(w')
    decreases |actions|
  {
    hide ListWf, TablesWf, RunWf, Queued, SleepInv, CurReady, Enabled, Step, Quiet;
    if actions != [] {
      StepKeepsGood(w, actions[0]);
      QuietStep(w, actions[0]);
      QuietRun(Step(w, actions[0]), actions[1..], w');
    }
  }

  // ---------------------------------------------------------------- the three steps that matter

  lemma ForkStep(w: World, w1: World, c: int)
    requires Goes(w, Vfork, w1) && FreeBlock(w.ps) == Some(c)
    ensures w1.used == w.used
  {
    hide ListWf, TablesWf, RunWf, Queued, ForkedInto, SleepInv, CurReady;
    ForkedUsed(w, c);
  }

  lemma ParentInRange(w: World)
    requires Good(w) && w.cur != w.first
    ensures 0 <= w.cur < |w.ps| && 0 <= w.ps[w.cur].parent < |w.ps|
  {}

  lemma ExecedIs(w: World, l: Lookup, stackSize: nat, programSize: nat)
    requires Good(w) && w.cur != w.first && Good(Loaded(w, l, stackSize, programSize)) && InRange(w)
    requires |Loaded(w, l, stackSize, programSize).ps| == |w.ps|
             && Loaded(w, l, stackSize, programSize).first == w.first
    ensures var w1, w2 := Loaded(w, l, stackSize, programSize), Execed(w, l, stackSize, programSize);
            && |w2.ps| == |w.ps| && w2.used == w1.used
            && w2.ps[w.cur].stack == w1.ps[w.cur].stack && w2.ps[w.cur].stackSize == w1.ps[w.cur].stackSize
            && w2.ps[w.cur].text == w1.ps[w.cur].text && w2.ps[w.cur].textSize == w1.ps[w.cur].textSize
  {
    hide ListWf, TablesWf, RunWf, Queued, Loaded, SleepInv, CurReady;
    var w1 := Loaded(w, l, stackSize, programSize);
    ParentWokenKeeps(w1);
    ParentInRange(w1);
  }

  lemma LoadedSizes(w: World, l: Lookup, stackSize: nat, programSize: nat)
    requires Wf(w) && LoadSucceeds(w, l, stackSize, programSize) && 1 <= stackSize && 1 <= programSize && InRange(w)
    ensures Sized(Loaded(w, l, stackSize, programSize).ps[w.cur])
  {
    hide ListWf, TablesWf, RunWf, Queued, FileOpened, FileFreed, Allocated;
  }

  lemma ExecStep(w: World, w1: World, l: Lookup, stackSize: nat, programSize: nat)
    requires Goes(w, Exec(l, stackSize, programSize), w1) && LoadSucceeds(w, l, stackSize, programSize)
    requires 1 <= stackSize && 1 <= programSize
    ensures |w1.ps| == |w.ps| && 0 <= w.cur < |w.ps| && Sized(w1.ps[w.cur])
    ensures w1.used == w.used + Owned(w1.ps[w.cur]) && Owned(w1.ps[w.cur]) !! w.used
  {
    hide ListWf, TablesWf, RunWf, Queued, Loaded, SleepInv, CurReady, LoadSucceeds, ExecMarks, ExecFrees, BlockAt;
    LoadedMemory(w, l, stackSize, programSize);
    LoadedKeeps(w, l, stackSize, programSize);
    LoadedSizes(w, l, stackSize, programSize);
    assert w.cur != w.first;
    ExecedIs(w, l, stackSize, programSize);
  }

  lemma DestroyStep(w: World, a: Action, w1: World, c: int)
    requires Goes(w, a, w1) && 0 <= c < |w.ps| && DestroyTarget(w, a) == c
    ensures w1.used == w.used - Freed(w.ps[c])
  {
    hide ListWf, TablesWf, Queued, SleepInv, CurReady, Destroyed, Named, Freed, SleptOn, Scheduled;
    Ranges(w);
    DestroyedKeeps(w, c);
    DestroyedUsed(w, c);
  }

  /** A vfork, a successful execve of a nonempty program by the child, and its destruction by some waitpid(), with
      any calls by anybody in between that leave memory alone: at the end exactly the chunks are marked that were
      marked before. */
  lemma ChildReturnsMemory(w: World, w1: World, q1: seq<Action>, u1: World, u2: World, q2: seq<Action>, u3: World,
                           a: Action, u4: World,
                           c: int, l: Lookup, stackSize: nat, programSize: nat)
    requires Goes(w, Vfork, w1) && FreeBlock(w.ps) == Some(c)
    requires QuietRuns(w1, q1, u1) && u1.cur == c && Goes(u1, Exec(l, stackSize, programSize), u2)
    requires LoadSucceeds(u1, l, stackSize, programSize) && 1 <= stackSize && 1 <= programSize
    requires QuietRuns(u2, q2, u3) && Goes(u3, a, u4) && DestroyTarget(u3, a) == c
    ensures u4.used == w.used
  {
    hide ListWf, TablesWf, RunWf, Queued, SleepInv, CurReady, Step, Enabled, LoadSucceeds, QuietRuns, DestroyTarget,
         BlockAt;
    ForkStep(w, w1, c);
    QuietRun(w1, q1, u1);
    ExecStep(u1, u2, l, stackSize, programSize);
    QuietRun(u2, q2, u3);
    DestroyStep(u3, a, u4, c);
    SizedFreesOwn(u3.ps[c]);
  }
}
