/** What callers of waitpid() can do to be safe: as long as nobody waits for a block that somebody else waits for
    already, whoever wakes up finds its child still there, so that only the other calls decide whether references and
    memory are kept. */
module KernelWaiting {
  import opened Common
  import opened Processes
  import opened Descriptors
  import opened Kernels
  import opened KernelStructure
  import opened KernelReferences
  import opened KernelMemory
  import opened KernelBoot

  /** No two processes are inside waitpid() for the same block, and every block waited for is valid. */
  ghost predicate Awaited(w: World) {
    && |w.target| == |w.ps|
    && (forall p :: 0 <= p < |w.ps| && w.target[p] != NIL ==> 0 <= w.target[p] < |w.ps| && w.ps[w.target[p]].valid)
    && (forall p, q :: 0 <= p < q < |w.ps| && w.target[p] != NIL ==> w.target[p] != w.target[q])
  }

  /** A call of waitpid(), WNOHANG or not, names no block that somebody waits for. */
  ghost predicate WaitsAlone(w: World, a: Action)
    requires Wf(w)
  {
    a.Wait? ==> forall q :: 0 <= q < |w.target| && w.target[q] != NIL ==> w.target[q] != Named(w, a.pid)
  }

  /** The same targets, and no block less. */
  lemma TargetsKept(w: World, w1: World)
    requires Awaited(w) && |w1.ps| == |w.ps| && w1.target == w.target
    requires forall i :: 0 <= i < |w.ps| && w.ps[i].valid ==> w1.ps[i].valid
    ensures Awaited(w1)
  {}

  /** The destruction of a block that nobody but the running process waits for. */
  lemma DestroyedAwaited(w: World, t: int)
    requires Wf(w) && Awaited(w) && 0 <= t < |w.ps| && t != w.first && InRange(w)
    requires forall q :: 0 <= q < |w.ps| && q != w.cur ==> w.target[q] != t
    ensures w.target[w.cur] != t ==> Awaited(Destroyed(w, t))
    ensures Awaited(Destroyed(w, t).(target := w.target[w.cur := NIL]))
  {
    hide ListWf, TablesWf, RunWf, Queued, Destroyed;
    DestroyedChanges(w, t);
    DestroyedSame(w, t);
  }

  lemma SleptAwaited(w: World, t: int)
    requires Wf(w) && Awaited(w) && 0 <= t < |w.ps| && w.ps[t].valid && InRange(w)
    requires forall q :: 0 <= q < |w.ps| && q != w.cur ==> w.target[q] != t
    ensures Awaited(Scheduled(SleptOn(w, t)))
  {
    hide ListWf, TablesWf, RunWf, Queued, Enqueued;
    SleptChanges(w, t);
  }

  lemma WaitedAwaited(w: World, t: int)
    requires Wf(w) && Awaited(w) && 0 <= t < |w.ps| && w.ps[t].valid && InRange(w)
    requires forall q :: 0 <= q < |w.ps| && q != w.cur ==> w.target[q] != t
    ensures Awaited(Waited(w, t))
  {
    hide ListWf, TablesWf, Queued, Destroyed, SleptOn, Scheduled, Awaited;
    if w.ps[t].status == Exited {
      DestroyedAwaited(w, t);
    } else {
      SleptAwaited(w, t);
    }
  }

  lemma WaitCalledAwaited(w: World, pid: int, nohang: bool)
    requires Good(w) && Enabled(w, Wait(pid, nohang)) && Awaited(w) && WaitsAlone(w, Wait(pid, nohang)) && InRange(w)
    ensures Awaited(WaitCalled(w, pid, nohang))
    ensures Named(w, pid) >= 0 ==> Named(w, pid) < |w.ps| && w.ps[Named(w, pid)].valid
  {
    hide ListWf, TablesWf, Queued, Named, Waited, Destroyed, SleepInv, CurReady;
    var t := Named(w, pid);
    if t >= 0 {
      DistinctOrder(w);
      if !nohang {
        WaitedAwaited(w, t);
      } else if w.ps[t].status == Exited {
        DestroyedAwaited(w, t);
      }
    }
  }

  lemma DescriptorAwaited(w: World, a: Action)
    requires Wf(w) && Awaited(w)
    requires a.Open? || a.Close? || (a.Dup2? && a.newfd < MAX_FD_PER_PROC) || a.PathCall?
    ensures Awaited(DescriptorStep(w, a))
  {
    hide ListWf, TablesWf, RunWf, Queued, FileOpened, FileFreed, FileIncremented, LookedUp, InodeFreed, Mapped, Awaited;
    DescriptorBlocks(w, a);
    Ranges(w);
    TargetsKept(w, DescriptorStep(w, a));
  }

  lemma VforkedAwaited(w: World)
    requires Wf(w) && Awaited(w)
    ensures Awaited(Vforked(w))
  {
    hide ListWf, TablesWf, RunWf, Queued, ForkedInto, Awaited, Picked;
    match FreeBlock(w.ps)
    case None =>
    case Some(c) =>
      ForkedChanges(w, c);
      ForkedSame(w, c);
      TargetsKept(w, Vforked(w));
  }

  lemma ExecedAwaited(w: World, l: Lookup, stackSize: nat, programSize: nat)
    requires Good(w) && w.cur != w.first && Awaited(w)
    ensures Awaited(Execed(w, l, stackSize, programSize))
  {
    hide ListWf, TablesWf, RunWf, Queued, SleepInv, CurReady, Loaded, Awaited, ExecMarks, ExecFrees, Owned,
         LoadSucceeds;
    LoadedMemory(w, l, stackSize, programSize);
    LoadedKeeps(w, l, stackSize, programSize);
    ParentWokenKeeps(Loaded(w, l, stackSize, programSize));
    TargetsKept(w, Execed(w, l, stackSize, programSize));
  }

  lemma EndedAwaited(w: World, status: int)
    requires Wf(w) && Awaited(w)
    ensures Awaited(Scheduled(Ended(w, status)))
  {
    hide ListWf, TablesWf, RunWf, Queued, Woken, Picked, Awaited;
    EndedKeepsFields(w, status);
    TargetsKept(w, Scheduled(Ended(w, status)));
  }

  lemma YieldedAwaited(w: World)
    requires Wf(w) && Awaited(w)
    ensures Awaited(Yielded(w))
  {
    hide ListWf, TablesWf, RunWf, Queued, Awaited;
    TargetsKept(w, Yielded(w));
  }

  lemma ResumedAwaited(w: World)
    requires Wf(w) && InRange(w) && Awaited(w) && w.target[w.cur] != NIL
    ensures w.ps[w.target[w.cur]].valid && Awaited(Waited(w, w.target[w.cur]))
  {
    hide ListWf, TablesWf, RunWf, Queued, Waited;
    WaitedAwaited(w, w.target[w.cur]);
  }

  /** Every step keeps it, and destroys only a block that is still valid. */
  lemma StepKeepsAwaited(w: World, a: Action)
    requires Good(w) && Enabled(w, a) && Awaited(w) && WaitsAlone(w, a)
    ensures Awaited(Step(w, a))
    ensures DestroyTarget(w, a) != NIL ==> w.ps[DestroyTarget(w, a)].valid
  {
    hide ListWf, TablesWf, Queued, SleepInv, CurReady, DescriptorStep, ForkedInto, Execed, Ended,
         Scheduled, Waited, WaitCalled, Destroyed, Allocated, Named, Awaited, WaitsAlone;
    Ranges(w);
    match a
    case Vfork => VforkedAwaited(w);
    case Exec(l, stackSize, programSize) => ExecedAwaited(w, l, stackSize, programSize);
    case Exit(status) => EndedAwaited(w, status);
    case Wait(pid, nohang) => WaitCalledAwaited(w, pid, nohang);
    case Resume => ResumedAwaited(w);
    case Yield => YieldedAwaited(w);
    case Malloc(size) => TargetsKept(w, Step(w, a));
    case _ => DescriptorAwaited(w, a);
  }

  // ---------------------------------------------------------------- whole runs

  ghost predicate AloneThroughout(w: World, actions: seq<Action>)
    requires Good(w) && Can(w, actions)
    decreases |actions|
  {
    actions != [] ==>
      && WaitsAlone(w, actions[0])
      && (StepKeepsGood(w, actions[0]); AloneThroughout(Step(w, actions[0]), actions[1..]))
  }

  /** Every call but waitpid() meets its condition. */
  ghost predicate CallsKeepThroughout(w: World, actions: seq<Action>)
    requires Good(w) && Can(w, actions)
    decreases |actions|
  {
    actions != [] ==>
      && (actions[0].Resume? || Keeps(w, actions[0]))
      && (StepKeepsGood(w, actions[0]); CallsKeepThroughout(Step(w, actions[0]), actions[1..]))
  }

  /** Every program and every stack has a size. */
  predicate SizesGiven(actions: seq<Action>) {
    forall k :: 0 <= k < |actions| && actions[k].Exec? ==> actions[k].stackSize >= 1 && actions[k].programSize >= 1
  }

  lemma AloneResumes(w: World)
    requires Good(w) && Enabled(w, Resume) && Awaited(w)
    ensures Keeps(w, Resume)
  {
    hide ListWf, TablesWf, Queued, SleepInv, CurReady, Harmless;
    Ranges(w);
  }

  lemma {:induction false} AloneKeepsIff(w: World, actions: seq<Action>)
    requires Good(w) && Can(w, actions) && Awaited(w) && AloneThroughout(w, actions)
    ensures KeepsThroughout(w, actions) <==> CallsKeepThroughout(w, actions)
    decreases |actions|
  {
    hide ListWf, TablesWf, RunWf, Queued, SleepInv, CurReady, Enabled, Step, Keeps, Awaited, WaitsAlone;
    if actions != [] {
      StepKeepsGood(w, actions[0]);
      StepKeepsAwaited(w, actions[0]);
      if actions[0].Resume? { AloneResumes(w); }
      AloneKeepsIff(Step(w, actions[0]), actions[1..]);
    }
  }

  /** While nobody waits for a block that somebody else waits for, references are conserved throughout a run exactly
      when every call other than waitpid() meets its condition. */
  lemma AloneConservesIff(w: World, actions: seq<Action>)
    requires Good(w) && Can(w, actions) && Conserved(w.ps, w.tables) && Awaited(w) && AloneThroughout(w, actions)
    ensures ConservedThroughout(w, actions) <==> CallsKeepThroughout(w, actions)
  {
    hide Good, Can, Conserved, Awaited, AloneThroughout, ConservedThroughout, CallsKeepThroughout, KeepsThroughout;
    RunConservesIff(w, actions);
    AloneKeepsIff(w, actions);
  }

  lemma {:induction false} AloneKeepsMemory(w: World, actions: seq<Action>)
    requires Good(w) && Can(w, actions) && MemOk(w) && AllSized(w) && Awaited(w) && AloneThroughout(w, actions)
             && SizesGiven(actions)
    ensures MemOkThroughout(w, actions)
    decreases |actions|
  {
    hide ListWf, TablesWf, RunWf, Queued, SleepInv, CurReady, Enabled, Step, Awaited, WaitsAlone, MemOk, AllSized,
         Unowned, Orphaned;
    if actions != [] {
      StepKeepsGood(w, actions[0]);
      StepKeepsAwaited(w, actions[0]);
      StepKeepsLedger(w, actions[0]);
      AloneKeepsMemory(Step(w, actions[0]), actions[1..]);
    }
  }

  /** So it is from the boot world on: callers that wait alone, and programs and stacks with a size, keep memory
      exclusive. */
  lemma AloneFromBoot(used: set<int>, maxChunk: nat, actions: seq<Action>)
    requires Good(Boot(used, maxChunk)) && Can(Boot(used, maxChunk), actions)
             && AloneThroughout(Boot(used, maxChunk), actions)
    ensures ConservedThroughout(Boot(used, maxChunk), actions) <==> CallsKeepThroughout(Boot(used, maxChunk), actions)
    ensures SizesGiven(actions) ==> MemOkThroughout(Boot(used, maxChunk), actions)
  {
    hide Good, Can, Conserved, AloneThroughout, ConservedThroughout, CallsKeepThroughout, MemOkThroughout, SizesGiven;
    BootConserves(used, maxChunk);
    AloneConservesIff(Boot(used, maxChunk), actions);
    if SizesGiven(actions) { AloneKeepsMemory(Boot(used, maxChunk), actions); }
  }
}
