/** A run from the boot world in which a child executes an empty file: its destruction, the first and only one, marks
    free everything above the one chunk it has, the memory of another process included. */
module KernelEmptyProgram {
  import opened Common
  import opened Processes
  import opened Descriptors
  import opened Chunks
  import opened Kernels
  import opened KernelStructure
  import opened KernelMemory
  import opened KernelBoot
  import opened KernelRace

  /** The stack of a program without a bFLT header. */
  const DEFAULT_USER_STACK_SIZE := 8192

  const EMPTY_RUN: seq<Action> :=
    [Vfork, Exec(PROGRAM, DEFAULT_USER_STACK_SIZE, 0), Vfork, Exit(0), Exec(PROGRAM, DEFAULT_USER_STACK_SIZE, 1)]

  /** Memory with the idle task's stack and then six free chunks for users. */
  ghost predicate Spacious(used: set<int>, maxChunk: nat) {
    4096 in used && Range(4097, 6) !! used && maxChunk >= 4104
  }

  /** A machine with eight more chunks than the kernel's comes up with room for this run and for that of two waiters. */
  lemma PoweredOn(memoryTotal: nat, memoryKernel: nat, multicore: bool)
    requires FirstMemory(memoryTotal, memoryKernel, multicore).1 >= 4104
    ensures var (used, maxChunk) := FirstMemory(memoryTotal, memoryKernel, multicore);
            && BootFrom(memoryTotal, memoryKernel, multicore) == Boot(used + {4096}, maxChunk)
            && Roomy(used + {4096}, maxChunk) && Spacious(used + {4096}, maxChunk)
  {
    hide FirstMemory, Boot;
    FirstStack(memoryTotal, memoryKernel, multicore);
    BootFromIsBoot(memoryTotal, memoryKernel, multicore);
  }

  function Image(p: Pcb, first: nat, size: nat): Pcb {
    p.(stack := first * CHUNK_SIZE, stackSize := DEFAULT_USER_STACK_SIZE, text := (first + 2) * CHUNK_SIZE,
       textSize := size)
  }

  /** What an image of three chunks adds, its stack first. */
  function With(used: set<int>, first: nat): set<int> {
    used + Range(first, 2) + Range(first + 2, 1)
  }

  /** A has executed the empty file. */
  function Empty1(used: set<int>, maxChunk: nat): World {
    At(Proc(1, 0, 2, Ready), Image(Proc(2, 1, NIL, Ready), 4097, 0), BLANK, 1, [0, 1, 2], 3, Counted(2, true),
       With(used, 4097), maxChunk, NIL, [], Targets(NIL, NIL))
  }

  /** init has forked B. */
  function Empty2(used: set<int>, maxChunk: nat): World {
    At(Proc(1, 0, 2, Sleeping), Image(Proc(2, 1, 3, Ready), 4097, 0), Proc(3, 2, NIL, Ready), 2, [0, 1, 2, 3], 4,
       Counted(3, true), With(used, 4097), maxChunk, NIL, [], Targets(NIL, NIL))
  }

  /** A has exited. */
  function Empty3(used: set<int>, maxChunk: nat): World {
    At(Proc(1, 0, 2, Sleeping), Image(Proc(2, 1, 3, Exited), 4097, 0), Proc(3, 2, NIL, Ready), 3, [0, 1, 2, 3], 4,
       Counted(3, true), With(used, 4097), maxChunk, NIL, [], Targets(NIL, NIL))
  }

  /** B has executed a program. */
  function Empty4(used: set<int>, maxChunk: nat): World {
    At(Proc(1, 0, 2, Ready), Image(Proc(2, 1, 3, Exited), 4097, 0), Image(Proc(3, 2, NIL, Ready), 4100, 1), 1,
       [0, 1, 2, 3], 4,
       Counted(3, true), With(With(used, 4097), 4100), maxChunk, NIL, [], Targets(NIL, NIL))
  }

  lemma PlacedAt(used: set<int>, size: nat, i: int, maxChunk: nat)
    requires 4096 <= i && Range(i, BlockChunks(size)) !! used && i + BlockChunks(size) < maxChunk
    requires forall k :: 4096 <= k < i ==> k in used
    ensures Allocated(used, size, maxChunk) == (i * CHUNK_SIZE, used + Range(i, BlockChunks(size)))
  {
    assert i in Range(i, BlockChunks(size));
    assert Fits(used, BlockChunks(size), i, maxChunk);
  }

  /** Both blocks of an image, on memory that is in use up to its place. */
  lemma ImagePlaced(used: set<int>, first: nat, size: nat, maxChunk: nat)
    requires 4096 <= first && size <= 1 && first + 3 < maxChunk && Range(first, 3) !! used
    requires forall k :: 4096 <= k < first ==> k in used
    ensures Allocated(used, DEFAULT_USER_STACK_SIZE, maxChunk) == (first * CHUNK_SIZE, used + Range(first, 2))
    ensures Allocated(used + Range(first, 2), size, maxChunk) == ((first + 2) * CHUNK_SIZE, With(used, first))
  {
    hide Allocated;
    assert Range(first, 2) <= Range(first, 3) && Range(first + 2, 1) <= Range(first, 3);
    PlacedAt(used, DEFAULT_USER_STACK_SIZE, first, maxChunk);
    assert forall k :: 4096 <= k < first + 2 ==> k in used + Range(first, 2);
    PlacedAt(used + Range(first, 2), size, first + 2, maxChunk);
  }

  lemma EmptyExecuted(used: set<int>, maxChunk: nat)
    requires Spacious(used, maxChunk) && Good(World1(used, maxChunk))
    ensures var a := Exec(PROGRAM, DEFAULT_USER_STACK_SIZE, 0);
            Enabled(World1(used, maxChunk), a) && Step(World1(used, maxChunk), a) == Empty1(used, maxChunk)
  {
    hide ListWf, TablesWf, RunWf, Queued, SleepInv, CurReady, Counted, Picked, Position, Scan, FileOpened, FileFreed,
         Allocated;
    var w, w1 := World1(used, maxChunk), Empty1(used, maxChunk);
    ProgramOpened(2, false);
    ImagePlaced(used, 4097, 0, maxChunk);
    assert Loaded(w, PROGRAM, DEFAULT_USER_STACK_SIZE, 0).ps
        == Blocks(Proc(1, 0, 2, Sleeping), Image(Proc(2, 1, NIL, Ready), 4097, 0), BLANK);
    assert ParentWoken(Loaded(w, PROGRAM, DEFAULT_USER_STACK_SIZE, 0)).ps == w1.ps;
    PicksAt(w1.ps, [0, 1, 2], 2, 1);
  }

  lemma SecondForked(used: set<int>, maxChunk: nat)
    requires Good(Empty1(used, maxChunk))
    ensures Enabled(Empty1(used, maxChunk), Vfork) && Step(Empty1(used, maxChunk), Vfork) == Empty2(used, maxChunk)
  {
    hide ListWf, TablesWf, RunWf, Queued, SleepInv, CurReady, Counted, Picked, Position, Scan, IncrementedAll;
    var w, w1 := Empty1(used, maxChunk), Empty2(used, maxChunk);
    CountUp(2, true);
    assert FreeBlock(w.ps) == Some(3);
    assert ForkedInto(w, 3).ps == w1.ps;
    PicksAt(w1.ps, [0, 1, 2, 3], 1, 2);
    assert [0, 1, 2] + [3] == [0, 1, 2, 3];
  }

  lemma FirstExited(used: set<int>, maxChunk: nat)
    requires Good(Empty2(used, maxChunk))
    ensures Enabled(Empty2(used, maxChunk), Exit(0)) && Step(Empty2(used, maxChunk), Exit(0)) == Empty3(used, maxChunk)
  {
    hide ListWf, TablesWf, RunWf, Queued, SleepInv, CurReady, Counted, Picked, Position, Scan, Woken;
    var w, w1 := Empty2(used, maxChunk), Empty3(used, maxChunk);
    assert Ended(w, 0).ps == w1.ps;
    PicksAt(w1.ps, [0, 1, 2, 3], 2, 3);
  }

  lemma SecondPlaced(used: set<int>, maxChunk: nat)
    requires Spacious(used, maxChunk)
    ensures Allocated(With(used, 4097), DEFAULT_USER_STACK_SIZE, maxChunk)
            == (4100 * CHUNK_SIZE, With(used, 4097) + Range(4100, 2))
    ensures Allocated(With(used, 4097) + Range(4100, 2), 1, maxChunk)
            == (4102 * CHUNK_SIZE, With(With(used, 4097), 4100))
  {
    assert Range(4100, 3) <= Range(4097, 6);
    ImagePlaced(With(used, 4097), 4100, 1, maxChunk);
  }

  lemma SecondExecuted(used: set<int>, maxChunk: nat)
    requires Spacious(used, maxChunk) && Good(Empty3(used, maxChunk))
    ensures var a := Exec(PROGRAM, DEFAULT_USER_STACK_SIZE, 1);
            Enabled(Empty3(used, maxChunk), a) && Step(Empty3(used, maxChunk), a) == Empty4(used, maxChunk)
  {
    hide ListWf, TablesWf, RunWf, Queued, SleepInv, CurReady, Counted, Picked, Position, Scan, FileOpened, FileFreed,
         Allocated;
    var w, w1 := Empty3(used, maxChunk), Empty4(used, maxChunk);
    ProgramOpened(3, true);
    SecondPlaced(used, maxChunk);
    assert Loaded(w, PROGRAM, DEFAULT_USER_STACK_SIZE, 1).ps
        == Blocks(Proc(1, 0, 2, Sleeping), Image(Proc(2, 1, 3, Exited), 4097, 0),
                  Image(Proc(3, 2, NIL, Ready), 4100, 1));
    assert ParentWoken(Loaded(w, PROGRAM, DEFAULT_USER_STACK_SIZE, 1)).ps == w1.ps;
    PicksAt(w1.ps, [0, 1, 2, 3], 3, 1);
  }

  lemma EmptyRuns(used: set<int>, maxChunk: nat)
    requires Spacious(used, maxChunk)
    ensures Good(Boot(used, maxChunk)) && Runs(Boot(used, maxChunk), EMPTY_RUN, Empty4(used, maxChunk))
    ensures Good(Empty4(used, maxChunk))
  {
    hide Good, Enabled, Step, Counted, Boot, Runs, Spacious;
    var w := Boot(used, maxChunk);
    BootIsGood(used, maxChunk);
    NoSteps(w);
    assert [] + [Vfork] == [Vfork];
    Fork1(used, maxChunk);
    RunsOn(w, [], w, Vfork);
    EmptyExecuted(used, maxChunk);
    RunsOn(w, [Vfork], World1(used, maxChunk), EMPTY_RUN[1]);
    SecondForked(used, maxChunk);
    RunsOn(w, [Vfork] + [EMPTY_RUN[1]], Empty1(used, maxChunk), Vfork);
    FirstExited(used, maxChunk);
    RunsOn(w, [Vfork] + [EMPTY_RUN[1]] + [Vfork], Empty2(used, maxChunk), Exit(0));
    SecondExecuted(used, maxChunk);
    RunsOn(w, [Vfork] + [EMPTY_RUN[1]] + [Vfork] + [Exit(0)], Empty3(used, maxChunk), EMPTY_RUN[4]);
    assert [Vfork] + [EMPTY_RUN[1]] + [Vfork] + [Exit(0)] + [EMPTY_RUN[4]] == EMPTY_RUN;
  }

  lemma WaitsForEmpty(used: set<int>, maxChunk: nat)
    requires Good(Empty4(used, maxChunk))
    ensures var w := Empty4(used, maxChunk);
            Enabled(w, Wait(2, false)) && Step(w, Wait(2, false)).used == Destroyed(w, 2).used
              && DestroyTarget(w, Wait(2, false)) == 2
  {
    hide ListWf, TablesWf, RunWf, Queued, SleepInv, CurReady, Counted, FreedAll, FreedAt, FindFrom;
    NamesTwo(Empty4(used, maxChunk).ps);
  }

  lemma EmptyMemory(used: set<int>, maxChunk: nat)
    ensures MemOk(Empty4(used, maxChunk))
    ensures Holder(Empty4(used, maxChunk), 3) && 4100 in Owned(Empty4(used, maxChunk).ps[3])
  {
    hide Counted;
  }

  /** Up to the last step memory is owned exclusively; then init waits for the child that executed an empty file, and
      that takes away the memory of the other child. */
  lemma EmptyFile(used: set<int>, maxChunk: nat)
    requires Spacious(used, maxChunk)
    ensures var w, w1 := Boot(used, maxChunk), Empty4(used, maxChunk);
            && Good(w) && Runs(w, EMPTY_RUN, w1) && Good(w1) && Enabled(w1, Wait(2, false))
            && w1.ps[2].valid && MemOk(w1) && !MemOk(Step(w1, Wait(2, false)))
  {
    hide Good, Enabled, Step, Counted, Boot, Runs, MemOk, Owned, DestroyTarget, Spacious;
    var w1 := Empty4(used, maxChunk);
    EmptyRuns(used, maxChunk);
    EmptyMemory(used, maxChunk);
    WaitsForEmpty(used, maxChunk);
    assert !NothingAbove(w1, w1.ps[2].text, 2);
    StepKeepsMemoryIff(w1, Wait(2, false));
  }
}
