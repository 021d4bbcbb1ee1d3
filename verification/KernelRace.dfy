/** A run from the boot world in which two processes wait for the same child: the second destruction of the child
    takes away references and memory that belong to others by then. */
module KernelRace {
  import opened Common
  import opened Processes
  import opened Descriptors
  import opened Chunks
  import opened Kernels
  import opened KernelStructure
  import opened KernelReferences
  import opened KernelMemory
  import opened KernelBoot

  // ---------------------------------------------------------------- the worlds of the run

  const FDS: seq<int> := [0, 1, 2, NIL, NIL, NIL, NIL, NIL]
  const STACK := 4097 * CHUNK_SIZE
  const TEXT := 4098 * CHUNK_SIZE
  const PROGRAM := Found(9, 9)

  /** A process with the three standard descriptors. */
  function Proc(pid: nat, prev: int, next: int, status: Status): Pcb {
    Pcb(next, prev, NIL, true, status, pid, 0, 1, 0, 0, 0, 0, FDS)
  }

  function WithProgram(p: Pcb): Pcb {
    p.(stack := STACK, stackSize := 1, text := TEXT, textSize := 1)
  }

  function Blocks(init: Pcb, a: Pcb, b: Pcb): (r: seq<Pcb>)
    ensures |r| == MAX_PROCS && r[0] == IDLE && r[1] == init && r[2] == a && r[3] == b
    ensures forall i :: 4 <= i < MAX_PROCS ==> r[i] == BLANK
  {
    seq(MAX_PROCS, i => if i == 0 then IDLE else if i == 1 then init else if i == 2 then a else if i == 3 then b
      else BLANK)
  }

  /** Standard descriptors counted n times; once a program was opened, the fourth entry of both tables has been in
      use. */
  function Counted(n: nat, used3: bool): (r: Tables)
    ensures |r.files| == MAX_OPEN_FILES && |r.inodes| == NUM_INODES
    ensures forall f :: 0 <= f < MAX_OPEN_FILES ==>
              r.files[f] == if f < 3 then FileObject(n, f) else FileObject(0, if f == 3 && used3 then 3 else NIL)
    ensures forall k :: 0 <= k < NUM_INODES ==>
              r.inodes[k] == if k < 3 then Inode(n, k, 0) else if k == 3 && used3 then Inode(0, POISON, POISON)
                else Inode(0, 0, 0)
  {
    Tables(seq(MAX_OPEN_FILES, f => if f < 3 then FileObject(n, f)
      else FileObject(0, if f == 3 && used3 then 3 else NIL)),
           seq(NUM_INODES, k => if k < 3 then Inode(n, k, 0)
                                else if k == 3 && used3 then Inode(0, POISON, POISON) else Inode(0, 0, 0)))
  }

  function Targets(init: int, b: int): (r: seq<int>)
    ensures |r| == MAX_PROCS && r[1] == init && r[3] == b
    ensures forall i :: 0 <= i < MAX_PROCS && i != 1 && i != 3 ==> r[i] == NIL
  {
    seq(MAX_PROCS, i => if i == 1 then init else if i == 3 then b else NIL)
  }

  /** Memory with the idle task's stack and nothing else in the first chunks for users. */
  ghost predicate Roomy(used: set<int>, maxChunk: nat) {
    4096 in used && 4097 !in used && 4098 !in used && maxChunk >= 4100
  }

  // ---------------------------------------------------------------- tables

  lemma UpOne(t: Tables, fds: seq<int>, f: int)
    requires Shape(t) && SlotValues(fds) && (f == NIL || 0 <= f < MAX_OPEN_FILES)
    ensures SlotValues(fds + [f])
    ensures IncrementedAll(t, fds + [f]) == if f == NIL then IncrementedAll(t, fds)
            else FileIncremented(IncrementedAll(t, fds), f)
    ensures FreedAll(t, fds + [f]) == if f == NIL then FreedAll(t, fds) else FileFreed(FreedAll(t, fds), f)
  {
    assert (fds + [f])[..|fds|] == fds;
  }

  /** The standard descriptors, the first k of them at one count and the others at another. */
  ghost predicate Partly(t: Tables, k: nat, lower: nat, upper: nat, used3: bool) {
    && |t.files| == MAX_OPEN_FILES && |t.inodes| == NUM_INODES
    && (forall f :: 0 <= f < MAX_OPEN_FILES ==>
          t.files[f] == if f < 3 then Counted(if f < k then upper else lower, used3).files[f]
            else Counted(lower, used3).files[f])
    && (forall n :: 0 <= n < NUM_INODES ==>
          t.inodes[n] == if n < 3 then Counted(if n < k then upper else lower, used3).inodes[n]
            else Counted(lower, used3).inodes[n])
  }

  lemma WhollyCounted(t: Tables, lower: nat, upper: nat, used3: bool)
    requires Partly(t, 3, lower, upper, used3)
    ensures t == Counted(upper, used3)
  {
    assert t.files == Counted(upper, used3).files && t.inodes == Counted(upper, used3).inodes;
  }

  lemma OneUp(t: Tables, k: nat, n: nat, used3: bool)
    requires k < 3 && Partly(t, k, n, n + 1, used3)
    ensures Shape(t) && Partly(FileIncremented(t, k), k + 1, n, n + 1, used3)
  {}

  lemma OneDown(t: Tables, k: nat, n: nat, used3: bool)
    requires k < 3 && n >= 2 && Partly(t, k, n, n - 1, used3)
    ensures Shape(t) && Partly(FileFreed(t, k), k + 1, n, n - 1, used3)
  {}

  lemma {:induction false} NilsSkip(t: Tables, fds: seq<int>, k: nat)
    requires Shape(t) && SlotValues(fds) && k <= |fds| && forall d :: k <= d < |fds| ==> fds[d] == NIL
    ensures SlotValues(fds[..k]) && IncrementedAll(t, fds) == IncrementedAll(t, fds[..k])
            && FreedAll(t, fds) == FreedAll(t, fds[..k])
    decreases |fds|
  {
    if k == |fds| {
      assert fds[..k] == fds;
    } else {
      NilsSkip(t, fds[..|fds| - 1], k);
      assert fds[..|fds| - 1][..k] == fds[..k];
    }
  }

  lemma FirstThree()
    ensures SlotValues(FDS) && SlotValues(FDS[..3]) && FDS[..3] == [0, 1] + [2] && SlotValues([0, 1])
    ensures [0, 1] == [0] + [1] && SlotValues([0]) && [0] == [] + [0]
    ensures forall d :: 3 <= d < |FDS| ==> FDS[d] == NIL
  {}

  lemma NoSlots()
    ensures SlotValues([])
  {}

  lemma NoneUp(t: Tables)
    requires Shape(t)
    ensures IncrementedAll(t, []) == t && FreedAll(t, []) == t
  {}

  /** Both loops over the standard descriptors, unrolled. */
  lemma Unrolled(t: Tables)
    requires Shape(t)
    ensures SlotValues(FDS)
    ensures IncrementedAll(t, FDS) == FileIncremented(FileIncremented(FileIncremented(t, 0), 1), 2)
    ensures FreedAll(t, FDS) == FileFreed(FileFreed(FileFreed(t, 0), 1), 2)
  {
    hide FileIncremented, FileFreed, IncrementedAll, FreedAll, SlotValues, Shape;
    FirstThree();
    NilsSkip(t, FDS, 3);
    NoneUp(t);
    NoSlots();
    UpOne(t, [], 0);
    UpOne(t, [0], 1);
    UpOne(t, [0, 1], 2);
  }

  lemma Start(t: Tables, lower: nat, upper: nat, used3: bool)
    requires t == Counted(lower, used3)
    ensures Partly(t, 0, lower, upper, used3)
  {}

  lemma ShapeCounted(n: nat, used3: bool)
    ensures Shape(Counted(n, used3))
  {}

  /** vfork() counts each standard descriptor once more. */
  lemma CountUp(n: nat, used3: bool)
    requires n >= 1
    ensures Shape(Counted(n, used3)) && SlotValues(FDS)
            && IncrementedAll(Counted(n, used3), FDS) == Counted(n + 1, used3)
  {
    hide FileIncremented, Partly, IncrementedAll, FileFreed, FreedAll, Counted;
    var t := Counted(n, used3);
    ShapeCounted(n, used3);
    Unrolled(t);
    Start(t, n, n + 1, used3);
    OneUp(t, 0, n, used3);
    OneUp(FileIncremented(t, 0), 1, n, used3);
    OneUp(FileIncremented(FileIncremented(t, 0), 1), 2, n, used3);
    WhollyCounted(IncrementedAll(t, FDS), n, n + 1, used3);
  }

  /** process_destroy() counts each standard descriptor once less. */
  lemma CountDown(n: nat, used3: bool)
    requires n >= 2
    ensures Shape(Counted(n, used3)) && SlotValues(FDS) && FreedAll(Counted(n, used3), FDS) == Counted(n - 1, used3)
  {
    hide FileIncremented, Partly, IncrementedAll, FileFreed, FreedAll, Counted;
    var t := Counted(n, used3);
    ShapeCounted(n, used3);
    Unrolled(t);
    Start(t, n, n - 1, used3);
    OneDown(t, 0, n, used3);
    OneDown(FileFreed(t, 0), 1, n, used3);
    OneDown(FileFreed(FileFreed(t, 0), 1), 2, n, used3);
    WhollyCounted(FreedAll(t, FDS), n, n - 1, used3);
  }

  lemma FreeOnes(n: nat, used3: bool)
    requires n >= 1
    ensures FindFrom(Counted(n, used3).inodes, FreeEntry, 0) == Some(3)
            && FindFrom(Counted(n, used3).files, FreeObject, 0) == Some(3)
  {
    var t := Counted(n, used3);
    assert FreeEntry(t.inodes[3]) && FreeObject(t.files[3]);
    assert forall k :: 0 <= k < 3 ==> !FreeEntry(t.inodes[k]) && !FreeObject(t.files[k]);
  }

  /** Opening the program takes the fourth entries of both tables, and closing it leaves them used up. */
  lemma ProgramOpened(n: nat, used3: bool)
    requires n >= 1
    ensures Shape(Counted(n, used3))
    ensures var (t, f) := FileOpened(Counted(n, used3), PROGRAM, None);
            f == Some(3) && FileFreed(t, 3) == Counted(n, true)
  {
    var t := Counted(n, used3);
    FreeOnes(n, used3);
    var t2 := t.(inodes := t.inodes[3 := Inode(1, 9, 9)]);
    assert Identity(9, 9)(t2.inodes[3]);
    assert forall k :: 0 <= k < 3 ==> !Identity(9, 9)(t2.inodes[k]);
    assert FindFrom(t2.inodes, Identity(9, 9), 0) == Some(3);
    assert t.inodes[3 := t.inodes[3].(count := 1)][3 := Inode(1, 9, 9)] == t2.inodes;
    var (t3, f) := LookedUp(t, PROGRAM);
    assert f == Some(3) && t3.inodes == t.inodes[3 := Inode(1, 9, 9)];
    var t4 := FileAllocated(t3, 3).0;
    assert FileFreed(t4, 3).files == Counted(n, true).files;
    assert FileFreed(t4, 3).inodes == Counted(n, true).inodes;
  }

  lemma NothingOpened(n: nat)
    requires n >= 1
    ensures Shape(Counted(n, true)) && FileOpened(Counted(n, true), NotFound, None) == (Counted(n, true), None)
  {
    var t := Counted(n, true);
    FreeOnes(n, true);
    assert LookedUp(t, NotFound).0.inodes == t.inodes;
  }

  // ---------------------------------------------------------------- scheduling

  /** Of the ready processes on the list, schedule() takes the one cyclically next to the running one. */
  lemma PicksAt(ps: seq<Pcb>, order: seq<int>, k: nat, j: nat)
    requires Indices(order, |ps|) && Distinct(order) && 1 <= k < |order| && 1 <= j < |order|
    requires ps[order[j]].status == Ready
    requires forall i :: 1 <= i < |order| && i != j && ps[order[i]].status == Ready ==>
               Steps(|order| - 1, k, j) < Steps(|order| - 1, k, i)
    ensures Picked(ps, order, order[k]) == order[j]
  {
    var ready := ReadyFlags(ps, order);
    assert Position(order, order[k]) == k;
    ChooseIsNext(ready, k);
    var r := Choose(ready, k);
    assert ready[j];
    assert r != j ==> Steps(|order| - 1, k, j) < Steps(|order| - 1, k, r);
  }

  // ---------------------------------------------------------------- the run

  function At(init: Pcb, a: Pcb, b: Pcb, cur: int, order: seq<int>, availPid: nat, t: Tables,
              used: set<int>, maxChunk: nat, waitFirst: int, queue: seq<int>, target: seq<int>): World
  {
    World(Blocks(init, a, b), 0, availPid, cur, order, t, used, maxChunk, waitFirst, queue, target)
  }

  /** init forks A; A executes a program; init forks B. */
  function World1(used: set<int>, maxChunk: nat): World {
    At(Proc(1, 0, 2, Sleeping), Proc(2, 1, NIL, Ready), BLANK, 2, [0, 1, 2], 3, Counted(2, false),
       used, maxChunk, NIL, [], Targets(NIL, NIL))
  }

  function World2(used: set<int>, maxChunk: nat): World {
    At(Proc(1, 0, 2, Ready), WithProgram(Proc(2, 1, NIL, Ready)), BLANK, 1, [0, 1, 2], 3, Counted(2, true),
       used + {4097} + {4098}, maxChunk, NIL, [], Targets(NIL, NIL))
  }

  function World3(used: set<int>, maxChunk: nat): World {
    At(Proc(1, 0, 2, Sleeping), WithProgram(Proc(2, 1, 3, Ready)), Proc(3, 2, NIL, Ready), 2, [0, 1, 2, 3], 4,
       Counted(3, true),
       used + {4097} + {4098}, maxChunk, NIL, [], Targets(NIL, NIL))
  }

  /** B runs, fails to execute a missing program, and so wakes init; init waits for A, then B does. */
  function World4(used: set<int>, maxChunk: nat): World {
    World3(used, maxChunk).(cur := 3)
  }

  function World5(used: set<int>, maxChunk: nat): World {
    At(Proc(1, 0, 2, Ready), WithProgram(Proc(2, 1, 3, Ready)), Proc(3, 2, NIL, Ready), 1, [0, 1, 2, 3], 4,
       Counted(3, true),
       used + {4097} + {4098}, maxChunk, NIL, [], Targets(NIL, NIL))
  }

  function World6(used: set<int>, maxChunk: nat): World {
    At(Proc(1, 0, 2, Sleeping), WithProgram(Proc(2, 1, 3, Ready)), Proc(3, 2, NIL, Ready), 2, [0, 1, 2, 3], 4,
       Counted(3, true),
       used + {4097} + {4098}, maxChunk, 1, [1], Targets(2, NIL))
  }

  function World7(used: set<int>, maxChunk: nat): World {
    World6(used, maxChunk).(cur := 3)
  }

  function World8(used: set<int>, maxChunk: nat): World {
    At(Proc(1, 0, 2, Sleeping).(waitNext := 3), WithProgram(Proc(2, 1, 3, Ready)), Proc(3, 2, NIL, Sleeping),
       2, [0, 1, 2, 3], 4, Counted(3, true), used + {4097} + {4098}, maxChunk, 1, [1, 3], Targets(2, 2))
  }

  /** A exits; B destroys it, and executes a program in the memory it had. */
  function World9(used: set<int>, maxChunk: nat): World {
    At(Proc(1, 0, 2, Ready), WithProgram(Proc(2, 1, 3, Exited)), Proc(3, 2, NIL, Ready), 3, [0, 1, 2, 3], 4,
       Counted(3, true),
       used + {4097} + {4098}, maxChunk, NIL, [], Targets(2, 2))
  }

  function World10(used: set<int>, maxChunk: nat): World {
    At(Proc(1, 0, 3, Ready), WithProgram(Proc(2, 1, 3, Exited)).(valid := false), Proc(3, 1, NIL, Ready), 3, [0, 1, 3],
       4,
       Counted(2, true), used + {4097} + {4098} - {4097} - {4098}, maxChunk, NIL, [], Targets(2, NIL))
  }

  function World11(used: set<int>, maxChunk: nat): World {
    At(Proc(1, 0, 3, Ready), WithProgram(Proc(2, 1, 3, Exited)).(valid := false), WithProgram(Proc(3, 1, NIL, Ready)),
       1, [0, 1, 3], 4,
       Counted(2, true), used + {4097} + {4098} - {4097} - {4098} + {4097} + {4098}, maxChunk, NIL, [], Targets(2, NIL))
  }

  lemma BootWorld(used: set<int>, maxChunk: nat)
    ensures Boot(used, maxChunk)
         == At(INIT, BLANK, BLANK, 1, [0, 1], 2, Counted(1, false), used, maxChunk, NIL, [], Targets(NIL, NIL))
    ensures INIT == Proc(1, 0, NIL, Ready)
  {
    assert BootBlocks() == Blocks(INIT, BLANK, BLANK);
    assert BootTables().files == Counted(1, false).files && BootTables().inodes == Counted(1, false).inodes;
    assert seq(MAX_PROCS, _ => NIL) == Targets(NIL, NIL);
  }

  lemma Fork1(used: set<int>, maxChunk: nat)
    requires Good(Boot(used, maxChunk))
    ensures Enabled(Boot(used, maxChunk), Vfork) && Step(Boot(used, maxChunk), Vfork) == World1(used, maxChunk)
  {
    hide ListWf, TablesWf, RunWf, Queued, SleepInv, CurReady, IncrementedAll, Counted, Picked, Position, Scan;
    var w, w1 := Boot(used, maxChunk), World1(used, maxChunk);
    BootWorld(used, maxChunk);
    CountUp(1, false);
    assert FreeBlock(w.ps) == Some(2);
    assert ForkedInto(w, 2).ps == w1.ps;
    PicksAt(w1.ps, [0, 1, 2], 1, 2);
    assert [0, 1] + [2] == [0, 1, 2];
  }

  lemma Placed1(used: set<int>, i: int, maxChunk: nat)
    requires 4097 <= i <= 4098 && i !in used && i + 1 < maxChunk
    requires forall k :: 4096 <= k < i ==> k in used
    ensures Placed(used, 1, UserRegion, maxChunk) == Some(i) && Range(i, 1) == {i}
  {
    assert Range(i, 1) == {i};
    assert Fits(used, 1, i, maxChunk);
  }

  /** Both blocks of the program, on memory where the first two chunks for users after the idle task's stack are
      free. */
  lemma ProgramPlaced(used: set<int>, maxChunk: nat)
    requires Roomy(used, maxChunk)
    ensures Allocated(used, 1, maxChunk) == (STACK, used + {4097})
    ensures Allocated(used + {4097}, 1, maxChunk) == (TEXT, used + {4097} + {4098})
  {
    Placed1(used, 4097, maxChunk);
    Placed1(used + {4097}, 4098, maxChunk);
  }

  lemma FreedProgram(p: Pcb)
    ensures FreedAt(WithProgram(p).stack, WithProgram(p).stackSize) == {4097}
    ensures FreedAt(WithProgram(p).text, WithProgram(p).textSize) == {4098}
  {
    assert Range(4097, 1) == {4097} && Range(4098, 1) == {4098};
  }

  /** Pid 2 is that of A. */
  lemma NamesTwo(ps: seq<Pcb>)
    requires |ps| == MAX_PROCS && ps[0].pid == 0 && ps[1].pid == 1 && ps[2].pid == 2
    ensures FindFrom([0, 1, 2, 3], HasPid(ps, 2), 0) == Some(2)
  {
    var order := [0, 1, 2, 3];
    assert HasPid(ps, 2)(order[2]) && !HasPid(ps, 2)(order[0]) && !HasPid(ps, 2)(order[1]);
  }

  lemma FindsTwo()
    ensures Position([0, 1, 2, 3], 2) == 2 && Without([0, 1, 2, 3], 2) == [0, 1, 3]
  {}

  lemma Exec2(used: set<int>, maxChunk: nat)
    requires Roomy(used, maxChunk) && Good(World1(used, maxChunk))
    ensures Enabled(World1(used, maxChunk), Exec(PROGRAM, 1, 1))
            && Step(World1(used, maxChunk), Exec(PROGRAM, 1, 1)) == World2(used, maxChunk)
  {
    hide ListWf, TablesWf, RunWf, Queued, SleepInv, CurReady, Counted, Picked, Position, Scan, FileOpened, FileFreed,
         Allocated;
    var w, w1 := World1(used, maxChunk), World2(used, maxChunk);
    ProgramOpened(2, false);
    ProgramPlaced(used, maxChunk);
    assert Loaded(w, PROGRAM, 1, 1).ps == Blocks(Proc(1, 0, 2, Sleeping), WithProgram(Proc(2, 1, NIL, Ready)), BLANK);
    assert ParentWoken(Loaded(w, PROGRAM, 1, 1)).ps == w1.ps;
    PicksAt(w1.ps, [0, 1, 2], 2, 1);
  }

  lemma Fork3(used: set<int>, maxChunk: nat)
    requires Roomy(used, maxChunk) && Good(World2(used, maxChunk))
    ensures Enabled(World2(used, maxChunk), Vfork) && Step(World2(used, maxChunk), Vfork) == World3(used, maxChunk)
  {
    hide ListWf, TablesWf, RunWf, Queued, SleepInv, CurReady, Counted, Picked, Position, Scan, IncrementedAll;
    var w, w1 := World2(used, maxChunk), World3(used, maxChunk);
    CountUp(2, true);
    assert FreeBlock(w.ps) == Some(3);
    assert ForkedInto(w, 3).ps == w1.ps;
    PicksAt(w1.ps, [0, 1, 2, 3], 1, 2);
    assert [0, 1, 2] + [3] == [0, 1, 2, 3];
  }

  lemma Yield4(used: set<int>, maxChunk: nat)
    requires Roomy(used, maxChunk) && Good(World3(used, maxChunk))
    ensures Enabled(World3(used, maxChunk), Yield) && Step(World3(used, maxChunk), Yield) == World4(used, maxChunk)
  {
    hide ListWf, TablesWf, RunWf, Queued, SleepInv, CurReady, Counted, Picked, Position, Scan;
    var w, w1 := World3(used, maxChunk), World4(used, maxChunk);
    PicksAt(w1.ps, [0, 1, 2, 3], 2, 3);
  }

  lemma Exec5(used: set<int>, maxChunk: nat)
    requires Roomy(used, maxChunk) && Good(World4(used, maxChunk))
    ensures Enabled(World4(used, maxChunk), Exec(NotFound, 1, 1))
            && Step(World4(used, maxChunk), Exec(NotFound, 1, 1)) == World5(used, maxChunk)
  {
    hide ListWf, TablesWf, RunWf, Queued, SleepInv, CurReady, Counted, Picked, Position, Scan, FileOpened, FileFreed,
         Allocated;
    var w, w1 := World4(used, maxChunk), World5(used, maxChunk);
    NothingOpened(3);
    assert ParentWoken(Loaded(w, NotFound, 1, 1)).ps == w1.ps;
    PicksAt(w1.ps, [0, 1, 2, 3], 3, 1);
  }

  lemma Wait6(used: set<int>, maxChunk: nat)
    requires Roomy(used, maxChunk) && Good(World5(used, maxChunk))
    ensures Enabled(World5(used, maxChunk), Wait(2, false))
            && Step(World5(used, maxChunk), Wait(2, false)) == World6(used, maxChunk)
  {
    hide ListWf, TablesWf, RunWf, Queued, SleepInv, CurReady, Counted, Picked, Position, Scan, FindFrom;
    var w, w1 := World5(used, maxChunk), World6(used, maxChunk);
    NamesTwo(w.ps);
    assert SleptOn(w, 2).ps == w1.ps;
    assert w.target[1 := 2] == w1.target;
    PicksAt(w1.ps, [0, 1, 2, 3], 1, 2);
  }

  lemma Yield7(used: set<int>, maxChunk: nat)
    requires Roomy(used, maxChunk) && Good(World6(used, maxChunk))
    ensures Enabled(World6(used, maxChunk), Yield) && Step(World6(used, maxChunk), Yield) == World7(used, maxChunk)
  {
    hide ListWf, TablesWf, RunWf, Queued, SleepInv, CurReady, Counted, Picked, Position, Scan;
    var w, w1 := World6(used, maxChunk), World7(used, maxChunk);
    PicksAt(w1.ps, [0, 1, 2, 3], 2, 3);
  }

  lemma Wait8(used: set<int>, maxChunk: nat)
    requires Roomy(used, maxChunk) && Good(World7(used, maxChunk))
    ensures Enabled(World7(used, maxChunk), Wait(2, false))
            && Step(World7(used, maxChunk), Wait(2, false)) == World8(used, maxChunk)
  {
    hide ListWf, TablesWf, RunWf, Queued, SleepInv, CurReady, Counted, Picked, Position, Scan, FindFrom;
    var w, w1 := World7(used, maxChunk), World8(used, maxChunk);
    NamesTwo(w.ps);
    assert SleptOn(w, 2).ps == w1.ps;
    assert w.target[3 := 2] == w1.target;
    PicksAt(w1.ps, [0, 1, 2, 3], 3, 2);
  }

  lemma Exit9(used: set<int>, maxChunk: nat)
    requires Roomy(used, maxChunk) && Good(World8(used, maxChunk))
    ensures Enabled(World8(used, maxChunk), Exit(0)) && Step(World8(used, maxChunk), Exit(0)) == World9(used, maxChunk)
  {
    hide ListWf, TablesWf, RunWf, Queued, SleepInv, CurReady, Counted, Picked, Position, Scan, Woken;
    var w, w1 := World8(used, maxChunk), World9(used, maxChunk);
    assert Ended(w, 0).ps == w1.ps;
    PicksAt(w1.ps, [0, 1, 2, 3], 2, 3);
  }

  lemma Resume10(used: set<int>, maxChunk: nat)
    requires Roomy(used, maxChunk) && Good(World9(used, maxChunk))
    ensures Enabled(World9(used, maxChunk), Resume) && Step(World9(used, maxChunk), Resume) == World10(used, maxChunk)
  {
    hide ListWf, TablesWf, RunWf, Queued, SleepInv, CurReady, Counted, Picked, Position, Scan, FreedAll, FreedAt,
         FindFrom;
    var w, w1 := World9(used, maxChunk), World10(used, maxChunk);
    CountDown(3, true);
    FreedProgram(Proc(2, 1, 3, Exited));
    FindsTwo();
    assert Destroyed(w, 2).ps == w1.ps;
    assert w.target[3 := NIL] == w1.target;
  }

  lemma Exec11(used: set<int>, maxChunk: nat)
    requires Roomy(used, maxChunk) && Good(World10(used, maxChunk))
    ensures Enabled(World10(used, maxChunk), Exec(PROGRAM, 1, 1))
            && Step(World10(used, maxChunk), Exec(PROGRAM, 1, 1)) == World11(used, maxChunk)
  {
    hide ListWf, TablesWf, RunWf, Queued, SleepInv, CurReady, Counted, Picked, Position, Scan, FileOpened, FileFreed,
         Allocated;
    var w, w1 := World10(used, maxChunk), World11(used, maxChunk);
    ProgramOpened(2, true);
    ProgramPlaced(w.used, maxChunk);
    assert Loaded(w, PROGRAM, 1, 1).ps == w1.ps;
    assert ParentWoken(Loaded(w, PROGRAM, 1, 1)).ps == w1.ps;
    PicksAt(w1.ps, [0, 1, 3], 2, 1);
  }

  // ---------------------------------------------------------------- before the last step, and after it

  const RACE: seq<Action> := [Vfork, Exec(PROGRAM, 1, 1), Vfork, Yield, Exec(NotFound, 1, 1), Wait(2, false), Yield,
                              Wait(2, false),
                              Exit(0), Resume, Exec(PROGRAM, 1, 1)]

  /** A step of the run in which nothing is lost. */
  ghost predicate Goes(w: World, a: Action, w1: World) {
    Good(w) && Conserved(w.ps, w.tables) && Enabled(w, a) && Step(w, a) == w1 && Good(w1) && Conserved(w1.ps, w1.tables)
  }

  lemma GoesOn(w: World, a: Action, w1: World)
    requires Good(w) && Conserved(w.ps, w.tables) && Enabled(w, a) && Step(w, a) == w1 && Keeps(w, a)
    ensures Goes(w, a, w1)
  {
    hide ListWf, TablesWf, RunWf, Queued, SleepInv, CurReady, Enabled, Step, Conserved, Keeps;
    StepKeepsGood(w, a);
    StepConservesIff(w, a);
  }

  lemma KeepsAlways(w: World, a: Action)
    requires Good(w) && Enabled(w, a) && (a.Vfork? || a.Yield? || a.Wait? || a.Exit? || (a.Exec? && a.lookup.NotFound?))
    ensures Keeps(w, a)
  {
    hide ListWf, TablesWf, RunWf, Queued, SleepInv, CurReady, LoadSucceeds, InodeAllocated, Named;
  }

  lemma ExecKeeps(w: World, n: nat, used3: bool)
    requires Good(w) && Enabled(w, Exec(PROGRAM, 1, 1)) && n >= 1 && w.tables == Counted(n, used3)
             && Roomy(w.used, w.maxChunk)
    ensures Keeps(w, Exec(PROGRAM, 1, 1))
  {
    hide ListWf, TablesWf, RunWf, Queued, SleepInv, CurReady, Counted, FileOpened, Allocated, FindFrom;
    ProgramOpened(n, used3);
    ProgramPlaced(w.used, w.maxChunk);
    FreeOnes(n, used3);
  }

  lemma FirstHalf(used: set<int>, maxChunk: nat)
    requires Roomy(used, maxChunk)
    ensures Goes(Boot(used, maxChunk), Vfork, World1(used, maxChunk))
    ensures Goes(World1(used, maxChunk), Exec(PROGRAM, 1, 1), World2(used, maxChunk))
    ensures Goes(World2(used, maxChunk), Vfork, World3(used, maxChunk))
    ensures Goes(World3(used, maxChunk), Yield, World4(used, maxChunk))
    ensures Goes(World4(used, maxChunk), Exec(NotFound, 1, 1), World5(used, maxChunk))
    ensures Goes(World5(used, maxChunk), Wait(2, false), World6(used, maxChunk))
  {
    hide Good, Conserved, Enabled, Step, Keeps, Counted, Boot;
    BootIsGood(used, maxChunk);
    BootConserves(used, maxChunk);
    Fork1(used, maxChunk);
    KeepsAlways(Boot(used, maxChunk), Vfork);
    GoesOn(Boot(used, maxChunk), Vfork, World1(used, maxChunk));
    Exec2(used, maxChunk);
    ExecKeeps(World1(used, maxChunk), 2, false);
    GoesOn(World1(used, maxChunk), Exec(PROGRAM, 1, 1), World2(used, maxChunk));
    Fork3(used, maxChunk);
    KeepsAlways(World2(used, maxChunk), Vfork);
    GoesOn(World2(used, maxChunk), Vfork, World3(used, maxChunk));
    Yield4(used, maxChunk);
    KeepsAlways(World3(used, maxChunk), Yield);
    GoesOn(World3(used, maxChunk), Yield, World4(used, maxChunk));
    Exec5(used, maxChunk);
    KeepsAlways(World4(used, maxChunk), Exec(NotFound, 1, 1));
    GoesOn(World4(used, maxChunk), Exec(NotFound, 1, 1), World5(used, maxChunk));
    Wait6(used, maxChunk);
    KeepsAlways(World5(used, maxChunk), Wait(2, false));
    GoesOn(World5(used, maxChunk), Wait(2, false), World6(used, maxChunk));
  }

  lemma FirstDestruction(used: set<int>, maxChunk: nat)
    requires Roomy(used, maxChunk) && Good(World9(used, maxChunk)) && Enabled(World9(used, maxChunk), Resume)
    ensures Keeps(World9(used, maxChunk), Resume)
  {
    hide ListWf, TablesWf, RunWf, Queued, SleepInv, CurReady, Counted;
  }

  lemma SecondHalf(used: set<int>, maxChunk: nat)
    requires Roomy(used, maxChunk) && Good(World6(used, maxChunk))
             && Conserved(World6(used, maxChunk).ps, World6(used, maxChunk).tables)
    ensures Goes(World6(used, maxChunk), Yield, World7(used, maxChunk))
    ensures Goes(World7(used, maxChunk), Wait(2, false), World8(used, maxChunk))
    ensures Goes(World8(used, maxChunk), Exit(0), World9(used, maxChunk))
    ensures Goes(World9(used, maxChunk), Resume, World10(used, maxChunk))
    ensures Goes(World10(used, maxChunk), Exec(PROGRAM, 1, 1), World11(used, maxChunk))
  {
    hide Good, Conserved, Enabled, Step, Keeps, Counted;
    Yield7(used, maxChunk);
    KeepsAlways(World6(used, maxChunk), Yield);
    GoesOn(World6(used, maxChunk), Yield, World7(used, maxChunk));
    Wait8(used, maxChunk);
    KeepsAlways(World7(used, maxChunk), Wait(2, false));
    GoesOn(World7(used, maxChunk), Wait(2, false), World8(used, maxChunk));
    Exit9(used, maxChunk);
    KeepsAlways(World8(used, maxChunk), Exit(0));
    GoesOn(World8(used, maxChunk), Exit(0), World9(used, maxChunk));
    Resume10(used, maxChunk);
    FirstDestruction(used, maxChunk);
    GoesOn(World9(used, maxChunk), Resume, World10(used, maxChunk));
    Exec11(used, maxChunk);
    ExecKeeps(World10(used, maxChunk), 2, true);
    GoesOn(World10(used, maxChunk), Exec(PROGRAM, 1, 1), World11(used, maxChunk));
  }

  lemma RunsFrom(w: World, a: Action, w1: World, rest: seq<Action>, w': World)
    requires Goes(w, a, w1) && Runs(w1, rest, w')
    ensures Runs(w, [a] + rest, w')
  {
    hide Conserved, ListWf, TablesWf, RunWf, Queued, SleepInv, CurReady, Enabled, Step;
    assert ([a] + rest)[1..] == rest;
  }

  lemma RunsRace(used: set<int>, maxChunk: nat)
    requires Roomy(used, maxChunk)
    ensures Good(Boot(used, maxChunk)) && Runs(Boot(used, maxChunk), RACE, World11(used, maxChunk))
    ensures Good(World11(used, maxChunk)) && Conserved(World11(used, maxChunk).ps, World11(used, maxChunk).tables)
  {
    hide Good, Conserved, Enabled, Step, Counted, Boot, Runs;
    FirstHalf(used, maxChunk);
    SecondHalf(used, maxChunk);
    var w' := World11(used, maxChunk);
    NoSteps(w');
    var r11 := [Exec(PROGRAM, 1, 1)] + [];
    RunsFrom(World10(used, maxChunk), Exec(PROGRAM, 1, 1), w', [], w');
    RunsFrom(World9(used, maxChunk), Resume, World10(used, maxChunk), r11, w');
    var r9 := [Exit(0)] + ([Resume] + r11);
    RunsFrom(World8(used, maxChunk), Exit(0), World9(used, maxChunk), [Resume] + r11, w');
    RunsFrom(World7(used, maxChunk), Wait(2, false), World8(used, maxChunk), r9, w');
    var r7 := [Yield] + ([Wait(2, false)] + r9);
    RunsFrom(World6(used, maxChunk), Yield, World7(used, maxChunk), [Wait(2, false)] + r9, w');
    RunsFrom(World5(used, maxChunk), Wait(2, false), World6(used, maxChunk), r7, w');
    var r5 := [Exec(NotFound, 1, 1)] + ([Wait(2, false)] + r7);
    RunsFrom(World4(used, maxChunk), Exec(NotFound, 1, 1), World5(used, maxChunk), [Wait(2, false)] + r7, w');
    RunsFrom(World3(used, maxChunk), Yield, World4(used, maxChunk), r5, w');
    var r3 := [Vfork] + ([Yield] + r5);
    RunsFrom(World2(used, maxChunk), Vfork, World3(used, maxChunk), [Yield] + r5, w');
    RunsFrom(World1(used, maxChunk), Exec(PROGRAM, 1, 1), World2(used, maxChunk), r3, w');
    RunsFrom(Boot(used, maxChunk), Vfork, World1(used, maxChunk), [Exec(PROGRAM, 1, 1)] + r3, w');
    assert [Vfork] + ([Exec(PROGRAM, 1, 1)] + r3) == RACE;
  }

  /** Until the last step nobody's memory is touched by anybody else. */
  lemma RaceMemory(used: set<int>, maxChunk: nat)
    ensures MemOk(World11(used, maxChunk))
    ensures Owned(World11(used, maxChunk).ps[2]) == Owned(World11(used, maxChunk).ps[3]) == {4097} + {4098}
  {
    hide Counted;
    assert Range(4097, 1) == {4097} && Range(4098, 1) == {4098};
  }

  lemma LastStep(used: set<int>, maxChunk: nat)
    requires Good(World11(used, maxChunk)) && Conserved(World11(used, maxChunk).ps, World11(used, maxChunk).tables)
    ensures Enabled(World11(used, maxChunk), Resume)
    ensures !Keeps(World11(used, maxChunk), Resume) && !MemKeeps(World11(used, maxChunk), Resume)
  {
    hide ListWf, TablesWf, RunWf, Queued, SleepInv, CurReady, Conserved, Counted;
    var w := World11(used, maxChunk);
    RaceMemory(used, maxChunk);
    assert w.ps[2].files[0] == 0 && w.tables.files[0].count > 0;
    SizedFreesOwn(w.ps[2]);
    assert 4097 in Freed(w.ps[2]) && 4097 in Owned(w.ps[3]) && Holder(w, 3);
  }

  /** A run of the boot world in which a second waiter destroys the child again: up to then every count equals its
      references and memory is owned exclusively; afterwards the first waiter's children have lost references, and
      memory they own is marked free. */
  lemma TwoWaitersRace(used: set<int>, maxChunk: nat)
    requires Roomy(used, maxChunk)
    ensures var w, w1 := Boot(used, maxChunk), World11(used, maxChunk);
            && Good(w) && Runs(w, RACE, w1) && Good(w1) && Enabled(w1, Resume)
            && Conserved(w1.ps, w1.tables) && !Conserved(Step(w1, Resume).ps, Step(w1, Resume).tables)
            && MemOk(w1) && !MemOk(Step(w1, Resume))
  {
    hide Good, Conserved, Enabled, Step, Counted, Boot, Runs, Keeps, MemKeeps, MemOk;
    RunsRace(used, maxChunk);
    RaceMemory(used, maxChunk);
    LastStep(used, maxChunk);
    StepConservesIff(World11(used, maxChunk), Resume);
    StepKeepsMemoryIff(World11(used, maxChunk), Resume);
  }
}
