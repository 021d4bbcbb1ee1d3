/** Reference conservation: exactly when a step keeps the counts of file objects and inode entries equal to the
    references to them, and the same over whole runs. */
module KernelReferences {
  import opened Common
  import opened Processes
  import opened Descriptors
  import opened Kernels
  import opened KernelStructure

  /** Every count is as far from its number of references in w' as it is in w. */
  ghost predicate Balanced(ps: seq<Pcb>, t: Tables, qs: seq<Pcb>, t': Tables) {
    && InodesSafe(t) && InodesSafe(t') && SlotsInRange(qs)
    && (forall f :: 0 <= f < MAX_OPEN_FILES ==> FileExcess(qs, t'.files, f) == FileExcess(ps, t.files, f))
    && (forall n :: 0 <= n < NUM_INODES ==> InodeExcess(t', n) == InodeExcess(t, n))
  }

  lemma BalancedIsSafe(ps: seq<Pcb>, t: Tables, qs: seq<Pcb>, t': Tables)
    requires Balanced(ps, t, qs, t')
    ensures Safe(ps, t) ==> Safe(qs, t')
    ensures SlotsInRange(ps) ==> (Conserved(ps, t) <==> Conserved(qs, t'))
  {
    hide SlotsInRange, FileExcess, InodeExcess;
    if Safe(ps, t) {
      forall f | 0 <= f < MAX_OPEN_FILES ensures FileExcess(qs, t'.files, f) >= 0 {
        assert FileExcess(qs, t'.files, f) == FileExcess(ps, t.files, f);
      }
    }
    if Conserved(ps, t) {
      forall f | 0 <= f < MAX_OPEN_FILES ensures FileExcess(qs, t'.files, f) == 0 {
        assert FileExcess(qs, t'.files, f) == FileExcess(ps, t.files, f);
      }
      forall n | 0 <= n < NUM_INODES ensures InodeExcess(t', n) == 0 {
        assert InodeExcess(t', n) == InodeExcess(t, n);
      }
    }
    if Conserved(qs, t') {
      forall f | 0 <= f < MAX_OPEN_FILES ensures FileExcess(ps, t.files, f) == 0 {
        assert FileExcess(qs, t'.files, f) == FileExcess(ps, t.files, f);
      }
      forall n | 0 <= n < NUM_INODES ensures InodeExcess(t, n) == 0 {
        assert InodeExcess(t', n) == InodeExcess(t, n);
      }
    }
  }

  /** Blocks that keep their validity and slots refer to the same file objects. */
  ghost predicate SameRefs(ps: seq<Pcb>, qs: seq<Pcb>) {
    |qs| == |ps| && forall i :: 0 <= i < |ps| ==> qs[i].valid == ps[i].valid && qs[i].files == ps[i].files
  }

  lemma SameRefsBalanced(ps: seq<Pcb>, qs: seq<Pcb>, t: Tables)
    requires InodesSafe(t) && SlotsInRange(ps) && SameRefs(ps, qs)
    ensures Balanced(ps, t, qs, t)
  {
    forall f | 0 <= f < MAX_OPEN_FILES ensures FileExcess(qs, t.files, f) == FileExcess(ps, t.files, f) {
      SlotRefsSame(ps, qs, f);
    }
    SlotsCarry(ps, qs);
  }

  lemma ShapeOfSafe(t: Tables)
    requires InodesSafe(t)
    ensures Shape(t)
  {}

  /** Whether references are conserved depends on validity, slots and tables only. */
  lemma SameRefsConserved(ps: seq<Pcb>, qs: seq<Pcb>, t: Tables)
    requires SameRefs(ps, qs)
    ensures Conserved(ps, t) <==> Conserved(qs, t)
  {
    hide InodesSafe, InodeExcess;
    if InodesSafe(t) {
      ShapeOfSafe(t);
      forall f | 0 <= f < MAX_OPEN_FILES ensures FileExcess(qs, t.files, f) == FileExcess(ps, t.files, f) {
        SlotRefsSame(ps, qs, f);
      }
    }
    assert SlotsInRange(ps) <==> SlotsInRange(qs);
  }

  /** Pointing one slot elsewhere moves one reference from the old file object to the new one. */
  lemma SlotMoves(ps: seq<Pcb>, i: nat, d: nat, g: int, f: int)
    requires i < |ps| && ps[i].valid && d < |ps[i].files|
    ensures SlotRefs(ps[i := WithSlot(ps[i], d, g)], f)
         == SlotRefs(ps, f) - (if ps[i].files[d] == f then 1 else 0) + (if g == f then 1 else 0)
  {
    var p := WithSlot(ps[i], d, g);
    SlotRefsUpdate(ps, i, p, f);
    assert multiset(p.files)[f]
        == multiset(ps[i].files)[f] - (if ps[i].files[d] == f then 1 else 0) + (if g == f then 1 else 0);
  }

  /** A table step on file object f and the slot that accounts for it balance each other. */
  lemma SlotBalances(ps: seq<Pcb>, t: Tables, t': Tables, i: nat, d: nat, g: int, f: int, delta: int)
    requires InodesSafe(t) && InodesSafe(t') && FileMoved(t, t', f, delta) && SlotsInRange(ps)
    requires i < |ps| && ps[i].valid && d < MAX_FD_PER_PROC && (g == NIL || 0 <= g < MAX_OPEN_FILES)
    requires 0 <= f < MAX_OPEN_FILES
    requires if delta == 1 then g == f && ps[i].files[d] == NIL else delta == -1 && g == NIL && ps[i].files[d] == f
    ensures Balanced(ps, t, ps[i := WithSlot(ps[i], d, g)], t')
  {
    var qs := ps[i := WithSlot(ps[i], d, g)];
    forall k | 0 <= k < MAX_OPEN_FILES ensures FileExcess(qs, t'.files, k) == FileExcess(ps, t.files, k) {
      SlotMoves(ps, i, d, g, k);
    }
  }

  // ---------------------------------------------------------------- open and close

  lemma NewFileSafe(ps: seq<Pcb>, t: Tables, t': Tables, i: nat, d: nat, f: nat)
    requires Safe(ps, t) && InodesSafe(t')
    requires i < |ps| && ps[i].valid && d < MAX_FD_PER_PROC && ps[i].files[d] == NIL && f < MAX_OPEN_FILES
    requires t.files[f].count == 0 && t'.files == t.files[f := t'.files[f]] && t'.files[f].count == 1
    ensures Safe(ps[i := WithSlot(ps[i], d, f)], t')
  {
    var qs := ps[i := WithSlot(ps[i], d, f)];
    forall k | 0 <= k < MAX_OPEN_FILES ensures FileExcess(qs, t'.files, k) >= 0 {
      SlotMoves(ps, i, d, f, k);
      assert FileExcess(ps, t.files, k) >= 0;
    }
  }

  lemma OpenedBalances(w: World, l: Lookup, c: Option<Creation>)
    requires Wf(w) && Safe(w.ps, w.tables)
    ensures Safe(Opened(w, l, c).ps, Opened(w, l, c).tables)
    ensures OpenConserves(w.tables, l, c) ==> Balanced(w.ps, w.tables, Opened(w, l, c).ps, Opened(w, l, c).tables)
  {
    hide ListWf, RunWf, Queued, FileOpened, OpenConserves;
    Ranges(w);
    FileOpenedMoves(w.tables, l, c);
    match FreeSlot(w.ps[w.cur].files)
    case None => SameRefsBalanced(w.ps, w.ps, w.tables);
    case Some(d) =>
      match FileOpened(w.tables, l, c) {
        case (t, None) =>
          if OpenConserves(w.tables, l, c) {
            MovedKeepsSafe(w.tables, t, NIL, 0);
          }
        case (t, Some(f)) =>
          NewFileSafe(w.ps, w.tables, t, w.cur, d, f);
          if OpenConserves(w.tables, l, c) {
            SlotBalances(w.ps, w.tables, t, w.cur, d, f, f, 1);
          }
      }
  }

  lemma ClosedBalances(w: World, fd: nat)
    requires Wf(w) && Safe(w.ps, w.tables)
    ensures Balanced(w.ps, w.tables, Closed(w, fd).ps, Closed(w, fd).tables)
  {
    hide ListWf, RunWf, Queued, FileFreed;
    Ranges(w);
    var f := Mapped(w, w.tables, fd);
    if f >= 0 {
      OpenSlotIsLive(w.ps, w.tables, w.cur, fd);
      FileFreedMoves(w.tables, f);
      SlotBalances(w.ps, w.tables, FileFreed(w.tables, f), w.cur, fd, NIL, f, -1);
    } else {
      SameRefsBalanced(w.ps, w.ps, w.tables);
    }
  }

  /** Looking a path up and giving the entry back leaves every count as it was, unless the path is under no mount. */
  lemma PathCalledBalances(w: World, l: Lookup)
    requires Wf(w) && Safe(w.ps, w.tables)
    ensures Safe(PathCalled(w, l).ps, PathCalled(w, l).tables)
    ensures !l.NoMount? ==> Balanced(w.ps, w.tables, PathCalled(w, l).ps, PathCalled(w, l).tables)
  {
    hide ListWf, RunWf, Queued, LookedUp, InodeAllocated;
    Ranges(w);
    LookedUpMoves(w.tables, l);
    match LookedUp(w.tables, l)
    case (t, None) =>
      if !l.NoMount? {
        MovedKeepsSafe(w.tables, t, NIL, 0);
      }
    case (t, Some(n)) =>
      InodeFreedMoves(t, n);
      MovedKeepsSafe(w.tables, InodeFreed(t, n), NIL, 0);
  }

  /** The path is under a mount, or there is no entry to look it up with. */
  ghost predicate PathKeeps(w: World, l: Lookup)
    requires Wf(w)
  {
    hide ListWf, TablesWf, RunWf, Queued, InodeAllocated, SlotsInRange;
    Ranges(w);
    !l.NoMount? || InodeAllocated(w.tables).1.None?
  }

  lemma ConservedIsSafe(ps: seq<Pcb>, t: Tables)
    requires Conserved(ps, t)
    ensures Safe(ps, t)
  {}

  /** A path call loses its temporary entry exactly when it got one and the path is under no mount. */
  lemma PathCallConservesIff(w: World, l: Lookup)
    requires Wf(w) && Conserved(w.ps, w.tables)
    ensures Conserved(PathCalled(w, l).ps, PathCalled(w, l).tables) <==> PathKeeps(w, l)
  {
    hide ListWf, RunWf, Queued, TablesWf, LookedUp, InodeAllocated;
    Ranges(w);
    ConservedIsSafe(w.ps, w.tables);
    LookedUpMoves(w.tables, l);
    LookupNeedsEntry(w.tables, l);
    if !l.NoMount? {
      PathCalledBalances(w, l);
      BalancedIsSafe(w.ps, w.tables, PathCalled(w, l).ps, PathCalled(w, l).tables);
    } else if InodeAllocated(w.tables).1.Some? {
      EntryInRange(w.tables);
      MovedKeepsSafe(w.tables, LookedUp(w.tables, l).0, InodeAllocated(w.tables).1.value, 1);
    }
  }

  // ---------------------------------------------------------------- dup2

  /** The condition under which dup2 keeps the counts right. */
  predicate DupGuard(w: World, oldfd: nat, newfd: nat)
    requires Wf(w) && newfd < MAX_FD_PER_PROC
  {
    hide ListWf, TablesWf, RunWf, Queued;
    Ranges(w);
    var fds := w.ps[w.cur].files;
    fds[newfd] == NIL
    || (oldfd < MAX_FD_PER_PROC && fds[oldfd] != NIL && (oldfd != newfd || w.tables.files[fds[oldfd]].count >= 2))
  }

  /** Two slots of a valid block on one file object are two references. */
  lemma TwoSlots(ps: seq<Pcb>, t: Tables, i: nat, c: nat, d: nat)
    requires Safe(ps, t) && i < |ps| && ps[i].valid && c < MAX_FD_PER_PROC && d < MAX_FD_PER_PROC && c != d
    requires ps[i].files[c] == ps[i].files[d] != NIL
    ensures t.files[ps[i].files[c]].count >= 2
  {
    var f, fds := ps[i].files[c], ps[i].files;
    SlotRefsUpdate(ps, i, ps[i], f);
    assert FileExcess(ps, t.files, f) >= 0;
    var rest := fds[c := NIL];
    assert rest[d] == f;
    assert multiset(rest)[f] >= 1;
    assert multiset(rest)[f] == multiset(fds)[f] - 1;
  }

  /** When the new descriptor is open, the old one decides: dup2 gets its file object exactly under the guard. */
  lemma DupFindsFile(w: World, oldfd: nat, newfd: nat)
    requires Wf(w) && Safe(w.ps, w.tables) && newfd < MAX_FD_PER_PROC && InRange(w)
    requires w.ps[w.cur].files[newfd] != NIL
    ensures var g := w.ps[w.cur].files[newfd];
            && Mapped(w, w.tables, newfd) == g
            && FileMoved(w.tables, FileFreed(w.tables, g), g, -1) && InodesSafe(FileFreed(w.tables, g))
            && (Mapped(w, FileFreed(w.tables, g), oldfd) >= 0 <==> DupGuard(w, oldfd, newfd))
  {
    hide ListWf, RunWf, Queued, FileFreed, TablesWf;
    var g := w.ps[w.cur].files[newfd];
    OpenSlotIsLive(w.ps, w.tables, w.cur, newfd);
    FileFreedMoves(w.tables, g);
    if oldfd < MAX_FD_PER_PROC && w.ps[w.cur].files[oldfd] != NIL {
      OpenSlotIsLive(w.ps, w.tables, w.cur, oldfd);
      if oldfd != newfd && w.ps[w.cur].files[oldfd] == g {
        TwoSlots(w.ps, w.tables, w.cur, oldfd, newfd);
      }
    }
  }

  lemma ReplacedBalances(ps: seq<Pcb>, t: Tables, t1: Tables, t2: Tables, i: nat, d: nat, f: int, g: int)
    requires Safe(ps, t) && InodesSafe(t1) && InodesSafe(t2) && i < |ps| && ps[i].valid && d < MAX_FD_PER_PROC
    requires ps[i].files[d] == g && 0 <= f < MAX_OPEN_FILES && 0 <= g < MAX_OPEN_FILES
    requires FileMoved(t, t1, g, -1) && FileMoved(t1, t2, f, 1)
    ensures Balanced(ps, t, ps[i := WithSlot(ps[i], d, f)], t2)
  {
    var qs := ps[i := WithSlot(ps[i], d, f)];
    forall k | 0 <= k < MAX_OPEN_FILES ensures FileExcess(qs, t2.files, k) == FileExcess(ps, t.files, k) {
      SlotMoves(ps, i, d, f, k);
    }
    hide FileExcess;
    forall n | 0 <= n < NUM_INODES ensures InodeExcess(t2, n) == InodeExcess(t, n) {
      assert InodeExcess(t1, n) == InodeExcess(t, n);
    }
  }

  lemma DupedBalances(w: World, oldfd: nat, newfd: nat)
    requires Wf(w) && Safe(w.ps, w.tables) && newfd < MAX_FD_PER_PROC && DupGuard(w, oldfd, newfd)
    ensures Balanced(w.ps, w.tables, Duped(w, oldfd, newfd).ps, Duped(w, oldfd, newfd).tables)
  {
    hide ListWf, RunWf, Queued, FileFreed, FileIncremented, TablesWf;
    Ranges(w);
    var fds := w.ps[w.cur].files;
    if fds[newfd] == NIL {
      var f := Mapped(w, w.tables, oldfd);
      if f >= 0 {
        FileIncrementedMoves(w.tables, f);
        SlotBalances(w.ps, w.tables, FileIncremented(w.tables, f), w.cur, newfd, f, f, 1);
      } else {
        SameRefsBalanced(w.ps, w.ps, w.tables);
      }
    } else {
      var g := fds[newfd];
      DupFindsFile(w, oldfd, newfd);
      var t := FileFreed(w.tables, g);
      var f := Mapped(w, t, oldfd);
      FileIncrementedMoves(t, f);
      ReplacedBalances(w.ps, w.tables, t, FileIncremented(t, f), w.cur, newfd, f, g);
    }
  }

  lemma OpenNewfd(w: World, oldfd: nat, newfd: nat)
    requires Wf(w) && newfd < MAX_FD_PER_PROC && !DupGuard(w, oldfd, newfd) && InRange(w)
    ensures w.ps[w.cur].files[newfd] != NIL
  {
    hide ListWf, RunWf, Queued, TablesWf;
  }

  /** dup2 conserves references exactly under its guard. Otherwise it has given up the reference of newfd
      while newfd still points to the file object. */
  lemma DupConservesIff(w: World, oldfd: nat, newfd: nat)
    requires Wf(w) && Conserved(w.ps, w.tables) && newfd < MAX_FD_PER_PROC
    ensures Conserved(Duped(w, oldfd, newfd).ps, Duped(w, oldfd, newfd).tables) <==> DupGuard(w, oldfd, newfd)
  {
    hide ListWf, RunWf, Queued, FileFreed, FileIncremented, TablesWf, DupGuard;
    Ranges(w);
    ConservedIsSafe(w.ps, w.tables);
    if DupGuard(w, oldfd, newfd) {
      DupedBalances(w, oldfd, newfd);
      BalancedIsSafe(w.ps, w.tables, Duped(w, oldfd, newfd).ps, Duped(w, oldfd, newfd).tables);
    } else {
      OpenNewfd(w, oldfd, newfd);
      DupFindsFile(w, oldfd, newfd);
      var g := w.ps[w.cur].files[newfd];
      assert FileExcess(w.ps, FileFreed(w.tables, g).files, g) == FileExcess(w.ps, w.tables.files, g) - 1;
    }
  }

  // ---------------------------------------------------------------- vfork, execve and the steps without descriptors

  lemma ForkedTables(w: World, c: int)
    requires Wf(w) && 0 <= c < |w.ps| && InRange(w)
    ensures ForkedInto(w, c).tables == IncrementedAll(w.tables, w.ps[w.cur].files)
  {
    hide ListWf, RunWf, Queued, Inserted, TablesWf, IncrementedAll;
  }

  /** The child's slots are the parent's, and vfork() counts each of them once more. */
  lemma ForkedBalances(w: World, c: int)
    requires Wf(w) && Safe(w.ps, w.tables) && 0 <= c < |w.ps| && !w.ps[c].valid
    ensures Balanced(w.ps, w.tables, ForkedInto(w, c).ps, ForkedInto(w, c).tables)
  {
    hide ListWf, RunWf, Queued, Inserted, TablesWf, ForkedInto, IncrementedAll;
    Ranges(w);
    ForkedChanges(w, c);
    ForkedTables(w, c);
    var fds := w.ps[w.cur].files;
    var w1 := ForkedInto(w, c);
    forall d | 0 <= d < |fds| && fds[d] != NIL ensures w.tables.files[fds[d]].count > 0 {
      OpenSlotIsLive(w.ps, w.tables, w.cur, d);
    }
    IncrementedAllMoves(w.tables, fds);
    var mid := w.ps[c := w1.ps[c]];
    forall f | 0 <= f < MAX_OPEN_FILES
      ensures FileExcess(w1.ps, w1.tables.files, f) == FileExcess(w.ps, w.tables.files, f) {
      SlotRefsUpdate(w.ps, c, w1.ps[c], f);
      SlotRefsSame(mid, w1.ps, f);
    }
    forall p | 0 <= p < |w1.ps| ensures w1.ps[p].files == w.ps[if p == c then w.cur else p].files {}
  }

  /** The guards under which execve() loses nothing: no inode entry is free, or the file does not exist, or it is found,
      a file object is free, and both blocks can be had. When memory runs out the file object is kept. */
  predicate ExecConserves(w: World, l: Lookup, stackSize: nat, programSize: nat)
    requires Wf(w)
  {
    hide ListWf, RunWf, Queued, TablesWf, LoadSucceeds, InodeAllocated, FreeObject;
    Ranges(w);
    || InodeAllocated(w.tables).1.None?
    || l.NotFound?
    || (l.Found? && FindFrom(w.tables.files, FreeObject, 0).Some? && LoadSucceeds(w, l, stackSize, programSize))
  }

  lemma OpenForExec(w: World, l: Lookup, stackSize: nat, programSize: nat)
    requires Wf(w) && Safe(w.ps, w.tables) && InRange(w)
    ensures ExecConserves(w, l, stackSize, programSize) <==>
              && OpenConserves(w.tables, l, None)
              && (FileOpened(w.tables, l, None).1.Some? ==> LoadSucceeds(w, l, stackSize, programSize))
  {
    hide ListWf, RunWf, Queued, TablesWf, InodeAllocated, LookedUp, Allocated, InodesSafe, SlotsInRange, FileExcess;
    LookupNeedsEntry(w.tables, l);
  }

  lemma HeldFileSafe(ps: seq<Pcb>, t: Tables, t': Tables, f: nat)
    requires Safe(ps, t) && InodesSafe(t') && f < MAX_OPEN_FILES
    requires t.files[f].count == 0 && t'.files == t.files[f := t'.files[f]] && t'.files[f].count == 1
    ensures Safe(ps, t')
  {
    forall k | 0 <= k < MAX_OPEN_FILES ensures FileExcess(ps, t'.files, k) >= 0 {
      assert FileExcess(ps, t.files, k) >= 0;
    }
  }

  lemma FreedFileSafe(ps: seq<Pcb>, t: Tables, t1: Tables, t2: Tables, f: nat)
    requires Safe(ps, t) && InodesSafe(t2) && f < MAX_OPEN_FILES
    requires |t1.files| == MAX_OPEN_FILES
    requires t.files[f].count == 0 && t1.files == t.files[f := t1.files[f]] && t1.files[f].count == 1
    requires FileMoved(t1, t2, f, -1)
    ensures Safe(ps, t2)
  {
    forall k | 0 <= k < MAX_OPEN_FILES ensures FileExcess(ps, t2.files, k) >= 0 {
      assert FileExcess(ps, t.files, k) >= 0;
    }
  }

  lemma LoadedBalances(w: World, l: Lookup, stackSize: nat, programSize: nat)
    requires Wf(w) && Safe(w.ps, w.tables)
    ensures var w1 := Loaded(w, l, stackSize, programSize);
            && Safe(w1.ps, w1.tables)
            && (ExecConserves(w, l, stackSize, programSize) ==> Balanced(w.ps, w.tables, w1.ps, w1.tables))
  {
    hide ListWf, RunWf, Queued, TablesWf, FileOpened, FileFreed, Allocated, OpenConserves, ExecConserves;
    Ranges(w);
    FileOpenedMoves(w.tables, l, None);
    OpenForExec(w, l, stackSize, programSize);
    match FileOpened(w.tables, l, None)
    case (t, None) =>
      if OpenConserves(w.tables, l, None) {
        MovedKeepsSafe(w.tables, t, NIL, 0);
      }
    case (t, Some(f)) =>
      HeldFileSafe(w.ps, w.tables, t, f);
      FileFreedMoves(t, f);
      var t2 := FileFreed(t, f);
      var qs := Loaded(w, l, stackSize, programSize).ps;
      assert SameRefs(w.ps, qs);
      FreedFileSafe(w.ps, w.tables, t, t2, f);
      SameRefsBalanced(w.ps, qs, t2);
      BalancedIsSafe(w.ps, t2, qs, t2);
      if LoadSucceeds(w, l, stackSize, programSize) {
        forall k | 0 <= k < MAX_OPEN_FILES
          ensures FileExcess(w.ps, t2.files, k) == FileExcess(w.ps, w.tables.files, k) {}
      }
  }

  /** What execve() loses otherwise: an inode entry, or a file object that no descriptor refers to. */
  lemma LoadedLoses(w: World, l: Lookup, stackSize: nat, programSize: nat)
    requires Wf(w) && Conserved(w.ps, w.tables) && !ExecConserves(w, l, stackSize, programSize)
    ensures var w1 := Loaded(w, l, stackSize, programSize); !Conserved(w1.ps, w1.tables)
  {
    hide ListWf, RunWf, Queued, TablesWf, FileOpened, FileFreed, Allocated, OpenConserves, ExecConserves;
    Ranges(w);
    ConservedIsSafe(w.ps, w.tables);
    FileOpenedMoves(w.tables, l, None);
    OpenForExec(w, l, stackSize, programSize);
    match FileOpened(w.tables, l, None)
    case (t, None) =>
      var n :| 0 <= n < NUM_INODES && InodeExcess(t, n) > InodeExcess(w.tables, n);
      assert InodeExcess(w.tables, n) == 0;
    case (t, Some(f)) =>
      assert FileExcess(w.ps, w.tables.files, f) == 0;
      assert FileExcess(w.ps, t.files, f) == 1;
  }

  lemma ConservedSlots(ps: seq<Pcb>, t: Tables)
    requires Conserved(ps, t)
    ensures SlotsInRange(ps)
  {}

  lemma ExecConservesIff(w: World, l: Lookup, stackSize: nat, programSize: nat)
    requires Wf(w) && Conserved(w.ps, w.tables)
    ensures var w1 := Loaded(w, l, stackSize, programSize);
            Conserved(w1.ps, w1.tables) <==> ExecConserves(w, l, stackSize, programSize)
  {
    hide ListWf, RunWf, Queued, TablesWf, Loaded, Safe, ExecConserves;
    ConservedIsSafe(w.ps, w.tables);
    if ExecConserves(w, l, stackSize, programSize) {
      LoadedBalances(w, l, stackSize, programSize);
      ConservedSlots(w.ps, w.tables);
      BalancedIsSafe(w.ps, w.tables, Loaded(w, l, stackSize, programSize).ps,
                     Loaded(w, l, stackSize, programSize).tables);
    } else {
      LoadedLoses(w, l, stackSize, programSize);
    }
  }

  // ---------------------------------------------------------------- process_destroy

  lemma DestroyedTables(w: World, p: int)
    requires Wf(w) && 0 <= p < |w.ps| && p != w.first && InRange(w)
    ensures Destroyed(w, p).tables == FreedAll(w.tables, w.ps[p].files)
  {
    hide ListWf, RunWf, Queued, TablesWf, FreedAll, Unlinked, Without;
  }

  /** Destroying a valid block drops exactly the references of its slots. */
  lemma DestroyedBalances(w: World, p: int)
    requires Wf(w) && Safe(w.ps, w.tables) && 0 <= p < |w.ps| && p != w.first && w.ps[p].valid
    ensures Balanced(w.ps, w.tables, Destroyed(w, p).ps, Destroyed(w, p).tables)
  {
    hide ListWf, RunWf, Queued, TablesWf, Destroyed, FreedAll;
    Ranges(w);
    DestroyedChanges(w, p);
    DestroyedTables(w, p);
    var fds := w.ps[p].files;
    forall f | 0 <= f < MAX_OPEN_FILES ensures w.tables.files[f].count >= multiset(fds)[f] {
      SlotRefsUpdate(w.ps, p, w.ps[p], f);
      assert FileExcess(w.ps, w.tables.files, f) >= 0;
    }
    FreedAllMoves(w.tables, fds);
    var w1 := Destroyed(w, p);
    var mid := w.ps[p := w1.ps[p]];
    forall f | 0 <= f < MAX_OPEN_FILES
      ensures FileExcess(w1.ps, w1.tables.files, f) == FileExcess(w.ps, w.tables.files, f) {
      SlotRefsUpdate(w.ps, p, w1.ps[p], f);
      SlotRefsSame(mid, w1.ps, f);
    }
    SlotsCarry(w.ps, w1.ps);
  }

  /** What process_destroy would close for this block is closed already, in both layers. */
  ghost predicate Harmless(t: Tables, fds: seq<int>)
    requires Shape(t) && SlotValues(fds)
  {
    forall d :: 0 <= d < |fds| && fds[d] != NIL ==>
      t.files[fds[d]].count == 0 && (t.files[fds[d]].inode == NIL || t.inodes[t.files[fds[d]].inode].count == 0)
  }

  ghost predicate NamesLiveInode(t: Tables, f: int)
    requires Shape(t)
  {
    0 <= f < MAX_OPEN_FILES && t.files[f].inode != NIL && t.inodes[t.files[f].inode].count > 0
  }

  /** Closing descriptors raises no count; it lowers the count of some live file object if a slot names one. */
  lemma {:induction false} FreedAllLowers(t: Tables, fds: seq<int>)
    requires Shape(t) && SlotValues(fds)
    ensures var r := FreedAll(t, fds);
            && (forall f :: 0 <= f < MAX_OPEN_FILES ==>
                r.files[f].count <= t.files[f].count && r.files[f].inode == t.files[f].inode)
            && (forall n :: 0 <= n < NUM_INODES ==> r.inodes[n].count <= t.inodes[n].count)
            && (forall d :: 0 <= d < |fds| && fds[d] != NIL && t.files[fds[d]].count > 0 ==>
                  r.files[fds[d]].count < t.files[fds[d]].count)
            && (forall d :: 0 <= d < |fds| && NamesLiveInode(t, fds[d]) ==>
                  r.inodes[t.files[fds[d]].inode].count < t.inodes[t.files[fds[d]].inode].count)
    decreases |fds|
  {
    if fds != [] {
      FreedAllLowers(t, fds[..|fds| - 1]);
      var r1 := FreedAll(t, fds[..|fds| - 1]);
      forall d | 0 <= d < |fds| - 1 ensures fds[d] == fds[..|fds| - 1][d] {}
    }
  }

  lemma {:induction false} HarmlessFreesNothing(t: Tables, fds: seq<int>)
    requires Shape(t) && SlotValues(fds) && Harmless(t, fds)
    ensures FreedAll(t, fds) == t
    decreases |fds|
  {
    if fds != [] {
      HarmlessFreesNothing(t, fds[..|fds| - 1]);
    }
  }

  lemma {:induction false} InodeRefsOfEqualCounts(files: seq<FileObject>, files': seq<FileObject>, n: int)
    requires |files| == |files'|
    requires forall f :: 0 <= f < |files| ==> files'[f].count == files[f].count && files'[f].inode == files[f].inode
    ensures InodeRefs(files', n) == InodeRefs(files, n)
  {
    if files != [] {
      InodeRefsOfEqualCounts(files[1..], files'[1..], n);
    }
  }

  lemma TargetSlots(w: World, t: int)
    requires Wf(w) && 0 <= t < |w.ps|
    ensures SlotValues(w.ps[t].files) && Shape(w.tables)
  {
    hide ListWf, RunWf, Queued;
  }

  /** The condition under which destroying block t keeps the counts right: it is still valid, or nothing it names is
      in use. */
  ghost predicate DestroyKeeps(w: World, t: int)
    requires Wf(w) && 0 <= t < |w.ps|
  {
    hide ListWf, TablesWf, RunWf, Queued, Harmless;
    TargetSlots(w, t);
    w.ps[t].valid || Harmless(w.tables, w.ps[t].files)
  }

  lemma SecondDestroyLoses(w: World, p: int)
    requires Wf(w) && Conserved(w.ps, w.tables) && 0 <= p < |w.ps| && p != w.first && InRange(w)
    requires !w.ps[p].valid && SlotValues(w.ps[p].files) && !Harmless(w.tables, w.ps[p].files)
    ensures !Conserved(Destroyed(w, p).ps, Destroyed(w, p).tables)
  {
    hide ListWf, RunWf, Queued, TablesWf, Destroyed, FreedAll;
    var w1, fds := Destroyed(w, p), w.ps[p].files;
    var t, t1 := w.tables, w1.tables;
    DestroyedChanges(w, p);
    DestroyedTables(w, p);
    FreedAllLowers(t, fds);
    if d :| 0 <= d < |fds| && fds[d] != NIL && t.files[fds[d]].count > 0 {
      var f := fds[d];
      SlotRefsSame(w.ps, w1.ps, f);
      assert FileExcess(w1.ps, t1.files, f) < FileExcess(w.ps, t.files, f);
    } else {
      var d :| 0 <= d < |fds| && NamesLiveInode(t, fds[d]);
      var n := t.files[fds[d]].inode;
      if forall f :: 0 <= f < MAX_OPEN_FILES ==> t1.files[f].count == t.files[f].count {
        InodeRefsOfEqualCounts(t.files, t1.files, n);
        assert InodeExcess(t1, n) < InodeExcess(t, n);
      } else {
        var f :| 0 <= f < MAX_OPEN_FILES && t1.files[f].count != t.files[f].count;
        SlotRefsSame(w.ps, w1.ps, f);
        assert FileExcess(w1.ps, t1.files, f) != FileExcess(w.ps, t.files, f);
      }
    }
  }

  /** process_destroy conserves references exactly when the block is still valid, or nothing it names is in use. A
      second destruction, after another waiter's, can meet neither condition: it takes references away from their new
      owners. */
  lemma DestroyConservesIff(w: World, p: int)
    requires Wf(w) && Conserved(w.ps, w.tables) && 0 <= p < |w.ps| && p != w.first
    ensures Conserved(Destroyed(w, p).ps, Destroyed(w, p).tables) <==> DestroyKeeps(w, p)
  {
    hide ListWf, RunWf, Queued, TablesWf, Destroyed, FreedAll;
    Ranges(w);
    var w1 := Destroyed(w, p);
    var t, t1 := w.tables, w1.tables;
    if w.ps[p].valid {
      DestroyedBalances(w, p);
      BalancedIsSafe(w.ps, t, w1.ps, t1);
    } else {
      DestroyedChanges(w, p);
      DestroyedTables(w, p);
      forall f ensures SlotRefs(w1.ps, f) == SlotRefs(w.ps, f) {
        SlotRefsSame(w.ps, w1.ps, f);
      }
      if Harmless(t, w.ps[p].files) {
        HarmlessFreesNothing(t, w.ps[p].files);
        SameRefsBalanced(w.ps, w1.ps, t);
        BalancedIsSafe(w.ps, t, w1.ps, t1);
      } else {
        SecondDestroyLoses(w, p);
      }
    }
  }

  // ---------------------------------------------------------------- open

  /** No descriptor is free, so that nothing is opened, or the guards of opening hold. */
  ghost predicate OpenKeeps(w: World, l: Lookup, c: Option<Creation>)
    requires Wf(w)
  {
    hide ListWf, TablesWf, RunWf, Queued, OpenConserves, SlotsInRange;
    Ranges(w);
    FreeSlot(w.ps[w.cur].files).None? || OpenConserves(w.tables, l, c)
  }

  /** Opening, with or without O_CREAT, loses a reference exactly when a descriptor is free and its guards fail. */
  lemma OpenConservesIff(w: World, l: Lookup, c: Option<Creation>)
    requires Wf(w) && Conserved(w.ps, w.tables) && InRange(w)
    ensures Conserved(Opened(w, l, c).ps, Opened(w, l, c).tables) <==> OpenKeeps(w, l, c)
  {
    hide ListWf, RunWf, Queued, TablesWf, FileOpened, OpenConserves;
    ConservedIsSafe(w.ps, w.tables);
    FileOpenedMoves(w.tables, l, c);
    if OpenConserves(w.tables, l, c) {
      OpenedBalances(w, l, c);
      BalancedIsSafe(w.ps, w.tables, Opened(w, l, c).ps, Opened(w, l, c).tables);
    } else if FreeSlot(w.ps[w.cur].files).Some? {
      var t := FileOpened(w.tables, l, c).0;
      var n :| 0 <= n < NUM_INODES && InodeExcess(t, n) > InodeExcess(w.tables, n);
      assert InodeExcess(w.tables, n) == 0;
      assert Opened(w, l, c).tables == t;
    }
  }

  /** "/" is mounted before any process exists and never unmounted, so the lookups of processes always meet a mount.
      Then a path call loses nothing, and an open that creates nothing does so only for want of a file object. */
  lemma MountedCalls(w: World, l: Lookup)
    requires Wf(w) && Conserved(w.ps, w.tables) && InRange(w) && !l.NoMount?
    ensures Conserved(PathCalled(w, l).ps, PathCalled(w, l).tables)
    ensures Conserved(Opened(w, l, None).ps, Opened(w, l, None).tables) <==>
              || FreeSlot(w.ps[w.cur].files).None? || InodeAllocated(w.tables).1.None? || l.NotFound?
              || FindFrom(w.tables.files, FreeObject, 0).Some?
  {
    hide ListWf, RunWf, Queued, TablesWf, Opened, PathCalled, InodeAllocated, Conserved, FreeSlot;
    PathCallConservesIff(w, l);
    OpenConservesIff(w, l, None);
  }

  // ---------------------------------------------------------------- the exact condition of each step

  /** The condition on whoever goes on in waitpid(). */
  ghost predicate ResumeKeeps(w: World)
    requires Wf(w)
  {
    hide ListWf, TablesWf, RunWf, Queued, DestroyKeeps, Shape, SlotsInRange;
    Ranges(w);
    var t := w.target[w.cur];
    t != NIL && w.ps[t].status == Exited ==> DestroyKeeps(w, t)
  }

  /** The exact condition, for each thing a process can do, under which no reference is lost or given up twice. */
  ghost predicate Keeps(w: World, a: Action)
    requires Wf(w)
  {
    hide Wf, OpenKeeps, DupGuard, PathKeeps, ExecConserves, ResumeKeeps;
    match a
    case Open(l, c) => OpenKeeps(w, l, c)
    case Dup2(oldfd, newfd) => newfd < MAX_FD_PER_PROC ==> DupGuard(w, oldfd, newfd)
    case PathCall(l) => PathKeeps(w, l)
    case Exec(l, stackSize, programSize) => ExecConserves(w, l, stackSize, programSize)
    case Resume => ResumeKeeps(w)
    case _ => true
  }

  /** The conditions on the two calls that can take references away: dup2's, and that whoever resumes in waitpid()
      does not find its child destroyed already by another waiter and its files in use again. */
  ghost predicate Guarded(w: World, a: Action)
    requires Wf(w)
  {
    a.Dup2? || a.Resume? ==> Keeps(w, a)
  }

  lemma SameRefsSafe(ps: seq<Pcb>, qs: seq<Pcb>, t: Tables)
    requires Safe(ps, t) && SameRefs(ps, qs)
    ensures Safe(qs, t)
  {
    hide InodesSafe, SlotsInRange;
    ShapeOfSafe(t);
    SameRefsBalanced(ps, qs, t);
    BalancedIsSafe(ps, t, qs, t);
  }

  lemma BalancedConserves(w: World, w1: World)
    requires Conserved(w.ps, w.tables) && Balanced(w.ps, w.tables, w1.ps, w1.tables)
    ensures Conserved(w1.ps, w1.tables)
  {
    BalancedIsSafe(w.ps, w.tables, w1.ps, w1.tables);
  }

  lemma SleptRefs(w: World, t: int)
    requires Wf(w)
    ensures SameRefs(w.ps, Scheduled(SleptOn(w, t)).ps) && Scheduled(SleptOn(w, t)).tables == w.tables
  {
    hide ListWf, TablesWf, RunWf, Queued, Enqueued;
    SleptChanges(w, t);
  }

  lemma EndedRefs(w: World, status: int)
    requires Wf(w)
    ensures SameRefs(w.ps, Scheduled(Ended(w, status)).ps) && Scheduled(Ended(w, status)).tables == w.tables
  {
    hide ListWf, TablesWf, RunWf, Queued, Ended, Picked;
    EndedKeepsFields(w, status);
  }

  lemma YieldedRefs(w: World)
    requires Wf(w)
    ensures Yielded(w).ps == w.ps && Yielded(w).tables == w.tables
  {
    hide ListWf, TablesWf, RunWf, Queued;
  }

  lemma ExecedRefs(w: World, l: Lookup, stackSize: nat, programSize: nat)
    requires Good(w) && w.cur != w.first
    ensures var w1, w2 := Loaded(w, l, stackSize, programSize), Execed(w, l, stackSize, programSize);
            SameRefs(w1.ps, w2.ps) && w2.tables == w1.tables
  {
    hide ListWf, TablesWf, RunWf, Queued, SleepInv, CurReady, Loaded;
    LoadedKeeps(w, l, stackSize, programSize);
    ParentWokenKeeps(Loaded(w, l, stackSize, programSize));
  }

  // ---------------------------------------------------------------- every step

  lemma WaitedConservesIff(w: World, t: int)
    requires Wf(w) && Conserved(w.ps, w.tables) && 0 <= t < |w.ps| && (w.ps[t].status == Exited ==> t != w.first)
    ensures Conserved(Waited(w, t).ps, Waited(w, t).tables) <==> (w.ps[t].status == Exited ==> DestroyKeeps(w, t))
  {
    hide ListWf, TablesWf, RunWf, Queued, SleptOn, Destroyed, Conserved, Scheduled, DestroyKeeps;
    Ranges(w);
    if w.ps[t].status == Exited {
      DestroyConservesIff(w, t);
    } else {
      SleptRefs(w, t);
      SameRefsConserved(w.ps, Waited(w, t).ps, w.tables);
    }
  }

  lemma WaitCalledConserves(w: World, pid: int, nohang: bool)
    requires Wf(w) && Conserved(w.ps, w.tables)
    ensures Conserved(WaitCalled(w, pid, nohang).ps, WaitCalled(w, pid, nohang).tables)
  {
    hide TablesWf, Queued, Waited, Destroyed, Named, Conserved, Linked, Harmless;
    Ranges(w);
    var t := Named(w, pid);
    if t >= 0 {
      if !nohang {
        WaitedConservesIff(w, t);
      } else if w.ps[t].status == Exited {
        DestroyConservesIff(w, t);
      }
    }
  }

  lemma VforkedConserves(w: World)
    requires Wf(w) && Conserved(w.ps, w.tables)
    ensures Conserved(Vforked(w).ps, Vforked(w).tables)
  {
    hide ListWf, TablesWf, RunWf, Queued, ForkedInto, Safe, Balanced, Conserved;
    ConservedIsSafe(w.ps, w.tables);
    match FreeBlock(w.ps)
    case None =>
    case Some(c) =>
      ForkedBalances(w, c);
      BalancedConserves(w, Vforked(w));
  }

  /** Reference conservation, step by step: whatever the running process does, both layers of counts keep equal to
      their references if and only if the condition for that call holds. */
  lemma StepConservesIff(w: World, a: Action)
    requires Good(w) && Enabled(w, a) && Conserved(w.ps, w.tables)
    ensures Conserved(Step(w, a).ps, Step(w, a).tables) <==> Keeps(w, a)
  {
    hide ListWf, TablesWf, Queued, SleepInv, CurReady, Opened, Closed, Duped, PathCalled, ForkedInto, Loaded, Execed,
         Ended, Scheduled, Waited, WaitCalled, Destroyed, Allocated, Named, Conserved, Safe, Balanced, DupGuard,
         OpenConserves, ExecConserves, InodeAllocated, DestroyKeeps, SameRefs;
    Ranges(w);
    match a
    case Open(l, c) => OpenConservesIff(w, l, c);
    case Close(fd) =>
      ConservedIsSafe(w.ps, w.tables);
      ClosedBalances(w, fd);
      BalancedConserves(w, Closed(w, fd));
    case Dup2(oldfd, newfd) => DupConservesIff(w, oldfd, newfd);
    case PathCall(l) => PathCallConservesIff(w, l);
    case Vfork => VforkedConserves(w);
    case Exec(l, stackSize, programSize) =>
      ExecConservesIff(w, l, stackSize, programSize);
      ExecedRefs(w, l, stackSize, programSize);
      SameRefsConserved(Loaded(w, l, stackSize, programSize).ps, Execed(w, l, stackSize, programSize).ps,
                        Step(w, a).tables);
    case Exit(status) =>
      EndedRefs(w, status);
      SameRefsConserved(w.ps, Step(w, a).ps, w.tables);
    case Wait(pid, nohang) => WaitCalledConserves(w, pid, nohang);
    case Resume => WaitedConservesIff(w, w.target[w.cur]);
    case Yield => YieldedRefs(w);
    case Malloc(size) =>
  }

  lemma DestroyedSafe(w: World, t: int)
    requires Wf(w) && Safe(w.ps, w.tables) && 0 <= t < |w.ps| && t != w.first && DestroyKeeps(w, t)
    ensures Safe(Destroyed(w, t).ps, Destroyed(w, t).tables)
  {
    hide ListWf, TablesWf, RunWf, Queued, Destroyed, Safe, Balanced, Harmless, FreedAll;
    Ranges(w);
    TargetSlots(w, t);
    if w.ps[t].valid {
      DestroyedBalances(w, t);
      BalancedIsSafe(w.ps, w.tables, Destroyed(w, t).ps, Destroyed(w, t).tables);
    } else {
      DestroyedChanges(w, t);
      DestroyedTables(w, t);
      HarmlessFreesNothing(w.tables, w.ps[t].files);
      SameRefsSafe(w.ps, Destroyed(w, t).ps, w.tables);
    }
  }

  lemma WaitedSafe(w: World, t: int)
    requires Wf(w) && Safe(w.ps, w.tables) && 0 <= t < |w.ps|
    requires w.ps[t].status == Exited ==> t != w.first && DestroyKeeps(w, t)
    ensures Safe(Waited(w, t).ps, Waited(w, t).tables)
  {
    hide ListWf, TablesWf, RunWf, Queued, SleptOn, Destroyed, Safe, Balanced, Scheduled, DestroyKeeps;
    Ranges(w);
    if w.ps[t].status == Exited {
      DestroyedSafe(w, t);
    } else {
      SleptRefs(w, t);
      SameRefsSafe(w.ps, Waited(w, t).ps, w.tables);
    }
  }

  lemma WaitCalledSafe(w: World, pid: int, nohang: bool)
    requires Wf(w) && Safe(w.ps, w.tables)
    ensures Safe(WaitCalled(w, pid, nohang).ps, WaitCalled(w, pid, nohang).tables)
  {
    hide Queued, TablesWf, Waited, Destroyed, Named, Safe, Linked, Harmless;
    Ranges(w);
    var t := Named(w, pid);
    if t >= 0 {
      if !nohang {
        WaitedSafe(w, t);
      } else if w.ps[t].status == Exited {
        DestroyedSafe(w, t);
      }
    }
  }

  lemma VforkedSafe(w: World)
    requires Wf(w) && Safe(w.ps, w.tables)
    ensures Safe(Vforked(w).ps, Vforked(w).tables)
  {
    hide ListWf, TablesWf, RunWf, Queued, ForkedInto, Safe, Balanced;
    match FreeBlock(w.ps)
    case None =>
    case Some(c) =>
      ForkedBalances(w, c);
      BalancedIsSafe(w.ps, w.tables, Vforked(w).ps, Vforked(w).tables);
  }

  /** Every guarded step, whether it loses references or not, keeps every count at least as large as its references. */
  lemma StepKeepsSafe(w: World, a: Action)
    requires Good(w) && Enabled(w, a) && Guarded(w, a) && Safe(w.ps, w.tables)
    ensures Safe(Step(w, a).ps, Step(w, a).tables)
  {
    hide ListWf, TablesWf, Queued, SleepInv, CurReady, Opened, Closed, Duped, PathCalled, ForkedInto, Loaded, Execed,
         Ended, Scheduled, Waited, WaitCalled, Destroyed, Allocated, Named, Safe, Balanced, DupGuard, OpenConserves,
         ExecConserves, DestroyKeeps, SameRefs;
    Ranges(w);
    match a
    case Open(l, c) => OpenedBalances(w, l, c);
    case Close(fd) =>
      ClosedBalances(w, fd);
      BalancedIsSafe(w.ps, w.tables, Closed(w, fd).ps, Closed(w, fd).tables);
    case Dup2(oldfd, newfd) =>
      DupedBalances(w, oldfd, newfd);
      BalancedIsSafe(w.ps, w.tables, Duped(w, oldfd, newfd).ps, Duped(w, oldfd, newfd).tables);
    case PathCall(l) => PathCalledBalances(w, l);
    case Vfork => VforkedSafe(w);
    case Exec(l, stackSize, programSize) =>
      LoadedBalances(w, l, stackSize, programSize);
      ExecedRefs(w, l, stackSize, programSize);
      SameRefsSafe(Loaded(w, l, stackSize, programSize).ps, Execed(w, l, stackSize, programSize).ps, Step(w, a).tables);
    case Exit(status) =>
      EndedRefs(w, status);
      SameRefsSafe(w.ps, Step(w, a).ps, w.tables);
    case Wait(pid, nohang) => WaitCalledSafe(w, pid, nohang);
    case Resume => WaitedSafe(w, w.target[w.cur]);
    case Yield => YieldedRefs(w);
    case Malloc(size) =>
  }

  // ---------------------------------------------------------------- every run

  /** Conserved at the start and after every step. */
  ghost predicate ConservedThroughout(w: World, actions: seq<Action>)
    requires Good(w) && Can(w, actions)
    decreases |actions|
  {
    Conserved(w.ps, w.tables)
    && (actions != [] ==> (StepKeepsGood(w, actions[0]); ConservedThroughout(Step(w, actions[0]), actions[1..])))
  }

  /** Every step of the run meets the condition for its call. */
  ghost predicate KeepsThroughout(w: World, actions: seq<Action>)
    requires Good(w) && Can(w, actions)
    decreases |actions|
  {
    actions != [] ==>
      Keeps(w, actions[0]) && (StepKeepsGood(w, actions[0]); KeepsThroughout(Step(w, actions[0]), actions[1..]))
  }

  /** Reference conservation over every run: each file object is counted once per descriptor of a valid process and
      each inode entry once per reference its file objects count, throughout, if and only if every step meets the
      condition for its call. */
  lemma {:induction false} RunConservesIff(w: World, actions: seq<Action>)
    requires Good(w) && Can(w, actions) && Conserved(w.ps, w.tables)
    ensures ConservedThroughout(w, actions) <==> KeepsThroughout(w, actions)
    decreases |actions|
  {
    hide ListWf, TablesWf, RunWf, Queued, SleepInv, CurReady, Enabled, Step, Conserved, Keeps;
    if actions != [] {
      StepKeepsGood(w, actions[0]);
      StepConservesIff(w, actions[0]);
      if Keeps(w, actions[0]) {
        RunConservesIff(Step(w, actions[0]), actions[1..]);
      }
    }
  }

  /** A run in which every step is guarded; it may lose references, but takes none away. */
  ghost predicate GuardedRuns(w: World, actions: seq<Action>, w': World)
    requires Good(w)
    decreases |actions|
  {
    if actions == [] then w' == w
    else
      && Enabled(w, actions[0]) && Guarded(w, actions[0])
      && (StepKeepsGood(w, actions[0]); GuardedRuns(Step(w, actions[0]), actions[1..], w'))
  }

  /** Over every guarded run no count falls below its references. */
  lemma {:induction false} RunKeepsSafe(w: World, actions: seq<Action>, w': World)
    requires Good(w) && Safe(w.ps, w.tables) && GuardedRuns(w, actions, w')
    ensures Safe(w'.ps, w'.tables) && Good(w')
    decreases |actions|
  {
    hide ListWf, TablesWf, RunWf, Queued, SleepInv, CurReady, Enabled, Step, Safe, Guarded;
    if actions != [] {
      StepKeepsGood(w, actions[0]);
      StepKeepsSafe(w, actions[0]);
      RunKeepsSafe(Step(w, actions[0]), actions[1..], w');
    }
  }

  /** No dangling descriptor, over every guarded run, whatever fails on the way. */
  lemma NoDanglingDescriptor(w: World, actions: seq<Action>, w': World, p: nat, d: nat)
    requires Good(w) && Safe(w.ps, w.tables) && GuardedRuns(w, actions, w')
    requires p < |w'.ps| && w'.ps[p].valid && d < MAX_FD_PER_PROC
    ensures |w'.ps[p].files| == MAX_FD_PER_PROC && Shape(w'.tables)
    ensures var f := w'.ps[p].files[d];
            f == NIL || (0 <= f < MAX_OPEN_FILES && w'.tables.files[f].count > 0
                         && w'.tables.files[f].inode != NIL && w'.tables.inodes[w'.tables.files[f].inode].count > 0)
  {
    hide GuardedRuns, ListWf, RunWf, Queued, SleepInv, CurReady;
    RunKeepsSafe(w, actions, w');
    if w'.ps[p].files[d] != NIL {
      OpenSlotIsLive(w'.ps, w'.tables, p, d);
    }
  }
}
