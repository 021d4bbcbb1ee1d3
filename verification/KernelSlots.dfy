/** Every descriptor slot, of whatever block, names a file object that has an inode: once it has one, a file object
    always does. */
module KernelSlots {
  import opened Common
  import opened Processes
  import opened Descriptors
  import opened Kernels
  import opened KernelStructure

  ghost predicate SlotBacked(t: Tables, f: int) {
    f == NIL || (0 <= f < |t.files| && t.files[f].inode != NIL)
  }

  ghost predicate SlotsBacked(t: Tables, fds: seq<int>) {
    forall d :: 0 <= d < |fds| ==> SlotBacked(t, fds[d])
  }

  ghost predicate Backed(w: World) {
    forall p :: 0 <= p < |w.ps| ==> SlotsBacked(w.tables, w.ps[p].files)
  }

  /** No file object loses its inode. */
  ghost predicate InodesKept(t: Tables, t': Tables) {
    |t'.files| == |t.files| && forall f :: 0 <= f < |t.files| && t.files[f].inode != NIL ==> t'.files[f].inode != NIL
  }

  lemma KeptBacks(t: Tables, t': Tables, fds: seq<int>)
    requires InodesKept(t, t') && SlotsBacked(t, fds)
    ensures SlotsBacked(t', fds)
  {}

  /** A change of tables and of blocks whose slots are those of some block before. */
  lemma BackedCarries(w: World, w': World)
    requires Backed(w) && InodesKept(w.tables, w'.tables) && SameSlots(w.ps, w'.ps)
    ensures Backed(w')
  {
    hide InodesKept, SlotsBacked;
    forall p | 0 <= p < |w'.ps| ensures SlotsBacked(w'.tables, w'.ps[p].files) {
      KeptBacks(w.tables, w'.tables, w.ps[p].files);
    }
  }

  /** The same with one slot of one block changed. */
  lemma BackedChange(w: World, t: Tables, i: nat, d: nat, f: int)
    requires Backed(w) && InodesKept(w.tables, t) && SlotBacked(t, f) && i < |w.ps| && d < |w.ps[i].files|
    ensures Backed(w.(tables := t, ps := w.ps[i := WithSlot(w.ps[i], d, f)]))
  {
    forall p | 0 <= p < |w.ps| ensures SlotsBacked(t, w.ps[p].files) {
      KeptBacks(w.tables, t, w.ps[p].files);
    }
  }

  lemma FreedKept(t: Tables, f: nat)
    requires Shape(t) && f < MAX_OPEN_FILES
    ensures InodesKept(t, FileFreed(t, f)) && InodesKept(t, FileIncremented(t, f))
  {}

  lemma AllocatedKept(t: Tables, n: nat)
    requires Shape(t) && n < NUM_INODES
    ensures InodesKept(t, FileAllocated(t, n).0)
    ensures FileAllocated(t, n).1.Some? ==> SlotBacked(FileAllocated(t, n).0, FileAllocated(t, n).1.value)
  {}

  lemma OpenedKept(t: Tables, l: Lookup, c: Option<Creation>)
    requires Shape(t)
    ensures InodesKept(t, FileOpened(t, l, c).0)
    ensures FileOpened(t, l, c).1.Some? ==> SlotBacked(FileOpened(t, l, c).0, FileOpened(t, l, c).1.value)
  {
    hide LookedUp, Created, FileAllocated;
    var (t1, found) := LookedUp(t, l);
    var (t2, inode) := if found.None? && c.Some? then Created(t1, c.value) else (t1, found);
    if inode.Some? {
      AllocatedKept(t2, inode.value);
    }
  }

  lemma {:induction false} AllKept(t: Tables, fds: seq<int>)
    requires Shape(t) && SlotValues(fds)
    ensures InodesKept(t, IncrementedAll(t, fds)) && InodesKept(t, FreedAll(t, fds))
    decreases |fds|
  {
    hide FileIncremented, FileFreed;
    if fds != [] {
      var front := fds[..|fds| - 1];
      AllKept(t, front);
      if Last(fds) != NIL {
        FreedKept(IncrementedAll(t, front), Last(fds));
        FreedKept(FreedAll(t, front), Last(fds));
      }
    }
  }

  // ---------------------------------------------------------------- the steps

  lemma OpenedBacked(w: World, l: Lookup, c: Option<Creation>)
    requires Wf(w) && Backed(w)
    ensures Backed(Opened(w, l, c))
  {
    hide ListWf, RunWf, Queued, TablesWf, FileOpened, Backed, InodesKept, SlotBacked;
    Ranges(w);
    OpenedKept(w.tables, l, c);
    match FreeSlot(w.ps[w.cur].files)
    case None =>
    case Some(d) =>
      match FileOpened(w.tables, l, c)
      case (t, None) => BackedCarries(w, w.(tables := t));
      case (t, Some(f)) => BackedChange(w, t, w.cur, d, f);
  }

  lemma NilBacked(t: Tables)
    ensures SlotBacked(t, NIL)
  {}

  lemma ClosedBacked(w: World, fd: nat)
    requires Wf(w) && Backed(w)
    ensures Backed(Closed(w, fd))
  {
    hide ListWf, RunWf, Queued, TablesWf, FileFreed, Backed, InodesKept, SlotBacked;
    Ranges(w);
    var f := Mapped(w, w.tables, fd);
    if f >= 0 {
      FreedKept(w.tables, f);
      NilBacked(FileFreed(w.tables, f));
      BackedChange(w, FileFreed(w.tables, f), w.cur, fd, NIL);
    }
  }

  /** Whatever dup2 maps oldfd to has an inode, also after newfd was closed. */
  lemma MappedHasInode(w: World, oldfd: nat, newfd: nat)
    requires Wf(w) && Backed(w) && newfd < MAX_FD_PER_PROC && InRange(w)
    ensures var g := w.ps[w.cur].files[newfd];
            var t := if g == NIL then w.tables else FileFreed(w.tables, g);
            var f := Mapped(w, t, oldfd);
            InodesKept(w.tables, t) && (f >= 0 ==> f < MAX_OPEN_FILES && t.files[f].inode != NIL)
  {
    hide ListWf, Queued, RunWf, TablesWf, FileFreed;
    var g := w.ps[w.cur].files[newfd];
    if g != NIL {
      FreedKept(w.tables, g);
    }
    assert SlotsBacked(w.tables, w.ps[w.cur].files);
    if oldfd < MAX_FD_PER_PROC {
      assert SlotBacked(w.tables, w.ps[w.cur].files[oldfd]);
    }
  }

  lemma KeptTwice(t: Tables, t1: Tables, t2: Tables)
    requires InodesKept(t, t1) && InodesKept(t1, t2)
    ensures InodesKept(t, t2)
  {}

  lemma StillBacked(t: Tables, t': Tables, f: int)
    requires InodesKept(t, t') && SlotBacked(t, f)
    ensures SlotBacked(t', f)
  {}

  lemma DupedBacked(w: World, oldfd: nat, newfd: nat)
    requires Wf(w) && Backed(w) && newfd < MAX_FD_PER_PROC
    ensures Backed(Duped(w, oldfd, newfd))
  {
    hide ListWf, Queued, RunWf, TablesWf, FileFreed, FileIncremented, Backed, InodesKept;
    Ranges(w);
    MappedHasInode(w, oldfd, newfd);
    var g := w.ps[w.cur].files[newfd];
    if g == NIL || Mapped(w, w.tables, newfd) >= 0 {
      var t := if g == NIL then w.tables else FileFreed(w.tables, g);
      var f := Mapped(w, t, oldfd);
      if f < 0 {
        BackedCarries(w, w.(tables := t));
      } else {
        FreedKept(t, f);
        KeptTwice(w.tables, t, FileIncremented(t, f));
        StillBacked(t, FileIncremented(t, f), f);
        BackedChange(w, FileIncremented(t, f), w.cur, newfd, f);
      }
    }
  }

  lemma ForkedBacked(w: World, c: int)
    requires Wf(w) && Backed(w) && 0 <= c < |w.ps| && !w.ps[c].valid && InRange(w)
    requires ForkedInto(w, c).tables == IncrementedAll(w.tables, w.ps[w.cur].files)
    ensures Backed(Scheduled(ForkedInto(w, c)))
  {
    hide ListWf, Queued, RunWf, TablesWf, ForkedInto, IncrementedAll, InodesKept, SlotsBacked, Picked;
    ForkedChanges(w, c);
    AllKept(w.tables, w.ps[w.cur].files);
    var w1 := ForkedInto(w, c);
    forall p | 0 <= p < |w1.ps| ensures SlotsBacked(w1.tables, w1.ps[p].files) {
      KeptBacks(w.tables, w1.tables, w.ps[if p == c then w.cur else p].files);
    }
  }

  lemma LoadedBacked(w: World, l: Lookup, stackSize: nat, programSize: nat)
    requires Wf(w) && Backed(w)
    ensures Backed(Loaded(w, l, stackSize, programSize))
  {
    hide ListWf, Queued, RunWf, TablesWf, FileOpened, FileFreed, Allocated, Backed, InodesKept, SlotBacked;
    Ranges(w);
    OpenedKept(w.tables, l, None);
    match FileOpened(w.tables, l, None)
    case (t, None) => BackedCarries(w, w.(tables := t));
    case (t, Some(f)) =>
      FreedKept(t, f);
      KeptTwice(w.tables, t, FileFreed(t, f));
      BackedCarries(w, Loaded(w, l, stackSize, programSize));
  }

  lemma DestroyedBacked(w: World, p: int)
    requires Wf(w) && Backed(w) && 0 <= p < |w.ps| && p != w.first && InRange(w)
    requires Destroyed(w, p).tables == FreedAll(w.tables, w.ps[p].files)
    ensures Backed(Destroyed(w, p))
  {
    hide ListWf, Queued, RunWf, TablesWf, Destroyed, FreedAll, Backed, InodesKept;
    DestroyedChanges(w, p);
    AllKept(w.tables, w.ps[p].files);
    BackedCarries(w, Destroyed(w, p));
  }
}
