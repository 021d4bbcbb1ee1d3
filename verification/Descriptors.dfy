/** Open-file objects and inode entries with their reference counts. Both are static tables, so pointers into them
    are indices. What the file systems do behind sb_ops is opaque: its outcome is a parameter, and it leaves the
    counts alone. */
module Descriptors {
  import opened Common
  import opened Processes

  const MAX_OPEN_FILES := 64
  const NUM_INODES := 64

  /** memset(inode,'V',...) as an int32_t. */
  const POISON := 0x5656_5656

  datatype FileObject = FileObject(count: nat, inode: int)

  datatype Inode = Inode(count: nat, number: int, sb: int)

  datatype Tables = Tables(files: seq<FileObject>, inodes: seq<Inode>)

  /** What superblock_lookup and sb_ops.lookup_inode answer for one path. */
  datatype Lookup = NoMount | NotFound | Found(sb: int, number: int)

  /** What sb_ops answers while a missing file is being created. */
  datatype Creation = Creation(dir: Lookup, made: Option<(int, int)>, linked: bool)

  // ---------------------------------------------------------------- counting references

  /** File descriptor slots of a valid block that point to file object f. */
  function PcbRefs(p: Pcb, f: int): nat {
    if p.valid then multiset(p.files)[f] else 0
  }

  /** Slots, over all valid blocks, that point to file object f. */
  function SlotRefs(ps: seq<Pcb>, f: int): nat {
    if ps == [] then 0 else PcbRefs(ps[0], f) + SlotRefs(ps[1..], f)
  }

  function Contribution(g: FileObject, n: int): nat {
    if g.inode == n then g.count else 0
  }

  /** The counts of the file objects that use inode entry n, added up. */
  function InodeRefs(files: seq<FileObject>, n: int): nat {
    if files == [] then 0 else Contribution(files[0], n) + InodeRefs(files[1..], n)
  }

  /** Counted references to a file object beyond those its slots account for. */
  function FileExcess(ps: seq<Pcb>, files: seq<FileObject>, f: int): int
    requires 0 <= f < |files|
  {
    files[f].count - SlotRefs(ps, f)
  }

  /** Counted references to an inode entry beyond those its file objects account for. */
  function InodeExcess(t: Tables, n: int): int
    requires 0 <= n < |t.inodes|
  {
    t.inodes[n].count - InodeRefs(t.files, n)
  }

  ghost predicate Shape(t: Tables) {
    && |t.files| == MAX_OPEN_FILES
    && |t.inodes| == NUM_INODES
    && forall f :: 0 <= f < |t.files| ==> t.files[f].inode == NIL || 0 <= t.files[f].inode < NUM_INODES
  }

  /** A file object in use has an inode, and no inode entry is counted fewer times than it is used. */
  ghost predicate InodesSafe(t: Tables) {
    && Shape(t)
    && (forall f :: 0 <= f < MAX_OPEN_FILES && t.files[f].count > 0 ==> t.files[f].inode != NIL)
    && forall n :: 0 <= n < NUM_INODES ==> InodeExcess(t, n) >= 0
  }

  /** Every descriptor slot is NULL or points into the table of file objects. */
  ghost predicate SlotsInRange(ps: seq<Pcb>) {
    forall p :: 0 <= p < |ps| ==>
      && |ps[p].files| == MAX_FD_PER_PROC
      && forall d :: 0 <= d < MAX_FD_PER_PROC ==> ps[p].files[d] == NIL || 0 <= ps[p].files[d] < MAX_OPEN_FILES
  }

  /** Each count equals the number of references, in both layers. */
  ghost predicate Conserved(ps: seq<Pcb>, t: Tables) {
    && InodesSafe(t)
    && SlotsInRange(ps)
    && (forall f :: 0 <= f < MAX_OPEN_FILES ==> FileExcess(ps, t.files, f) == 0)
    && (forall n :: 0 <= n < NUM_INODES ==> InodeExcess(t, n) == 0)
  }

  /** No file object and no inode entry is counted fewer times than it is referred to; leaked references are allowed. */
  ghost predicate Safe(ps: seq<Pcb>, t: Tables) {
    && InodesSafe(t)
    && SlotsInRange(ps)
    && forall f :: 0 <= f < MAX_OPEN_FILES ==> FileExcess(ps, t.files, f) >= 0
  }

  lemma {:induction false} SlotRefsUpdate(ps: seq<Pcb>, i: nat, p: Pcb, f: int)
    requires i < |ps|
    ensures SlotRefs(ps[i := p], f) == SlotRefs(ps, f) - PcbRefs(ps[i], f) + PcbRefs(p, f)
    ensures SlotRefs(ps, f) >= PcbRefs(ps[i], f)
    decreases |ps|
  {
    var after := ps[i := p];
    if i == 0 {
      assert after[1..] == ps[1..];
    } else {
      SlotRefsUpdate(ps[1..], i - 1, p, f);
      assert after[1..] == ps[1..][i - 1 := p];
    }
  }

  lemma {:induction false} SlotRefsSame(ps: seq<Pcb>, qs: seq<Pcb>, f: int)
    requires |ps| == |qs|
    requires forall i :: 0 <= i < |ps| ==> PcbRefs(qs[i], f) == PcbRefs(ps[i], f)
    ensures SlotRefs(qs, f) == SlotRefs(ps, f)
    decreases |ps|
  {
    if ps != [] {
      SlotRefsSame(ps[1..], qs[1..], f);
    }
  }

  lemma {:induction false} InodeRefsUpdate(files: seq<FileObject>, j: nat, g: FileObject, n: int)
    requires j < |files|
    ensures InodeRefs(files[j := g], n) == InodeRefs(files, n) - Contribution(files[j], n) + Contribution(g, n)
    ensures InodeRefs(files, n) >= Contribution(files[j], n)
    decreases |files|
  {
    var after := files[j := g];
    if j == 0 {
      assert after[1..] == files[1..];
    } else {
      InodeRefsUpdate(files[1..], j - 1, g, n);
      assert after[1..] == files[1..][j - 1 := g];
    }
  }

  lemma LiveFileHasInode(t: Tables, f: nat)
    requires InodesSafe(t) && f < MAX_OPEN_FILES && t.files[f].count > 0
    ensures t.inodes[t.files[f].inode].count >= t.files[f].count
  {
    var n := t.files[f].inode;
    InodeRefsUpdate(t.files, f, t.files[f], n);
    assert InodeExcess(t, n) >= 0;
  }

  /** With safe counts a slot of a valid block points to a live file object, and that to a live inode entry:
      no descriptor dangles. */
  lemma OpenSlotIsLive(ps: seq<Pcb>, t: Tables, p: nat, d: nat)
    requires Safe(ps, t) && p < |ps| && ps[p].valid && d < MAX_FD_PER_PROC && ps[p].files[d] != NIL
    ensures t.files[ps[p].files[d]].count > 0
    ensures t.inodes[t.files[ps[p].files[d]].inode].count > 0
  {
    var f := ps[p].files[d];
    SlotRefsUpdate(ps, p, ps[p], f);
    assert FileExcess(ps, t.files, f) >= 0;
    LiveFileHasInode(t, f);
  }

  // ---------------------------------------------------------------- inode entries

  function FreeEntry(i: Inode): bool {
    i.count == 0
  }

  function Identity(sb: int, number: int): Inode -> bool {
    (i: Inode) => i.sb == sb && i.number == number
  }

  function FreeObject(g: FileObject): bool {
    g.count == 0
  }

  function InodeAllocated(t: Tables): (r: (Tables, Option<nat>))
    requires Shape(t)
    ensures r.1.None? ==> r.0 == t
    ensures Shape(r.0) && r.0.files == t.files && (r.1.Some? ==> r.1.value < NUM_INODES)
  {
    match FindFrom(t.inodes, FreeEntry, 0)
    case None => (t, None)
    case Some(n) => (t.(inodes := t.inodes[n := t.inodes[n].(count := 1)]), Some(n))
  }

  /** file_special: a standard descriptor's file object, with an inode entry of its own. */
  function Special(t: Tables, which: nat): (r: Tables)
    requires Shape(t) && which < MAX_OPEN_FILES && InodeAllocated(t).1.Some?
    ensures Shape(r)
  {
    var (t1, n) := InodeAllocated(t);
    Tables(t1.files[which := FileObject(1, n.value)],
           t1.inodes[n.value := t1.inodes[n.value].(count := 1, number := which)])
  }

  /** inode_free; the entry is poisoned once its count reaches 0. */
  function InodeFreed(t: Tables, n: nat): (r: Tables)
    requires n < |t.inodes|
    ensures r.files == t.files && |r.inodes| == |t.inodes|
  {
    var i := t.inodes[n];
    if i.count == 0 then t
    else if i.count == 1 then t.(inodes := t.inodes[n := Inode(0, POISON, POISON)])
    else t.(inodes := t.inodes[n := i.(count := i.count - 1)])
  }

  /** inode_lookup_and_alloc: a temporary entry, the file system's answer, then the first entry with the same
      identity. */
  function LookedUp(t: Tables, l: Lookup): (r: (Tables, Option<nat>))
    requires Shape(t)
    ensures Shape(r.0) && r.0.files == t.files && (r.1.Some? ==> r.1.value < NUM_INODES)
  {
    match InodeAllocated(t)
    case (_, None) => (t, None)
    case (t1, Some(temp)) =>
      match l
      case NoMount => (t1, None)
      case NotFound => (InodeFreed(t1, temp), None)
      case Found(sb, number) =>
        var t2 := t1.(inodes := t1.inodes[temp := Inode(1, number, sb)]);
        match FindFrom(t2.inodes, Identity(sb, number), 0)
        case None => (t2, Some(temp))
        case Some(n) =>
          var t3 := t2.(inodes := t2.inodes[n := t2.inodes[n].(count := t2.inodes[n].count + 1)]);
          (InodeFreed(t3, temp), Some(n))
  }

  /** create_file_object. Its error returns keep the references taken so far. */
  function Created(t: Tables, c: Creation): (r: (Tables, Option<nat>))
    requires Shape(t)
    ensures Shape(r.0) && r.0.files == t.files && (r.1.Some? ==> r.1.value < NUM_INODES)
  {
    match LookedUp(t, c.dir)
    case (t1, None) => (t1, None)
    case (t1, Some(dir)) =>
      match InodeAllocated(t1)
      case (_, None) => (t1, None)
      case (t2, Some(n)) =>
        if c.made.None? then (t2, None)
        else
          var t3 := t2.(inodes := t2.inodes[n := t2.inodes[n].(number := c.made.value.0, sb := c.made.value.1)]);
          if c.linked then (InodeFreed(t3, dir), Some(n)) else (t3, None)
  }

  // ---------------------------------------------------------------- file objects

  /** files_increment_count, for a file object that has an inode. */
  function FileIncremented(t: Tables, f: nat): (r: Tables)
    requires Shape(t) && f < MAX_OPEN_FILES
    ensures Shape(r)
  {
    var g := t.files[f];
    var files := t.files[f := g.(count := g.count + 1)];
    if g.inode == NIL then Tables(files, t.inodes)
    else
      var i := t.inodes[g.inode];
      Tables(files, t.inodes[g.inode := i.(count := i.count + 1)])
  }

  /** file_object_free: the inode first, then the object's own count, which stops at 0. */
  function FileFreed(t: Tables, f: nat): (r: Tables)
    requires Shape(t) && f < MAX_OPEN_FILES
    ensures Shape(r)
  {
    var g := t.files[f];
    var t1 := if g.inode == NIL then t else InodeFreed(t, g.inode);
    if g.count == 0 then t1 else t1.(files := t1.files[f := g.(count := g.count - 1)])
  }

  function FileAllocated(t: Tables, n: nat): (r: (Tables, Option<nat>))
    requires Shape(t) && n < NUM_INODES
    ensures Shape(r.0) && (r.1.Some? ==> r.1.value < MAX_OPEN_FILES)
  {
    match FindFrom(t.files, FreeObject, 0)
    case None => (t, None)
    case Some(f) => (t.(files := t.files[f := FileObject(1, n)]), Some(f))
  }

  /** open_file_object; `c` is None without O_CREAT. */
  function FileOpened(t: Tables, l: Lookup, c: Option<Creation>): (r: (Tables, Option<nat>))
    requires Shape(t)
    ensures Shape(r.0) && (r.1.Some? ==> r.1.value < MAX_OPEN_FILES)
  {
    var (t1, found) := LookedUp(t, l);
    var (t2, inode) := if found.None? && c.Some? then Created(t1, c.value) else (t1, found);
    if inode.None? then (t2, None) else FileAllocated(t2, inode.value)
  }

  // ---------------------------------------------------------------- what each operation does to the counts

  /** t' counts inode entry n `delta` more times than t and every other entry as often; file objects are untouched. */
  ghost predicate InodeMoved(t: Tables, t': Tables, n: int, delta: int) {
    && t'.files == t.files
    && |t'.inodes| == |t.inodes|
    && forall k :: 0 <= k < |t.inodes| ==> t'.inodes[k].count == t.inodes[k].count + if k == n then delta else 0
  }

  lemma MovedKeepsSafe(t: Tables, t': Tables, n: int, delta: int)
    requires InodesSafe(t) && InodeMoved(t, t', n, delta)
    requires 0 <= n < NUM_INODES ==> InodeExcess(t, n) + delta >= 0
    ensures InodesSafe(t')
    ensures forall k :: 0 <= k < NUM_INODES ==> InodeExcess(t', k) == InodeExcess(t, k) + if k == n then delta else 0
  {
    forall k | 0 <= k < NUM_INODES
      ensures InodeExcess(t', k) == InodeExcess(t, k) + if k == n then delta else 0
      ensures InodeExcess(t', k) >= 0
    {
      assert InodeExcess(t, k) >= 0;
    }
  }

  lemma InodeAllocatedMoves(t: Tables)
    requires InodesSafe(t)
    ensures match InodeAllocated(t)
            case (t', None) => t' == t
            case (t', Some(n)) => n < NUM_INODES && InodeMoved(t, t', n, 1) && InodesSafe(t') && InodeExcess(t', n) >= 1
  {
    match InodeAllocated(t)
    case (_, None) =>
    case (t', Some(n)) => MovedKeepsSafe(t, t', n, 1);
  }

  lemma InodeFreedMoves(t: Tables, n: nat)
    requires InodesSafe(t) && n < NUM_INODES && InodeExcess(t, n) >= 1
    ensures InodeMoved(t, InodeFreed(t, n), n, -1) && InodesSafe(InodeFreed(t, n))
  {
    MovedKeepsSafe(t, InodeFreed(t, n), n, -1);
  }

  lemma AllocatedOnce(t: Tables)
    requires Shape(t)
    ensures match InodeAllocated(t) case (t', Some(n)) => t'.inodes[n].count == 1 case _ => true
  {}

  /** The path was found: the entry with its identity gains a reference and the temporary one loses its only one. */
  lemma FoundMoves(t: Tables, t1: Tables, temp: nat, sb: int, number: int)
    requires InodesSafe(t) && InodesSafe(t1) && temp < NUM_INODES && InodeMoved(t, t1, temp, 1)
    requires t1.inodes[temp].count == 1 && InodeExcess(t1, temp) >= 1
    ensures var t2 := t1.(inodes := t1.inodes[temp := Inode(1, number, sb)]);
            var found := FindFrom(t2.inodes, Identity(sb, number), 0);
            && found.Some?
            && var n := found.value;
               var t' := InodeFreed(t2.(inodes := t2.inodes[n := t2.inodes[n].(count := t2.inodes[n].count + 1)]),
                                    temp);
               n < NUM_INODES && InodeMoved(t, t', n, 1) && InodesSafe(t') && InodeExcess(t', n) >= 1
  {
    hide InodeFreed, FindFrom, InodeRefs;
    var t2 := t1.(inodes := t1.inodes[temp := Inode(1, number, sb)]);
    assert t2.inodes[temp].sb == sb && t2.inodes[temp].number == number;
    var n := FindFrom(t2.inodes, Identity(sb, number), 0).value;
    var t3 := t2.(inodes := t2.inodes[n := t2.inodes[n].(count := t2.inodes[n].count + 1)]);
    MovedKeepsSafe(t1, t2, NIL, 0);
    MovedKeepsSafe(t2, t3, n, 1);
    InodeFreedMoves(t3, temp);
    MovedKeepsSafe(t, InodeFreed(t3, temp), n, 1);
  }

  /** A lookup that succeeds leaves exactly one more reference, on the entry it returns; one that fails leaves none,
      except that a path under no mount keeps the temporary entry. */
  lemma LookedUpMoves(t: Tables, l: Lookup)
    requires InodesSafe(t)
    ensures match LookedUp(t, l)
            case (t', Some(n)) =>
              l.Found? && n < NUM_INODES && InodeMoved(t, t', n, 1) && InodesSafe(t') && InodeExcess(t', n) >= 1
            case (t', None) =>
              && InodesSafe(t')
              && if l.NoMount? && InodeAllocated(t).1.Some? then InodeMoved(t, t', InodeAllocated(t).1.value, 1)
                 else InodeMoved(t, t', NIL, 0)
  {
    hide InodeAllocated, InodeFreed, FindFrom, InodeRefs;
    InodeAllocatedMoves(t);
    match InodeAllocated(t)
    case (_, None) =>
    case (t1, Some(temp)) =>
      AllocatedOnce(t);
      match l {
        case NoMount =>
        case NotFound =>
          InodeFreedMoves(t1, temp);
        case Found(sb, number) =>
          FoundMoves(t, t1, temp, sb, number);
      }
  }

  /** Some inode entry has a reference more that nothing accounts for, and none has fewer; file objects are
      untouched. */
  ghost predicate Leaks(t: Tables, t': Tables) {
    && t'.files == t.files && InodesSafe(t') && |t.inodes| == NUM_INODES
    && (forall n :: 0 <= n < NUM_INODES ==> InodeExcess(t', n) >= InodeExcess(t, n))
    && exists n :: 0 <= n < NUM_INODES && InodeExcess(t', n) > InodeExcess(t, n)
  }

  lemma MovedLeaks(t: Tables, t': Tables, n: int)
    requires InodesSafe(t) && InodeMoved(t, t', n, 1) && 0 <= n < NUM_INODES
    ensures Leaks(t, t')
  {
    MovedKeepsSafe(t, t', n, 1);
    assert InodeExcess(t', n) > InodeExcess(t, n);
  }

  lemma LeaksTwice(t: Tables, t1: Tables, t2: Tables)
    requires Leaks(t, t1) && (Leaks(t1, t2) || (InodesSafe(t2) && InodeMoved(t1, t2, NIL, 0)))
    ensures Leaks(t, t2)
  {
    hide InodeExcess;
    if !Leaks(t1, t2) {
      MovedKeepsSafe(t1, t2, NIL, 0);
    }
    var n :| 0 <= n < NUM_INODES && InodeExcess(t1, n) > InodeExcess(t, n);
    assert InodeExcess(t2, n) > InodeExcess(t, n);
  }

  /** The guards of create_file_object's error returns: nothing is lost when no inode entry is free, when the
      directory does not exist, or when an entry is left for the file and the file system makes and links it. */
  predicate CreateConserves(t: Tables, c: Creation)
    requires Shape(t)
  {
    || InodeAllocated(t).1.None?
    || c.dir.NotFound?
    || (c.dir.Found? && InodeAllocated(LookedUp(t, c.dir).0).1.Some? && c.made.Some? && c.linked)
  }

  lemma LookupNeedsEntry(t: Tables, l: Lookup)
    requires Shape(t)
    ensures LookedUp(t, l).1.Some? <==> l.Found? && InodeAllocated(t).1.Some?
    ensures InodeAllocated(t).1.None? ==> LookedUp(t, l).0 == t
  {}

  lemma EntryInRange(t: Tables)
    requires Shape(t) && InodeAllocated(t).1.Some?
    ensures InodeAllocated(t).1.value < NUM_INODES
  {}

  /** The second half of creating a file, with its directory's entry held. */
  lemma MadeMoves(t: Tables, t1: Tables, dir: nat, c: Creation)
    requires InodesSafe(t) && InodesSafe(t1) && LookedUp(t, c.dir) == (t1, Some(dir)) && dir < NUM_INODES
    requires c.dir.Found? && InodeAllocated(t).1.Some?
    requires InodeMoved(t, t1, dir, 1) && Leaks(t, t1) && InodeExcess(t1, dir) >= 1
    ensures match Created(t, c)
            case (t', Some(n)) =>
              && CreateConserves(t, c)
              && n < NUM_INODES && InodeMoved(t, t', n, 1) && InodesSafe(t') && InodeExcess(t', n) >= 1
            case (t', None) => !CreateConserves(t, c) && Leaks(t, t') && t'.files == t.files && InodesSafe(t')
  {
    hide LookedUp, InodeAllocated, InodeFreed, Leaks;
    InodeAllocatedMoves(t1);
    match InodeAllocated(t1)
    case (_, None) =>
    case (t2, Some(n)) =>
      MovedLeaks(t1, t2, n);
      LeaksTwice(t, t1, t2);
      if c.made.Some? {
        var t3 := t2.(inodes := t2.inodes[n := t2.inodes[n].(number := c.made.value.0, sb := c.made.value.1)]);
        MovedKeepsSafe(t2, t3, NIL, 0);
        LeaksTwice(t, t2, t3);
        if c.linked {
          InodeFreedMoves(t3, dir);
          MovedKeepsSafe(t, InodeFreed(t3, dir), n, 1);
        }
      }
  }

  /** Creating a file never takes a reference away; it leaves exactly the one on the new entry when it succeeds,
      and none or too many, by its guards, when it fails. */
  lemma CreatedMoves(t: Tables, c: Creation)
    requires InodesSafe(t)
    ensures match Created(t, c)
            case (t', Some(n)) =>
              && CreateConserves(t, c) && c.dir.Found? && InodeAllocated(t).1.Some?
              && n < NUM_INODES && InodeMoved(t, t', n, 1) && InodesSafe(t') && InodeExcess(t', n) >= 1
            case (t', None) =>
              && t'.files == t.files && InodesSafe(t')
              && if CreateConserves(t, c) then (c.dir.NotFound? || InodeAllocated(t).1.None?)
                && InodeMoved(t, t', NIL, 0)
                 else Leaks(t, t')
  {
    hide LookedUp, InodeAllocated, InodeFreed, InodeExcess, Leaks;
    LookedUpMoves(t, c.dir);
    LookupNeedsEntry(t, c.dir);
    match LookedUp(t, c.dir)
    case (t1, None) =>
      if c.dir.NoMount? && InodeAllocated(t).1.Some? {
        EntryInRange(t);
        MovedLeaks(t, t1, InodeAllocated(t).1.value);
      }
    case (t1, Some(dir)) =>
      MovedLeaks(t, t1, dir);
      MadeMoves(t, t1, dir, c);
  }

  /** Only file object f changes, by `delta` references, and the inode layer stays exactly as balanced as it was. */
  ghost predicate FileMoved(t: Tables, t': Tables, f: int, delta: int) {
    && Shape(t) && Shape(t')
    && (forall k :: 0 <= k < MAX_OPEN_FILES ==> t'.files[k].count == t.files[k].count + if k == f then delta else 0)
    && (forall k :: 0 <= k < MAX_OPEN_FILES && t.files[k].count > 0 ==> t'.files[k].inode == t.files[k].inode)
    && (forall n :: 0 <= n < NUM_INODES ==> InodeExcess(t', n) == InodeExcess(t, n))
  }

  lemma FileIncrementedMoves(t: Tables, f: nat)
    requires InodesSafe(t) && f < MAX_OPEN_FILES && t.files[f].count > 0
    ensures FileMoved(t, FileIncremented(t, f), f, 1) && InodesSafe(FileIncremented(t, f))
  {
    var g := t.files[f];
    forall n | 0 <= n < NUM_INODES ensures InodeExcess(FileIncremented(t, f), n) == InodeExcess(t, n) {
      InodeRefsUpdate(t.files, f, g.(count := g.count + 1), n);
    }
  }

  lemma FileFreedMoves(t: Tables, f: nat)
    requires InodesSafe(t) && f < MAX_OPEN_FILES && t.files[f].count > 0
    ensures FileMoved(t, FileFreed(t, f), f, -1) && InodesSafe(FileFreed(t, f))
  {
    var g := t.files[f];
    LiveFileHasInode(t, f);
    forall n | 0 <= n < NUM_INODES ensures InodeExcess(FileFreed(t, f), n) == InodeExcess(t, n) {
      InodeRefsUpdate(t.files, f, g.(count := g.count - 1), n);
    }
  }

  /** A file object taken for inode entry n uses up one of that entry's unaccounted references. */
  lemma FileAllocatedMoves(t: Tables, n: nat)
    requires InodesSafe(t) && n < NUM_INODES && InodeExcess(t, n) >= 1
    ensures match FileAllocated(t, n)
            case (t', None) => t' == t
            case (t', Some(f)) =>
              && f < MAX_OPEN_FILES && t.files[f].count == 0 && InodesSafe(t')
              && t'.files == t.files[f := FileObject(1, n)]
              && forall k :: 0 <= k < NUM_INODES ==> InodeExcess(t', k) == InodeExcess(t, k) - if k == n then 1 else 0
  {
    match FileAllocated(t, n)
    case (_, None) =>
    case (t', Some(f)) =>
      forall k | 0 <= k < NUM_INODES
        ensures InodeExcess(t', k) == InodeExcess(t, k) - if k == n then 1 else 0
        ensures InodeExcess(t', k) >= 0
      {
        InodeRefsUpdate(t.files, f, FileObject(1, n), k);
        assert InodeExcess(t, k) >= 0;
      }
  }

  /** The guards under which opening loses nothing: no inode entry is free, or the file is found and a file object is
      free, or it is not found and is not to be created, or its creation loses nothing and ends with a free file
      object. */
  predicate OpenConserves(t: Tables, l: Lookup, c: Option<Creation>)
    requires Shape(t)
  {
    || InodeAllocated(t).1.None?
    || (l.Found? && FindFrom(t.files, FreeObject, 0).Some?)
    || (l.NotFound?
        && (c.None? || (CreateConserves(LookedUp(t, l).0, c.value)
                        && (c.value.dir.Found? ==> FindFrom(t.files, FreeObject, 0).Some?))))
  }

  /** Every inode entry is at least as far from its references as it was, and some further. */
  ghost predicate Unaccounted(t: Tables, t': Tables) {
    && Shape(t) && Shape(t')
    && exists n :: 0 <= n < NUM_INODES && InodeExcess(t', n) > InodeExcess(t, n)
  }

  /** A file object for an inode entry that has just gained one reference. */
  lemma AllocatedFileMoves(t: Tables, t1: Tables, n: nat)
    requires InodesSafe(t) && InodesSafe(t1) && n < NUM_INODES && InodeMoved(t, t1, n, 1) && InodeExcess(t1, n) >= 1
    ensures match FileAllocated(t1, n)
            case (t', Some(f)) =>
              && FindFrom(t.files, FreeObject, 0).Some?
              && f < MAX_OPEN_FILES && t.files[f].count == 0 && InodesSafe(t')
              && t'.files == t.files[f := t'.files[f]] && t'.files[f].count == 1
              && FileMoved(t, t', f, 1)
            case (t', None) => FindFrom(t.files, FreeObject, 0).None? && t' == t1 && Unaccounted(t, t')
  {
    MovedKeepsSafe(t, t1, n, 1);
    FileAllocatedMoves(t1, n);
    assert InodeExcess(t1, n) > InodeExcess(t, n);
  }

  /** Creation after a lookup that has already lost a reference. */
  lemma LostAnyway(t: Tables, t1: Tables, c: Creation)
    requires InodesSafe(t) && InodesSafe(t1) && Leaks(t, t1)
    ensures var (t2, made) := Created(t1, c);
            var (t', f) := if made.None? then (t2, made) else FileAllocated(t2, made.value);
            && InodesSafe(t') && Unaccounted(t, t')
            && if f.None? then t'.files == t.files
               else f.value < MAX_OPEN_FILES && t.files[f.value].count == 0
                    && t'.files == t.files[f.value := t'.files[f.value]] && t'.files[f.value].count == 1
  {
    hide Created, FileAllocated, CreateConserves;
    CreatedMoves(t1, c);
    var n :| 0 <= n < NUM_INODES && InodeExcess(t1, n) > InodeExcess(t, n);
    match Created(t1, c)
    case (t2, None) =>
      if InodeMoved(t1, t2, NIL, 0) {
        MovedKeepsSafe(t1, t2, NIL, 0);
      }
      assert InodeExcess(t2, n) > InodeExcess(t, n);
    case (t2, Some(k)) =>
      MovedKeepsSafe(t1, t2, k, 1);
      AllocatedFileMoves(t1, t2, k);
      assert InodeExcess(FileAllocated(t2, k).0, n) > InodeExcess(t, n);
  }

  /** A lookup that finds nothing leaves the entry it tried free. */
  lemma EntryLeft(t: Tables, l: Lookup)
    requires Shape(t) && l.NotFound? && InodeAllocated(t).1.Some?
    ensures InodeAllocated(LookedUp(t, l).0).1.Some?
  {
    var n := InodeAllocated(t).1.value;
    assert FreeEntry(LookedUp(t, l).0.inodes[n]);
  }

  lemma NoEntryConserves(t: Tables, c: Creation)
    requires Shape(t) && InodeAllocated(t).1.None?
    ensures CreateConserves(t, c)
  {}

  /** Creation after a lookup that found nothing and kept nothing. */
  lemma CreatedAfterLookup(t: Tables, t1: Tables, l: Lookup, c: Creation)
    requires InodesSafe(t) && InodesSafe(t1) && LookedUp(t, l) == (t1, None) && InodeMoved(t, t1, NIL, 0)
    requires l.NotFound? || InodeAllocated(t).1.None?
    ensures var (t2, made) := Created(t1, c);
            match (if made.None? then (t2, made) else FileAllocated(t2, made.value))
            case (t', Some(f)) =>
              && f < MAX_OPEN_FILES && t.files[f].count == 0 && InodesSafe(t')
              && t'.files == t.files[f := t'.files[f]] && t'.files[f].count == 1
              && FileMoved(t, t', f, 1) && OpenConserves(t, l, Some(c))
            case (t', None) =>
              && t'.files == t.files && InodesSafe(t')
              && if OpenConserves(t, l, Some(c)) then InodeMoved(t, t', NIL, 0) else Unaccounted(t, t')
  {
    hide LookedUp, Created, FileAllocated, InodeAllocated, CreateConserves;
    CreatedMoves(t1, c);
    LookupNeedsEntry(t, l);
    if InodeAllocated(t).1.None? {
      NoEntryConserves(t, c);
    } else {
      EntryLeft(t, l);
    }
    MovedKeepsSafe(t, t1, NIL, 0);
    match Created(t1, c)
    case (t2, None) =>
      if CreateConserves(t1, c) {
        MovedKeepsSafe(t1, t2, NIL, 0);
      } else {
        var n :| 0 <= n < NUM_INODES && InodeExcess(t2, n) > InodeExcess(t1, n);
        assert InodeExcess(t2, n) > InodeExcess(t, n);
      }
    case (t2, Some(k)) =>
      assert InodeMoved(t, t2, k, 1);
      AllocatedFileMoves(t, t2, k);
  }

  /** Opening takes one reference of each layer when it succeeds; inode references are left over exactly when its
      guards fail, and are never missing. */
  lemma FileOpenedMoves(t: Tables, l: Lookup, c: Option<Creation>)
    requires InodesSafe(t)
    ensures match FileOpened(t, l, c)
            case (t', Some(f)) =>
              && f < MAX_OPEN_FILES && t.files[f].count == 0 && InodesSafe(t')
              && t'.files == t.files[f := t'.files[f]] && t'.files[f].count == 1
              && (if OpenConserves(t, l, c) then FileMoved(t, t', f, 1) else Unaccounted(t, t'))
              && (c.None? ==> OpenConserves(t, l, c) && l.Found?)
            case (t', None) =>
              && t'.files == t.files && InodesSafe(t')
              && if OpenConserves(t, l, c) then InodeMoved(t, t', NIL, 0) else Unaccounted(t, t')
  {
    hide LookedUp, Created, FileAllocated, InodeAllocated, CreateConserves, InodeExcess;
    LookedUpMoves(t, l);
    LookupNeedsEntry(t, l);
    var (t1, found) := LookedUp(t, l);
    match found
    case Some(n) => AllocatedFileMoves(t, t1, n);
    case None =>
      if l.NoMount? && InodeAllocated(t).1.Some? {
        EntryInRange(t);
        MovedLeaks(t, t1, InodeAllocated(t).1.value);
        if c.Some? {
          LostAnyway(t, t1, c.value);
        }
      } else if c.Some? {
        CreatedAfterLookup(t, t1, l, c.value);
      }
  }

  // ---------------------------------------------------------------- all descriptors of one process

  ghost predicate SlotValues(fds: seq<int>) {
    forall d :: 0 <= d < |fds| ==> fds[d] == NIL || 0 <= fds[d] < MAX_OPEN_FILES
  }

  /** The loop of vfork that counts the descriptors the child shares with its parent. */
  function {:induction false} IncrementedAll(t: Tables, fds: seq<int>): (r: Tables)
    requires Shape(t) && SlotValues(fds)
    ensures Shape(r)
    decreases |fds|
  {
    if fds == [] then t
    else
      var t1 := IncrementedAll(t, fds[..|fds| - 1]);
      if Last(fds) == NIL then t1 else FileIncremented(t1, Last(fds))
  }

  /** The loop of process_destroy that closes every descriptor. */
  function {:induction false} FreedAll(t: Tables, fds: seq<int>): (r: Tables)
    requires Shape(t) && SlotValues(fds)
    ensures Shape(r)
    decreases |fds|
  {
    if fds == [] then t
    else
      var t1 := FreedAll(t, fds[..|fds| - 1]);
      if Last(fds) == NIL then t1 else FileFreed(t1, Last(fds))
  }

  /** Each file object moves by `sign` times the slots that name it, and the inode layer stays exactly as balanced as
      it was. */
  ghost predicate AllMoved(t: Tables, t': Tables, fds: seq<int>, sign: int) {
    && Shape(t) && Shape(t')
    && (forall f :: 0 <= f < MAX_OPEN_FILES ==> t'.files[f].count == t.files[f].count + sign * multiset(fds)[f])
    && (forall n :: 0 <= n < NUM_INODES ==> InodeExcess(t', n) == InodeExcess(t, n))
  }

  lemma LastOccurrence(fds: seq<int>)
    requires fds != []
    ensures forall f :: multiset(fds)[f] == multiset(fds[..|fds| - 1])[f] + if f == Last(fds) then 1 else 0
  {
    assert fds == fds[..|fds| - 1] + [Last(fds)];
  }

  lemma {:induction false} IncrementedAllMoves(t: Tables, fds: seq<int>)
    requires InodesSafe(t) && SlotValues(fds)
    requires forall d :: 0 <= d < |fds| && fds[d] != NIL ==> t.files[fds[d]].count > 0
    ensures AllMoved(t, IncrementedAll(t, fds), fds, 1) && InodesSafe(IncrementedAll(t, fds))
    decreases |fds|
  {
    if fds != [] {
      var front := fds[..|fds| - 1];
      IncrementedAllMoves(t, front);
      LastOccurrence(fds);
      var f := fds[|fds| - 1];
      if f != NIL {
        assert t.files[f].count > 0;
        FileIncrementedMoves(IncrementedAll(t, front), f);
      }
    }
  }

  lemma {:induction false} FreedAllMoves(t: Tables, fds: seq<int>)
    requires InodesSafe(t) && SlotValues(fds)
    requires forall f :: 0 <= f < MAX_OPEN_FILES ==> t.files[f].count >= multiset(fds)[f]
    ensures AllMoved(t, FreedAll(t, fds), fds, -1) && InodesSafe(FreedAll(t, fds))
    decreases |fds|
  {
    if fds != [] {
      var front := fds[..|fds| - 1];
      LastOccurrence(fds);
      FreedAllMoves(t, front);
      var f := fds[|fds| - 1];
      if f != NIL {
        FileFreedMoves(FreedAll(t, front), f);
      }
    }
  }
}
