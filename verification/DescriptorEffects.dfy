/** What the operations on file objects and inode entries do, field by field: which entry a lookup answers, which
    object an open takes, and what counting and freeing change. */
module DescriptorEffects {
  import opened Common
  import opened Processes
  import opened Descriptors

  /** A lookup that finds a file answers the first entry in use for that very file; without a free entry it fails. */
  lemma LookupAnswers(t: Tables, sb: int, number: int)
    requires Shape(t)
    ensures match LookedUp(t, Found(sb, number))
            case (t', Some(n)) =>
              && t'.inodes[n].sb == sb && t'.inodes[n].number == number && t'.inodes[n].count > 0
              && (forall k :: 0 <= k < n ==> !(t'.inodes[k].sb == sb && t'.inodes[k].number == number))
              && exists k :: 0 <= k < NUM_INODES && t.inodes[k].count == 0
            case (t', None) => t' == t && forall k :: 0 <= k < NUM_INODES ==> t.inodes[k].count > 0
  {
    if InodeAllocated(t).1.Some? {
      var t1, temp := InodeAllocated(t).0, InodeAllocated(t).1.value;
      var t2 := t1.(inodes := t1.inodes[temp := Inode(1, number, sb)]);
      assert Identity(sb, number)(t2.inodes[temp]);
      var n := FindFrom(t2.inodes, Identity(sb, number), 0).value;
      assert n <= temp;
      assert t.inodes[temp].count == 0;
    }
  }

  /** Nothing but an entry that was free, or that the lookup found, changes in a lookup. */
  lemma LookupSpares(t: Tables, l: Lookup)
    requires Shape(t)
    ensures var (t', n) := LookedUp(t, l);
            && t'.files == t.files
            && (n.Some? ==> l.Found?)
            && forall k :: 0 <= k < NUM_INODES && t.inodes[k].count > 0 && Some(k) != n ==> t'.inodes[k] == t.inodes[k]
  {}

  /** A file that was created sits in an entry of its own, with the number and superblock it was given. */
  lemma CreationAnswers(t: Tables, c: Creation)
    requires Shape(t)
    ensures var (t', n) := Created(t, c);
            && t'.files == t.files
            && (n.Some? ==>
                  && c.dir.Found? && c.made.Some? && c.linked
                  && t'.inodes[n.value].number == c.made.value.0 && t'.inodes[n.value].sb == c.made.value.1
                  && t'.inodes[n.value].count == 1)
  {
    hide LookedUp;
    LookupSpares(t, c.dir);
    if c.dir.Found? { LookupAnswers(t, c.dir.sb, c.dir.number); }
  }

  lemma NothingCreated(t: Tables, c: Creation)
    requires Shape(t) && forall k :: 0 <= k < NUM_INODES ==> t.inodes[k].count > 0
    ensures Created(t, c) == (t, None)
  {}

  /** The first file object that is not in use is taken for the inode entry. */
  lemma AllocationAnswers(t: Tables, n: nat)
    requires Shape(t) && n < NUM_INODES
    ensures match FileAllocated(t, n)
            case (t', Some(f)) =>
              && t.files[f].count == 0 && (forall k :: 0 <= k < f ==> t.files[k].count > 0)
              && t'.files[f].count == 1 && t'.files[f].inode == n
              && (forall k :: 0 <= k < MAX_OPEN_FILES && k != f ==> t'.files[k] == t.files[k]) && t'.inodes == t.inodes
            case (t', None) => t' == t && forall k :: 0 <= k < MAX_OPEN_FILES ==> t.files[k].count > 0
  {}

  /** The entry behind file object f is in use for the file that the lookup found, or for the one that was created. */
  ghost predicate HoldsFile(t: Tables, f: nat, l: Lookup, c: Option<Creation>) {
    && f < |t.files| && 0 <= t.files[f].inode < |t.inodes|
    && var i := t.inodes[t.files[f].inode];
       && i.count > 0
       && if l.Found? then i.sb == l.sb && i.number == l.number
          else c.Some? && c.value.made.Some? && i.number == c.value.made.value.0 && i.sb == c.value.made.value.1
  }

  /** Opening answers the first free file object, for the file that was asked for, and changes no other file object. */
  lemma OpenAnswers(t: Tables, l: Lookup, c: Option<Creation>)
    requires Shape(t)
    ensures match FileOpened(t, l, c)
            case (t', Some(f)) =>
              && t.files[f].count == 0 && (forall k :: 0 <= k < f ==> t.files[k].count > 0)
              && t'.files[f].count == 1 && HoldsFile(t', f, l, c)
              && forall k :: 0 <= k < MAX_OPEN_FILES && k != f ==> t'.files[k] == t.files[k]
            case (t', None) => t'.files == t.files
  {
    hide LookedUp, Created, FileAllocated;
    LookupSpares(t, l);
    if l.Found? { LookupAnswers(t, l.sb, l.number); }
    var (t1, found) := LookedUp(t, l);
    if found.Some? {
      AllocationAnswers(t1, found.value);
    } else if c.Some? {
      if l.Found? { NothingCreated(t1, c.value); }
      CreationAnswers(t1, c.value);
      var (t2, inode) := Created(t1, c.value);
      if inode.Some? { AllocationAnswers(t2, inode.value); }
    }
  }

  /** An existing file is opened exactly when an inode entry and a file object are free; a missing one is not, unless
      it is created. */
  lemma OpenSucceedsIff(t: Tables, l: Lookup)
    requires Shape(t)
    ensures FileOpened(t, l, None).1.Some? <==>
              && l.Found?
              && (exists k :: 0 <= k < NUM_INODES && t.inodes[k].count == 0)
              && exists k :: 0 <= k < MAX_OPEN_FILES && t.files[k].count == 0
  {
    hide LookedUp, FileAllocated;
    LookupSpares(t, l);
    if l.Found? {
      LookupAnswers(t, l.sb, l.number);
      var (t1, found) := LookedUp(t, l);
      if found.Some? { AllocationAnswers(t1, found.value); }
    }
  }

  /** Giving a file object back: one reference less on it and on its inode entry, nothing else. */
  lemma FreeLowers(t: Tables, f: nat)
    requires Shape(t) && f < MAX_OPEN_FILES && t.files[f].count > 0
    ensures var t', n := FileFreed(t, f), t.files[f].inode;
            && t'.files[f].count == t.files[f].count - 1 && t'.files[f].inode == n
            && (forall k :: 0 <= k < MAX_OPEN_FILES && k != f ==> t'.files[k] == t.files[k])
            && (forall k :: 0 <= k < NUM_INODES && k != n ==> t'.inodes[k] == t.inodes[k])
            && (n != NIL && t.inodes[n].count > 0 ==> t'.inodes[n].count == t.inodes[n].count - 1)
            && (n != NIL && t.inodes[n].count > 1 ==>
                  t'.inodes[n].sb == t.inodes[n].sb && t'.inodes[n].number == t.inodes[n].number)
  {}

  /** An entry that its last reference leaves answers no lookup any more: both numbers that identify its file are
      overwritten. */
  lemma LastReferenceForgets(t: Tables, n: nat)
    requires n < |t.inodes| && t.inodes[n].count == 1
    ensures var t' := InodeFreed(t, n);
            && t'.inodes[n].count == 0 && t'.inodes[n].sb == 0x5656_5656 && t'.inodes[n].number == 0x5656_5656
            && t'.files == t.files && forall k :: 0 <= k < |t.inodes| && k != n ==> t'.inodes[k] == t.inodes[k]
  {}

  /** Counting a file object: one reference more on it and on its inode entry, nothing else. */
  lemma CountRaises(t: Tables, f: nat)
    requires Shape(t) && f < MAX_OPEN_FILES
    ensures var t', n := FileIncremented(t, f), t.files[f].inode;
            && t'.files[f].count == t.files[f].count + 1 && t'.files[f].inode == n
            && (forall k :: 0 <= k < MAX_OPEN_FILES && k != f ==> t'.files[k] == t.files[k])
            && (forall k :: 0 <= k < NUM_INODES && k != n ==> t'.inodes[k] == t.inodes[k])
            && (n != NIL ==>
                  && t'.inodes[n].count == t.inodes[n].count + 1
                  && t'.inodes[n].sb == t.inodes[n].sb && t'.inodes[n].number == t.inodes[n].number)
  {}
}
