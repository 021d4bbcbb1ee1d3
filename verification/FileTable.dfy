/** The tables of open files and inode entries, updated in place and proved against the functions of module
    Descriptors. */
module FileTables {
  import opened Common
  import opened Processes
  import opened Descriptors

  class FileTable {
    const files: array<FileObject>
    const inodes: array<Inode>

    ghost function Table(): Tables
      reads files, inodes
    {
      Tables(files[..], inodes[..])
    }

    constructor ()
      ensures fresh(files) && fresh(inodes) && Shape(Table())
      ensures forall f :: 0 <= f < MAX_OPEN_FILES ==> files[f] == FileObject(0, NIL)
      ensures forall n :: 0 <= n < NUM_INODES ==> inodes[n] == Inode(0, 0, 0)
    {
      files := new FileObject[MAX_OPEN_FILES](_ => FileObject(0, NIL));
      inodes := new Inode[NUM_INODES](_ => Inode(0, 0, 0));
    }

    /** inode_allocate: the first entry with count 0, or NULL. */
    method InodeAllocate() returns (n: int)
      requires Shape(Table())
      modifies inodes
      ensures Table() == InodeAllocated(old(Table())).0
      ensures match InodeAllocated(old(Table())).1 case None => n == NIL case Some(i) => n == i
    {
      var i := 0;
      while i < NUM_INODES
        modifies {}
        invariant 0 <= i <= NUM_INODES
        invariant forall j :: 0 <= j < i ==> !FreeEntry(inodes[..][j])
      {
        if inodes[i].count == 0 {
          assert FreeEntry(inodes[..][i]);
          break;
        }
        i := i + 1;
      }
      if i == NUM_INODES {
        return NIL;
      }
      ghost var was := inodes[..];
      inodes[i] := inodes[i].(count := 1);
      assert inodes[..] == was[i := was[i].(count := 1)];
      n := i;
    }

    /** file_special, while an inode entry is free: the C code does not check for one. */
    method FileSpecial(which: nat)
      requires Shape(Table()) && which < MAX_OPEN_FILES && InodeAllocated(Table()).1.Some?
      modifies files, inodes
      ensures Table() == Special(old(Table()), which)
    {
      hide InodeAllocated;
      var n := InodeAllocate();
      ghost var t1 := Table();
      inodes[n] := inodes[n].(number := which);
      inodes[n] := inodes[n].(count := 1);
      files[which] := files[which].(count := 1);
      files[which] := files[which].(inode := n);
      assert inodes[..] == t1.inodes[n := t1.inodes[n].(count := 1, number := which)];
      assert files[..] == t1.files[which := FileObject(1, n)];
    }

    /** inode_find_existing: the first entry with this identity, or NULL. */
    method InodeFindExisting(sb: int, number: int) returns (n: int)
      requires Shape(Table())
      ensures match FindFrom(inodes[..], Identity(sb, number), 0) case None => n == NIL case Some(i) => n == i
    {
      n := 0;
      while n < NUM_INODES
        invariant 0 <= n <= NUM_INODES
        invariant forall j :: 0 <= j < n ==> !Identity(sb, number)(inodes[..][j])
      {
        if inodes[n].sb == sb && inodes[n].number == number {
          assert Identity(sb, number)(inodes[..][n]);
          return;
        }
        n := n + 1;
      }
      n := NIL;
    }

    /** inode_free; -1 for an entry that is free already. */
    method InodeFree(n: nat) returns (r: int)
      requires Shape(Table()) && n < NUM_INODES
      modifies inodes
      ensures Table() == InodeFreed(old(Table()), n)
      ensures r == if old(inodes[n].count) == 0 then -1 else 0
    {
      if inodes[n].count == 0 {
        return -1;
      }
      ghost var was := inodes[..];
      inodes[n] := inodes[n].(count := inodes[n].count - 1);
      if inodes[n].count == 0 {
        inodes[n] := Inode(POISON, POISON, POISON);
        inodes[n] := inodes[n].(count := 0);
      }
      assert inodes[..] == was[n := inodes[n]];
      return 0;
    }

    /** inode_lookup_and_alloc, for the given answers of superblock_lookup and lookup_inode. */
    method InodeLookupAndAlloc(l: Lookup) returns (n: int)
      requires Shape(Table())
      modifies inodes
      ensures Table() == LookedUp(old(Table()), l).0
      ensures match LookedUp(old(Table()), l).1 case None => n < 0 case Some(i) => n == i
    {
      hide InodeFreed, InodeAllocated, Identity;
      var temp := InodeAllocate();
      if temp == NIL {
        return -ENOMEM;
      }
      match l {
        case NoMount => return -ENOENT;
        case NotFound =>
          var r := InodeFree(temp);
          return -ENOENT;
        case Found(sb, number) =>
          ghost var t1 := Table();
          inodes[temp] := Inode(inodes[temp].count, number, sb);
          AllocatedOnce(old(Table()));
          assert Table() == t1.(inodes := t1.inodes[temp := Inode(1, number, sb)]);
          n := InodeFindExisting(sb, number);
          if n == NIL {
            n := temp;
          } else {
            ghost var t2 := Table();
            inodes[n] := inodes[n].(count := inodes[n].count + 1);
            assert Table() == t2.(inodes := t2.inodes[n := t2.inodes[n].(count := t2.inodes[n].count + 1)]);
            var r := InodeFree(temp);
          }
      }
    }

    /** files_increment_count, for a file object in use. */
    method FilesIncrementCount(f: nat)
      requires Shape(Table()) && f < MAX_OPEN_FILES && files[f].inode != NIL
      modifies files, inodes
      ensures Table() == FileIncremented(old(Table()), f)
    {
      ghost var was := Table();
      files[f] := files[f].(count := files[f].count + 1);
      var n := files[f].inode;
      inodes[n] := inodes[n].(count := inodes[n].count + 1);
      assert files[..] == was.files[f := files[f]];
      assert inodes[..] == was.inodes[n := inodes[n]];
    }

    /** file_object_free: the inode's reference first, then the object's own. */
    method FileObjectFree(f: nat) returns (r: int)
      requires Shape(Table()) && f < MAX_OPEN_FILES
      modifies files, inodes
      ensures Table() == FileFreed(old(Table()), f) && r == 0
    {
      hide InodeFreed;
      ghost var was := Table();
      if files[f].inode != NIL {
        r := InodeFree(files[f].inode);
      }
      if files[f].count != 0 {
        files[f] := files[f].(count := files[f].count - 1);
      }
      assert files[..] == was.files[f := files[f]];
      r := 0;
    }

    /** file_object_allocate: the first object with count 0. */
    method FileObjectAllocate(inode: nat) returns (f: int)
      requires Shape(Table()) && inode < NUM_INODES
      modifies files
      ensures Table() == FileAllocated(old(Table()), inode).0
      ensures match FileAllocated(old(Table()), inode).1 case None => f == -ENFILE case Some(i) => f == i
    {
      ghost var was := files[..];
      var index := 0;
      while true
        modifies {}
        invariant 0 <= index < MAX_OPEN_FILES
        invariant forall j :: 0 <= j < index ==> !FreeObject(files[..][j])
        decreases MAX_OPEN_FILES - index
      {
        if files[index].count == 0 {
          assert FreeObject(files[..][index]);
          break;
        }
        index := index + 1;
        if index >= MAX_OPEN_FILES {
          return -ENFILE;
        }
      }
      files[index] := FileObject(1, inode);
      assert files[..] == was[index := FileObject(1, inode)];
      return index;
    }

    /** create_file_object, for the given answers of the file system. */
    method CreateFileObject(c: Creation) returns (n: int)
      requires Shape(Table())
      modifies inodes
      ensures Table() == Created(old(Table()), c).0
      ensures match Created(old(Table()), c).1 case None => n < 0 case Some(i) => n == i
    {
      hide LookedUp, InodeAllocated, InodeFreed;
      var dir := InodeLookupAndAlloc(c.dir);
      if dir < 0 {
        return dir;
      }
      n := InodeAllocate();
      if n == NIL {
        return -ENOMEM;
      }
      match c.made {
        case None => return -1;
        case Some((number, sb)) =>
          ghost var t := Table();
          inodes[n] := inodes[n].(number := number, sb := sb);
          assert Table() == t.(inodes := t.inodes[n := t.inodes[n].(number := number, sb := sb)]);
      }
      if !c.linked {
        return -1;
      }
      var r := InodeFree(dir);
    }

    /** open_file_object; `c` is None without O_CREAT. */
    method OpenFileObject(l: Lookup, c: Option<Creation>) returns (f: int)
      requires Shape(Table())
      modifies files, inodes
      ensures Table() == FileOpened(old(Table()), l, c).0
      ensures match FileOpened(old(Table()), l, c).1 case None => f < 0 case Some(i) => f == i
    {
      hide LookedUp, Created, FileAllocated;
      var inode := InodeLookupAndAlloc(l);
      if inode < 0 {
        match c {
          case None => return -ENOENT;
          case Some(creation) =>
            inode := CreateFileObject(creation);
            if inode < 0 {
              return inode;
            }
        }
      }
      f := FileObjectAllocate(inode);
    }
  }
}
