// fs_t (fs.h, fs.c): the inode table and the directories, updated in place. The two
// arrays are the file and next fields of ino_table.
module Fs {
  import opened Text
  import opened Inodes
  import opened FsInv

  const YARFS_FILES := ["pid", "cmds", "lcmds", "ttys", "bcst"]

  ghost function Names(l: seq<nat>, k: nat): map<string, nat>
    requires k <= |l| && k <= |YARFS_FILES|
  {
    if k == 0 then map[] else Names(l, k - 1)[YARFS_FILES[k - 1] := l[k - 1]]
  }

  lemma AllNames(l: seq<nat>)
    requires |l| >= 5
    ensures Names(l, 5) == map["pid" := l[0], "cmds" := l[1], "lcmds" := l[2], "ttys" := l[3], "bcst" := l[4]]
  {
    assert Names(l, 1) == map["pid" := l[0]];
    assert Names(l, 2) == map["pid" := l[0], "cmds" := l[1]];
    assert Names(l, 3) == map["pid" := l[0], "cmds" := l[1], "lcmds" := l[2]];
    assert Names(l, 4) == map["pid" := l[0], "cmds" := l[1], "lcmds" := l[2], "ttys" := l[3]];
  }

  lemma NameNew(l: seq<nat>, k: nat)
    requires k < |l| && k < |YARFS_FILES|
    ensures YARFS_FILES[k] !in Names(l, k)
  {
    NamesOf(l, k);
  }

  lemma {:induction false} NamesOf(l: seq<nat>, k: nat)
    requires k <= |l| && k <= |YARFS_FILES|
    ensures forall n | n in Names(l, k) :: exists j :: 0 <= j < k && n == YARFS_FILES[j]
  {
    if k > 0 { NamesOf(l, k - 1); }
  }

  class Fs {
    const files: array<Option<File>>
    const next: array<Option<nat>>
    var freelist: Option<nat>
    var numfree: int

    ghost predicate Shaped() {
      files.Length == next.Length && files.Length >= 2
    }

    ghost function View(): Table
      reads this, files, next
    {
      Table(files[..], next[..], freelist, numfree)
    }

    // init_inotable, for a table of n slots.
    constructor (n: nat)
      requires n >= 2
      ensures Shaped() && View() == InitTable(n) && fresh(files) && fresh(next)
    {
      files := new Option<File>[n](_ => None);
      next := new Option<nat>[n](_ => None);
      freelist, numfree := Some(0), n;
      new;
      for i := 0 to n - 1
        invariant forall j | 0 <= j < i :: next[j] == Some(j + 1)
        invariant forall j | i <= j < n :: next[j] == None
        invariant forall j | 0 <= j < n :: files[j] == None
        invariant freelist == Some(0) && numfree == n
      {
        files[i] := None;
        next[i] := Some(i + 1);
      }
      assert files[..] == InitTable(n).files;
      assert next[..] == InitTable(n).next;
    }

    // inoalloc; None where the source stops.
    method Inoalloc() returns (ino: Option<nat>)
      requires Shaped()
      modifies `freelist, `numfree, next
      ensures ino.Some? <==> Alloc(old(View())).Some?
      ensures ino.Some? ==> Alloc(old(View())) == Some((View(), ino.value))
    {
      if freelist.None? { return None; }
      var id := freelist.value;
      if id >= next.Length || files[id].Some? { return None; }
      ghost var was := View();
      freelist := next[id];
      next[id] := None;
      numfree := numfree - 1;
      ino := Some(id);
      assert View() == Alloc(was).value.0;
    }

    // inofree
    method Inofree(ino: nat)
      requires Shaped() && ino < next.Length
      modifies `freelist, `numfree, next
      ensures View() == Inodes.Free(old(View()), ino)
    {
      ghost var was := View();
      next[ino] := freelist;
      freelist := Some(ino);
      numfree := numfree + 1;
      assert View() == Inodes.Free(was, ino);
    }

    // dir_add
    method DirAdd(d: nat, ino: nat, name: string) returns (added: bool)
      requires Shaped() && d < files.Length && files[d].Some?
      modifies files
      ensures files[..] == Inodes.DirAdd(old(files[..]), d, ino, name)
      ensures added <==> ino !in old(files[d].value.inoFiles) && name !in old(files[d].value.nmFiles)
    {
      var dir := files[d].value;
      if ino in dir.inoFiles { return false; }
      if name in dir.nmFiles { return false; }
      files[d] := Some(dir.(inoFiles := dir.inoFiles + {ino}, nmFiles := dir.nmFiles[name := ino]));
      added := true;
    }

    // fsCreatedir and fsCreatefile: the result of dir_add is not looked at.
    method CreateItem(d: nat, name: string, kind: Kind) returns (ino: Option<nat>)
      requires Shaped() && IsDir(files[..], d)
      modifies this, files, next
      ensures ino.Some? <==> Create(old(View()), d, name, kind).Some?
      ensures ino.Some? ==> Create(old(View()), d, name, kind) == Some((View(), ino.value))
      ensures ino.Some? ==> ino.value < files.Length && files[ino.value] == Some(File(name, ino.value, d, kind, {}, map[]))
    {
      ghost var was := View();
      ino := Inoalloc();
      if ino.Some? {
        var added := DirAdd(d, ino.value, name);
        files[ino.value] := Some(File(name, ino.value, d, kind, {}, map[]));
        assert View() == Create(was, d, name, kind).value.0;
      }
    }

    // A call of fsCreatefile on the root, while there is room.
    method RootFile(name: string, ghost l: seq<nat>)
      requires Shaped() && Inv(View(), l) && Building(View(), l) && l != []
      requires IsDir(files[..], ROOT_INO) && name !in files[ROOT_INO].value.nmFiles
      modifies this, files, next
      ensures Inv(View(), l[1..]) && Building(View(), l[1..]) && IsDir(files[..], ROOT_INO)
      ensures files[ROOT_INO].value.nmFiles == old(files[ROOT_INO].value.nmFiles)[name := l[0]]
      ensures l[0] < files.Length && files[l[0]] == Some(File(name, l[0], ROOT_INO, REGULAR, {}, map[]))
      ensures forall j | 0 <= j < files.Length && j != l[0] && j != ROOT_INO :: files[j] == old(files[j])
    {
      hide Inv, Building, Create;
      CreateInRoot(View(), l, name, REGULAR);
      var item := CreateItem(ROOT_INO, name, REGULAR);
      assert item.Some?;
    }

    // The first k of those inodes are empty regular files of the root, under their names,
    // and the root lists them alone.
    ghost predicate Made(l: seq<nat>, k: nat)
      reads files
    {
      && k <= |l| && k <= |YARFS_FILES| && files.Length > ROOT_INO && files[ROOT_INO].Some?
      && files[ROOT_INO].value.nmFiles == Names(l, k)
      && forall j | 0 <= j < k ::
           l[j] < files.Length && files[l[j]] == Some(File(YARFS_FILES[j], l[j], ROOT_INO, REGULAR, {}, map[]))
    }

    method NextFile(k: nat, ghost l: seq<nat>)
      requires Shaped() && k < |YARFS_FILES| && k < |l| && Ascending(l) && Made(l, k)
      requires Inv(View(), l[k..]) && Building(View(), l[k..])
      requires IsDir(files[..], ROOT_INO)
      modifies this, files, next
      ensures Inv(View(), l[k + 1..]) && Building(View(), l[k + 1..]) && IsDir(files[..], ROOT_INO)
      ensures Made(l, k + 1)
    {
      NameNew(l, k);
      hide Inv, Building;
      assert l[k..][1..] == l[k + 1..];
      RootFile(YARFS_FILES[k], l[k..]);
    }

    // yarfsCreate: five regular files, with the next five inodes.
    method YarfsCreate(ghost l: seq<nat>)
      requires Shaped() && Inv(View(), l) && Building(View(), l) && |l| >= 5
      requires IsDir(files[..], ROOT_INO) && files[ROOT_INO].value.nmFiles == map[]
      modifies this, files, next
      ensures Inv(View(), l[5..]) && Building(View(), l[5..]) && IsDir(files[..], ROOT_INO)
      ensures files[ROOT_INO].value.nmFiles ==
        map["pid" := l[0], "cmds" := l[1], "lcmds" := l[2], "ttys" := l[3], "bcst" := l[4]]
      ensures forall k | 0 <= k < 5 :: l[k] < files.Length && files[l[k]].Some? && files[l[k]].value.kind == REGULAR
      ensures Made(l, 5)
    {
      InOrder(View(), l);
      NoneMade(l);
      assert l[0..] == l;
      hide *;
      Files(l);
      AllMade(l);
    }

    method Files(ghost l: seq<nat>)
      requires Shaped() && |l| >= 5 && Ascending(l) && Inv(View(), l[0..]) && Building(View(), l[0..])
      requires IsDir(files[..], ROOT_INO) && Made(l, 0) && |YARFS_FILES| == 5
      modifies this, files, next
      ensures Inv(View(), l[5..]) && Building(View(), l[5..]) && IsDir(files[..], ROOT_INO) && Made(l, 5)
    {
      hide *;
      NextFile(0, l);
      NextFile(1, l);
      NextFile(2, l);
      NextFile(3, l);
      NextFile(4, l);
    }

    lemma NoneMade(l: seq<nat>)
      requires files.Length > ROOT_INO && files[ROOT_INO].Some? && files[ROOT_INO].value.nmFiles == map[]
      ensures Made(l, 0)
      ensures |YARFS_FILES| == 5
    {}

    lemma AllMade(l: seq<nat>)
      requires Made(l, 5)
      ensures files.Length > ROOT_INO && files[ROOT_INO].Some? && files[ROOT_INO].value.nmFiles ==
        map["pid" := l[0], "cmds" := l[1], "lcmds" := l[2], "ttys" := l[3], "bcst" := l[4]]
      ensures forall k | 0 <= k < 5 :: l[k] < files.Length && files[l[k]].Some? && files[l[k]].value.kind == REGULAR
    {
      AllNames(l);
      hide Names;
    }

    // fs_fuse_lookup
    method FuseLookup(d: nat, name: string) returns (ino: Option<nat>)
      requires Shaped() && d < files.Length && files[d].Some?
      ensures ino == Lookup(View(), d, name)
    {
      if next[d].Some? || files[d].value.kind != DIRECTORY { return None; }
      var dir := files[d].value;
      if name in dir.nmFiles { ino := Some(dir.nmFiles[name]); } else { ino := None; }
    }

    // fs.c:255-274: out of both indexes of its directory, and off the inode table.
    method Unlink(ino: nat, ghost l: seq<nat>)
      requires Shaped() && Inv(View(), l) && Removable(files[..], ino)
      modifies this, files, next
      ensures View() == Taken(old(View()), ino)
    {
      ghost var was := View();
      var item := files[ino].value;
      assert ItemOK(files[..], ino);
      if ino != ROOT_INO {
        var d := files[item.dir].value;
        IndexesAgree(files[..], item.dir);
        assert |d.inoFiles| == |d.nmFiles| && |d.inoFiles| > 0;
        assert item.ino in d.inoFiles && d.nmFiles[item.name] == ino;
        files[item.dir] := Some(d.(inoFiles := d.inoFiles - {ino}, nmFiles := d.nmFiles - {item.name}));
      } else {
        assert item.dir == INVALID_INO;
      }
      files[ino] := Some(FREED);
      assert files[..] == Detach(was.files, ino);
      assert was.next[ino] == None;
      Inofree(ino);
    }

    // fsRemoveitem
    method Removeitem(ino: nat, purge: bool, ghost l: seq<nat>) returns (ok: bool)
      requires Shaped() && Inv(View(), l) && Ordered(files[..]) && Live(files[..], ino)
      modifies this, files, next
      ensures (View(), ok) == Inodes.Remove(old(View()), ino, purge)
      decreases ino
    {
      ghost var was := View();
      RemoveCases(was, l, ino, purge);
      var item := files[ino].value;
      assert ItemOK(files[..], ino);
      if item.kind == DIRECTORY {
        IndexesAgree(files[..], ino);
        assert |item.inoFiles| == |item.nmFiles|;
        if |item.inoFiles| != 0 { return false; }
      }
      assert item.inoFiles == {};
      hide Inodes.Remove, Freed, Taken, Inv, Ordered;
      Unlink(ino, l);
      if ino != ROOT_INO && files[item.dir].value.inoFiles == {} && purge {
        var again := Removeitem(item.dir, purge, [ino] + l);
      }
      ok := true;
    }

    // fsCreate up to the call of yarfsCreate, on a table just initialised: inode 0 is
    // reserved, inode 1 is the root.
    method Mount()
      requires Shaped() && View() == InitTable(files.Length)
      modifies this, files, next
      ensures View() == Inodes.Mount(files.Length)
    {
      MountSteps(files.Length);
      hide InitTable, Alloc, Inodes.Mount;
      var invalid := Inoalloc();
      assert invalid == Some(INVALID_INO);
      var root := Inoalloc();
      assert root == Some(ROOT_INO);
      ghost var t := View();
      files[ROOT_INO] := Some(File(".", ROOT_INO, INVALID_INO, DIRECTORY, {}, map[]));
      assert View() == WithRoot(t);
    }

    // One iteration of the scan of fsCleanup (fs.c:771-777).
    method Visit(i: nat, removed: nat, ghost l: seq<nat>) returns (removed': nat, ghost l': seq<nat>)
      requires Shaped() && Inv(View(), l) && Ordered(files[..]) && i < files.Length
      requires Scan(View(), i, removed).Some?
      modifies this, files, next
      ensures Inv(View(), l') && Ordered(files[..])
      ensures Scan(View(), i + 1, removed') == Scan(old(View()), i, removed)
    {
      removed', l' := removed, l;
      if files[i].Some? {
        ghost var t := View();
        assert Live(t.files, i);
        hide Inv, Ordered, Live, Inodes.Remove, Freed;
        RemoveInv(t, l, i, true);
        ScanVisit(t, i, removed);
        assert t.next[i] == None by { LiveOff(t, l, i); }
        var gone := Removeitem(i, true, l);
        l' := Freed(t, i, true) + l;
        removed' := removed + 1;
      }
    }

    method ScanAll(ghost l: seq<nat>) returns (removed: nat)
      requires Shaped() && Inv(View(), l) && Ordered(files[..]) && Scan(View(), 0, 0).Some?
      modifies this, files, next
      ensures Scan(old(View()), 0, 0) == Some((View(), removed))
    {
      hide Inv, Ordered, Scan, Live, Freed, Inodes.Remove;
      ghost var was, m := View(), l;
      var i := 0;
      removed := 0;
      while i < files.Length
        invariant 0 <= i <= files.Length && Shaped() && Inv(View(), m) && Ordered(files[..])
        invariant Scan(View(), i, removed) == Scan(was, 0, 0)
      {
        removed, m := Visit(i, removed, m);
        i := i + 1;
      }
      ScanEnd(View(), removed, 0);
    }

    // fsCleanup, from a state that no removal has preceded: both final asserts hold.
    method Cleanup(ghost l: seq<nat>) returns (removed: nat)
      requires Shaped() && Inv(View(), l) && Ordered(files[..])
      requires Inodes.Cleanup(View()).Some?
      modifies this, files, next
      ensures Inodes.Cleanup(old(View())) == Some((View(), removed))
      ensures removed == files.Length - old(numfree) && numfree == files.Length
    {
      CleanupIff(View(), l);
      hide Inv, Ordered, Scan, Tree, FreeList, Parts;
      removed := ScanAll(l);
      Inofree(INVALID_INO);
      removed := removed + 1;
    }
  }
}
