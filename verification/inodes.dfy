// The inode table and directory tree of the synthetic file system (fs.h, fs.c), as
// values. A file object is identified with its inode number.
module Inodes {
  import opened Text

  const INVALID_INO: nat := 0
  const ROOT_INO: nat := 1

  datatype Kind = NONE | REGULAR | SYMLINK | DIRECTORY

  // inoFiles and nmFiles are a directory's two hash tables. A file whose kind is NONE
  // has been freed; its slot still points to it.
  datatype File = File(name: string, ino: nat, dir: nat, kind: Kind,
                       inoFiles: set<nat>, nmFiles: map<string, nat>)

  const FREED := File("", INVALID_INO, INVALID_INO, NONE, {}, map[])

  // ino_table (the file and next fields of its slots), ino_freelist, ino_numfree.
  datatype Table = Table(files: seq<Option<File>>, next: seq<Option<nat>>, freelist: Option<nat>, numfree: int)

  ghost predicate Sized(t: Table) { |t.files| == |t.next| >= 2 }

  predicate Live(files: seq<Option<File>>, i: nat) {
    i < |files| && files[i].Some? && files[i].value.kind != NONE
  }

  predicate IsDir(files: seq<Option<File>>, i: nat) {
    Live(files, i) && files[i].value.kind == DIRECTORY
  }

  // ---- Operations ----

  // init_inotable
  function InitTable(n: nat): Table {
    Table(seq(n, i => None), seq(n, i => if i + 1 < n then Some(i + 1) else None), Some(0), n)
  }

  // inoalloc; None where the source stops: an exhausted table (grow_inotable), or a slot
  // that still has a file.
  function Alloc(t: Table): Option<(Table, nat)>
    requires |t.files| == |t.next|
  {
    match t.freelist
    case None => None
    case Some(i) =>
      if i >= |t.next| || t.files[i].Some? then None
      else Some((t.(freelist := t.next[i], next := t.next[i := None], numfree := t.numfree - 1), i))
  }

  // inofree
  function Free(t: Table, i: nat): Table
    requires i < |t.next|
  {
    t.(next := t.next[i := t.freelist], freelist := Some(i), numfree := t.numfree + 1)
  }

  // dir_add: both indexes or none; the callers ignore which.
  function DirAdd(files: seq<Option<File>>, d: nat, i: nat, name: string): seq<Option<File>>
    requires d < |files| && files[d].Some?
  {
    var dir := files[d].value;
    if i in dir.inoFiles || name in dir.nmFiles then files
    else files[d := Some(dir.(inoFiles := dir.inoFiles + {i}, nmFiles := dir.nmFiles[name := i]))]
  }

  // fsCreatedir and fsCreatefile in an existing directory.
  function Create(t: Table, d: nat, name: string, kind: Kind): Option<(Table, nat)>
    requires |t.files| == |t.next| && IsDir(t.files, d)
  {
    match Alloc(t)
    case None => None
    case Some((t1, i)) =>
      var item := File(name, i, d, kind, {}, map[]);
      Some((t1.(files := DirAdd(t1.files, d, i, name)[i := Some(item)]), i))
  }

  // fsCreate: inode 0 is reserved, inode 1 is the root.
  function Mount(n: nat): Table
    requires n >= 2
  {
    Table(seq(n, i => if i == ROOT_INO then Some(File(".", ROOT_INO, INVALID_INO, DIRECTORY, {}, map[])) else None),
          seq(n, i => if 1 < i < n - 1 then Some(i + 1) else None),
          if n > 2 then Some(2) else None, n - 2)
  }

  // The item leaves its directory and its slot (fs.c:256-284).
  function Detach(files: seq<Option<File>>, i: nat): seq<Option<File>>
    requires Live(files, i) && files[i].value.dir < i
    requires i != ROOT_INO ==> files[files[i].value.dir].Some?
  {
    var item := files[i].value;
    if i == ROOT_INO then files[i := Some(FREED)]
    else
      var d := files[item.dir].value;
      var d' := d.(inoFiles := d.inoFiles - {i}, nmFiles := d.nmFiles - {item.name});
      files[item.dir := Some(d')][i := Some(FREED)]
  }

  // Every item is in a directory with a smaller inode.
  ghost predicate Ordered(files: seq<Option<File>>) {
    forall i | 0 <= i < |files| && Live(files, i) ::
      files[i].value.dir < i && (i != ROOT_INO ==> files[files[i].value.dir].Some?)
  }

  // fsRemoveitem
  function Remove(t: Table, i: nat, purge: bool): (r: (Table, bool))
    requires |t.files| == |t.next| && Ordered(t.files) && Live(t.files, i)
    ensures |r.0.files| == |t.files| && |r.0.next| == |t.next|
    decreases i
  {
    var item := t.files[i].value;
    if item.kind == DIRECTORY && item.inoFiles != {} then (t, false)
    else
      var t1 := Free(t.(files := Detach(t.files, i)), i);
      var d := item.dir;
      if i != ROOT_INO && purge && Live(t1.files, d) && t1.files[d].value.inoFiles == {} then
        (Remove(t1, d, purge).0, true)
      else (t1, true)
  }

  // The scan of fsCleanup (fs.c:769-778); None when it reads a freed file.
  function Scan(t: Table, i: nat, removed: nat): (r: Option<(Table, nat)>)
    requires |t.files| == |t.next| && Ordered(t.files) && i <= |t.files|
    ensures r.Some? ==> |r.value.0.files| == |r.value.0.next| == |t.next|
    decreases |t.files| - i
  {
    if i == |t.files| then Some((t, removed))
    else if t.files[i].None? then Scan(t, i + 1, removed)
    else if t.files[i].value.kind == NONE then None
    else
      OrderedRemove(t, i, true);
      Scan(Remove(t, i, true).0, i + 1, removed + 1)
  }

  // fsCleanup: the scan, then inode 0.
  function Cleanup(t: Table): Option<(Table, nat)>
    requires |t.files| == |t.next| >= 2 && Ordered(t.files)
  {
    match Scan(t, 0, 0)
    case None => None
    case Some((t1, removed)) => Some((Free(t1, INVALID_INO), removed + 1))
  }

  // fs_fuse_lookup
  function Lookup(t: Table, d: nat, name: string): Option<nat>
    requires d < |t.files| == |t.next| && t.files[d].Some?
  {
    if t.next[d].Some? || t.files[d].value.kind != DIRECTORY then None
    else
      var dir := t.files[d].value;
      if name in dir.nmFiles then Some(dir.nmFiles[name]) else None
  }

  lemma {:induction false} OrderedRemove(t: Table, i: nat, purge: bool)
    requires |t.files| == |t.next| && Ordered(t.files) && Live(t.files, i)
    ensures Ordered(Remove(t, i, purge).0.files)
    decreases i
  {
    var item := t.files[i].value;
    if !(item.kind == DIRECTORY && item.inoFiles != {}) {
      var t1 := Free(t.(files := Detach(t.files, i)), i);
      var d := item.dir;
      if i != ROOT_INO && purge && Live(t1.files, d) && t1.files[d].value.inoFiles == {} {
        OrderedRemove(t1, d, purge);
      }
    }
  }
}
