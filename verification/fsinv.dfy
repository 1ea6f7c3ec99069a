// What the file system keeps: a well-formed free list, and a tree whose directories'
// two indexes agree; and what fsCleanup achieves on it.
module FsInv {
  import opened Text
  import opened Inodes

  // ---- The free list ----

  ghost predicate LinkAt(t: Table, l: seq<nat>, k: nat)
    requires k < |l|
  {
    l[k] < |t.next| && t.next[l[k]] == if k + 1 < |l| then Some(l[k + 1]) else None
  }

  // l is the list from ino_freelist: linked, without repetition, as long as ino_numfree
  // says, and made of exactly the slots that hold no live item (slot 0 is reserved).
  ghost predicate FreeList(t: Table, l: seq<nat>) {
    && t.numfree == |l|
    && t.freelist == (if l == [] then None else Some(l[0]))
    && (forall k | 0 <= k < |l| :: LinkAt(t, l, k))
    && (forall j, k | 0 <= j < k < |l| :: l[j] != l[k])
  }

  ghost predicate Parts(t: Table, l: seq<nat>) {
    && (forall i: nat | i < |t.next| :: i in l <==> !Live(t.files, i) && i != INVALID_INO)
    && (forall i: nat | i < |t.next| && i !in l :: t.next[i] == None)
  }

  // ---- The tree ----

  ghost predicate ItemOK(files: seq<Option<File>>, i: nat)
    requires Live(files, i)
  {
    var f := files[i].value;
    && f.ino == i
    && (f.kind != DIRECTORY ==> f.inoFiles == {} && f.nmFiles == map[])
    && if i == ROOT_INO then f.kind == DIRECTORY && f.dir == INVALID_INO
       else InDir(files, i, f.dir)
  }

  // Item i is in both indexes of directory d.
  ghost predicate InDir(files: seq<Option<File>>, i: nat, d: nat)
    requires Live(files, i)
  {
    && d < i && IsDir(files, d)
    && i in files[d].value.inoFiles
    && files[i].value.name in files[d].value.nmFiles
    && files[d].value.nmFiles[files[i].value.name] == i
  }

  // The indexes of directory d list only its own items, under their names.
  ghost predicate DirOK(files: seq<Option<File>>, d: nat)
    requires Live(files, d)
  {
    var f := files[d].value;
    && (forall j | j in f.inoFiles :: j != ROOT_INO && Live(files, j) && files[j].value.dir == d)
    && (forall nm | nm in f.nmFiles :: f.nmFiles[nm] in f.inoFiles && files[f.nmFiles[nm]].value.name == nm)
  }

  ghost predicate Tree(files: seq<Option<File>>) {
    && |files| >= 2 && files[INVALID_INO] == None
    && forall i: nat | Live(files, i) :: ItemOK(files, i) && DirOK(files, i)
  }

  // Nothing has been removed yet: the free slots are the last ones, in order, unused.
  ghost predicate Building(t: Table, l: seq<nat>) {
    forall k | 0 <= k < |l| :: l[k] == |t.next| - |l| + k && l[k] < |t.files| && t.files[l[k]] == None
  }

  lemma InOrder(t: Table, l: seq<nat>)
    requires Building(t, l) && Inv(t, l) && IsDir(t.files, ROOT_INO)
    ensures Ascending(l)
  {}

  ghost predicate Ascending(l: seq<nat>) {
    (forall j, k | 0 <= j < k < |l| :: l[j] < l[k]) && forall k | 0 <= k < |l| :: l[k] != ROOT_INO
  }

  // Something has been removed: the next slot to be allocated still points to it.
  ghost predicate Used(t: Table, l: seq<nat>) {
    l != [] && l[0] < |t.files| && t.files[l[0]].Some?
  }

  ghost predicate Inv(t: Table, l: seq<nat>) {
    && Sized(t) && FreeList(t, l) && Parts(t, l) && Tree(t.files)
    && (Building(t, l) || Used(t, l))
  }

  lemma TreeOrdered(files: seq<Option<File>>)
    requires Tree(files)
    ensures Ordered(files)
  {
    forall i: nat | Live(files, i) ensures files[i].value.dir < i && (i != ROOT_INO ==> files[files[i].value.dir].Some?) {
      assert ItemOK(files, i);
    }
  }

  // ---- Building ----

  // The state in which fsCreate hands over to yarfsCreate.
  lemma MountInv(n: nat)
    requires n >= 2
    ensures Inv(Mount(n), seq(n - 2, k requires 0 <= k => k + 2))
  {
    var t, l := Mount(n), seq(n - 2, k requires 0 <= k => k + 2);
    forall i: nat | i < n ensures i in l <==> !Live(t.files, i) && i != INVALID_INO {
      if i >= 2 { assert l[i - 2] == i; }
    }
    assert ItemOK(t.files, ROOT_INO) && DirOK(t.files, ROOT_INO);
  }

  // ... which is init_inotable, two allocations and the root's item.
  lemma MountSteps(n: nat)
    requires n >= 2
    ensures Alloc(InitTable(n)).Some? && Alloc(InitTable(n)).value.1 == INVALID_INO
    ensures Alloc(Alloc(InitTable(n)).value.0).Some? && Alloc(Alloc(InitTable(n)).value.0).value.1 == ROOT_INO
    ensures Mount(n) == WithRoot(Alloc(Alloc(InitTable(n)).value.0).value.0)
  {
    var t1 := Alloc(InitTable(n)).value.0;
    var t2 := Alloc(t1).value.0;
    assert t2.next == Mount(n).next;
    assert WithRoot(t2).files == Mount(n).files;
  }

  function WithRoot(t: Table): Table
    requires |t.files| >= 2
  {
    t.(files := t.files[ROOT_INO := Some(File(".", ROOT_INO, INVALID_INO, DIRECTORY, {}, map[]))])
  }

  // A new item in its directory, under a name the directory does not have.
  lemma AddTree(files: seq<Option<File>>, d: nat, i: nat, name: string, kind: Kind)
    requires Tree(files) && IsDir(files, d) && d < i < |files| && files[i] == None && kind != NONE
    requires name !in files[d].value.nmFiles
    ensures Tree(DirAdd(files, d, i, name)[i := Some(File(name, i, d, kind, {}, map[]))])
  {
    assert DirOK(files, d);
    var files' := DirAdd(files, d, i, name)[i := Some(File(name, i, d, kind, {}, map[]))];
    AddSelf(files, d, i, name, kind);
    AddDir(files, d, i, name, kind);
    assert forall k: nat | k < |files| && k != d && k != i :: files'[k] == files[k];
    hide ItemOK, DirOK;
    forall j: nat | Live(files', j) ensures ItemOK(files', j) && DirOK(files', j) {
      if j != i && j != d { AddOther(files, files', d, i, name, j); }
    }
  }

  lemma AddSelf(files: seq<Option<File>>, d: nat, i: nat, name: string, kind: Kind)
    requires Tree(files) && IsDir(files, d) && d < i < |files| && files[i] == None && kind != NONE
    requires name !in files[d].value.nmFiles
    ensures var files' := DirAdd(files, d, i, name)[i := Some(File(name, i, d, kind, {}, map[]))];
      Live(files', i) && ItemOK(files', i) && DirOK(files', i)
  {
    assert DirOK(files, d);
  }

  lemma AddDir(files: seq<Option<File>>, d: nat, i: nat, name: string, kind: Kind)
    requires Tree(files) && IsDir(files, d) && d < i < |files| && files[i] == None && kind != NONE
    requires name !in files[d].value.nmFiles
    ensures var files' := DirAdd(files, d, i, name)[i := Some(File(name, i, d, kind, {}, map[]))];
      Live(files', d) && ItemOK(files', d) && DirOK(files', d)
  {
    assert ItemOK(files, d) && DirOK(files, d);
  }

  // An item that is neither the new one nor its directory.
  lemma AddOther(files: seq<Option<File>>, files': seq<Option<File>>, d: nat, i: nat, name: string, j: nat)
    requires Tree(files) && Live(files, j) && j != d && j != i && IsDir(files, d) && name !in files[d].value.nmFiles
    requires |files'| == |files| && files'[j] == files[j] && Live(files', d) && i < |files| && files[i] == None
    requires forall k: nat | k < |files| && k != d && k != i :: files'[k] == files[k]
    requires var f := files[d].value;
      files'[d].value == f.(inoFiles := f.inoFiles + {i}, nmFiles := f.nmFiles[name := i])
    ensures ItemOK(files', j) && DirOK(files', j)
  {
    assert ItemOK(files, j) && DirOK(files, j);
    var f := files[j].value;
    forall k | k in f.inoFiles ensures Live(files', k) && files'[k].value.dir == j {
      assert Live(files, k) && files[k].value.dir == j;
    }
    forall nm | nm in f.nmFiles ensures files'[f.nmFiles[nm]].value.name == nm {
      assert Live(files, f.nmFiles[nm]);
    }
  }

  // With a name that is taken, the item ends up in no directory.
  lemma AddTaken(files: seq<Option<File>>, d: nat, i: nat, name: string, kind: Kind)
    requires Tree(files) && IsDir(files, d) && d < i < |files| && files[i] == None && kind != NONE
    requires name in files[d].value.nmFiles
    ensures !Tree(DirAdd(files, d, i, name)[i := Some(File(name, i, d, kind, {}, map[]))])
  {
    var files' := DirAdd(files, d, i, name)[i := Some(File(name, i, d, kind, {}, map[]))];
    assert DirOK(files, d);
    assert Live(files', i) && !ItemOK(files', i);
  }

  lemma AllocList(t: Table, l: seq<nat>)
    requires Inv(t, l)
    ensures Alloc(t).Some? <==> l != [] && Building(t, l)
    ensures Alloc(t).Some? ==> Alloc(t).value.1 == l[0]
    ensures Alloc(t).Some? ==> FreeList(Alloc(t).value.0, l[1..])
  {
    if l != [] {
      assert LinkAt(t, l, 0);
      FreeListTail(t, l, t.(freelist := t.next[l[0]], next := t.next[l[0] := None], numfree := t.numfree - 1));
    }
  }

  // The list is about next, not about files.
  lemma FreeListFiles(t: Table, t': Table, l: seq<nat>)
    requires FreeList(t, l) && t' == t.(files := t'.files)
    ensures FreeList(t', l)
  {
    forall k | 0 <= k < |l| ensures LinkAt(t', l, k) { assert LinkAt(t, l, k); }
  }

  lemma FreeListTail(t: Table, l: seq<nat>, t': Table)
    requires FreeList(t, l) && l != [] && l[0] < |t.next|
    requires t' == t.(freelist := t.next[l[0]], next := t.next[l[0] := None], numfree := t.numfree - 1)
    ensures FreeList(t', l[1..])
  {
    var m := l[1..];
    assert LinkAt(t, l, 0);
    forall k | 0 <= k < |m| ensures LinkAt(t', m, k) {
      assert LinkAt(t, l, k + 1);
    }
    forall j, k | 0 <= j < k < |m| ensures m[j] != m[k] {
      assert m[j] == l[j + 1] && m[k] == l[k + 1];
    }
  }

  // While building, the slots from |next| - |l| on are the free ones.
  lemma BuildingFree(t: Table, l: seq<nat>, d: nat)
    requires Building(t, l) && d < |t.next| && |l| <= |t.next|
    ensures d >= |t.next| - |l| ==> d in l
  {
    if d >= |t.next| - |l| { assert l[d - (|t.next| - |l|)] == d; }
  }

  // Creation succeeds exactly while the table has room and nothing has been removed yet;
  // and it keeps the file system well formed exactly when the name is new in its directory.
  lemma CreateIff(t: Table, l: seq<nat>, d: nat, name: string, kind: Kind)
    requires Inv(t, l) && IsDir(t.files, d) && kind != NONE
    ensures Create(t, d, name, kind).Some? <==> l != [] && Building(t, l)
    ensures Create(t, d, name, kind).Some? ==>
      (Inv(Create(t, d, name, kind).value.0, l[1..]) <==> name !in t.files[d].value.nmFiles)
  {
    AllocList(t, l);
    if l != [] && Building(t, l) {
      var i := l[0];
      assert d !in l;
      assert i == |t.next| - |l|;
      BuildingFree(t, l, d);
      var t' := Create(t, d, name, kind).value.0;
      if name in t.files[d].value.nmFiles {
        AddTaken(t.files, d, i, name, kind);
      } else {
        FreeListFiles(Alloc(t).value.0, t', l[1..]);
        AddTree(t.files, d, i, name, kind);
        CreateParts(t, l, d, name, kind);
      }
    }
  }

  lemma CreateParts(t: Table, l: seq<nat>, d: nat, name: string, kind: Kind)
    requires Inv(t, l) && IsDir(t.files, d) && kind != NONE && l != [] && Building(t, l) && d < l[0]
    ensures Create(t, d, name, kind).Some?
    ensures var t' := Create(t, d, name, kind).value.0; Parts(t', l[1..]) && Building(t', l[1..])
  {
    var i, t' := l[0], Create(t, d, name, kind).value.0;
    assert t'.next == t.next[i := None] && |t'.files| == |t.files|;
    assert Live(t'.files, i);
    assert forall j: nat | j != i :: Live(t'.files, j) == Live(t.files, j);
    assert forall k | 1 <= k < |l| :: l[k] != i && l[k] != d && t'.files[l[k]] == None;
    hide Create, Tree, DirAdd, Live;
    PartsDrop(t, t', l);
  }

  // The first free slot becomes live, the others stay as they are.
  lemma PartsDrop(t: Table, t': Table, l: seq<nat>)
    requires l != [] && FreeList(t, l) && Parts(t, l) && Building(t, l) && |t.files| == |t.next|
    requires t'.next == t.next[l[0] := None] && |t'.files| == |t.files| && Live(t'.files, l[0]) && l[0] != INVALID_INO
    requires forall j: nat | j != l[0] :: Live(t'.files, j) == Live(t.files, j)
    requires forall k | 1 <= k < |l| :: t'.files[l[k]] == None
    ensures Parts(t', l[1..]) && Building(t', l[1..])
  {
    hide Live;
    assert l == [l[0]] + l[1..];
    assert forall k | 1 <= k < |l| :: l[k] != l[0];
    forall j: nat | j < |t.next| ensures j in l[1..] <==> !Live(t'.files, j) && j != INVALID_INO {
      assert j in l <==> j == l[0] || j in l[1..];
    }
  }

  // What a creation makes: an item of the name and kind asked for, in the directory asked
  // for, and the two entries there if the name is new; no other item changes.
  lemma CreateMakes(t: Table, l: seq<nat>, d: nat, name: string, kind: Kind)
    requires Inv(t, l) && IsDir(t.files, d) && kind != NONE && Create(t, d, name, kind).Some?
    ensures var (t', i) := Create(t, d, name, kind).value;
      && !Live(t.files, i) && Live(t'.files, i) && i != d
      && t'.files[i].value.name == name && t'.files[i].value.dir == d && t'.files[i].value.ino == i
      && t'.files[i].value.kind == kind && (IsDir(t'.files, i) <==> kind == DIRECTORY)
      && t'.files[i].value.inoFiles == {} && t'.files[i].value.nmFiles == map[]
    ensures var (t', i) := Create(t, d, name, kind).value;
      && |t'.files| == |t.files| && (forall j | 0 <= j < |t.files| && j != i && j != d :: t'.files[j] == t.files[j])
      && t'.files[d].Some? && t'.files[d].value.kind == t.files[d].value.kind
      && (name !in t.files[d].value.nmFiles ==>
            t'.files[d].value == t.files[d].value.(inoFiles := t.files[d].value.inoFiles + {i},
                                                   nmFiles := t.files[d].value.nmFiles[name := i]))
  {
    CreateIff(t, l, d, name, kind);
    AllocList(t, l);
    BuildingFree(t, l, d);
    assert DirOK(t.files, d);
  }

  // A creation in the root while there is room.
  lemma CreateInRoot(t: Table, l: seq<nat>, name: string, kind: Kind)
    requires Inv(t, l) && Building(t, l) && l != [] && IsDir(t.files, ROOT_INO) && kind != NONE
    requires name !in t.files[ROOT_INO].value.nmFiles
    ensures Create(t, ROOT_INO, name, kind).Some?
    ensures var (t', i) := Create(t, ROOT_INO, name, kind).value;
      && Inv(t', l[1..]) && Building(t', l[1..]) && i == l[0] && IsDir(t'.files, ROOT_INO)
      && t'.files[ROOT_INO].value.nmFiles == t.files[ROOT_INO].value.nmFiles[name := i]
      && t'.files[i] == Some(File(name, i, ROOT_INO, kind, {}, map[]))
      && |t'.files| == |t.files| && (forall j | 0 <= j < |t.files| && j != i && j != ROOT_INO :: t'.files[j] == t.files[j])
  {
    CreateMakes(t, l, ROOT_INO, name, kind);
    CreateIff(t, l, ROOT_INO, name, kind);
    AllocList(t, l);
    assert ROOT_INO !in l;
    BuildingFree(t, l, ROOT_INO);
    CreateParts(t, l, ROOT_INO, name, kind);
    assert DirOK(t.files, ROOT_INO);
  }

  // ---- Removing one item ----

  ghost predicate Removable(files: seq<Option<File>>, i: nat) {
    && Live(files, i) && files[i].value.inoFiles == {}
    && files[i].value.dir < i && (i != ROOT_INO ==> files[files[i].value.dir].Some?)
  }

  // What Detach leaves: the item is gone, its directory has lost it, the rest is as before.
  ghost predicate Detached(files: seq<Option<File>>, i: nat, files': seq<Option<File>>)
    requires Removable(files, i)
  {
    var item := files[i].value;
    && |files'| == |files| && files'[i] == Some(FREED)
    && (forall j: nat :: Live(files', j) <==> Live(files, j) && j != i)
    && (forall j: nat | j < |files| && j != i && (j != item.dir || i == ROOT_INO) :: files'[j] == files[j])
    && (i != ROOT_INO ==> IsDir(files, item.dir) && IsDir(files', item.dir))
    && (i != ROOT_INO ==> files'[item.dir].value == Losing(files[item.dir].value, item))
  }

  function Losing(d: File, item: File): File {
    d.(inoFiles := d.inoFiles - {item.ino}, nmFiles := d.nmFiles - {item.name})
  }

  lemma DetachShape(files: seq<Option<File>>, i: nat)
    requires Tree(files) && Removable(files, i)
    ensures Detached(files, i, Detach(files, i))
  {
    assert ItemOK(files, i);
  }

  lemma DetachTree(files: seq<Option<File>>, i: nat)
    requires Tree(files) && Removable(files, i)
    ensures Tree(Detach(files, i))
  {
    var files' := Detach(files, i);
    DetachShape(files, i);
    hide Detach;
    forall j: nat | Live(files', j) ensures ItemOK(files', j) && DirOK(files', j) {
      assert ItemOK(files, i) && ItemOK(files, j) && DirOK(files, j);
      if i != ROOT_INO && j == files[i].value.dir {
        DetachDir(files, i, files');
      } else {
        DetachOther(files, i, j, files');
      }
    }
  }

  // The directory that lost the item.
  lemma DetachDir(files: seq<Option<File>>, i: nat, files': seq<Option<File>>)
    requires Tree(files) && Removable(files, i) && Detached(files, i, files') && i != ROOT_INO && files[i].value.ino == i
    ensures ItemOK(files', files[i].value.dir) && DirOK(files', files[i].value.dir)
  {
    var p := files[i].value.dir;
    assert ItemOK(files, p) && DirOK(files, p);
    assert ItemOK(files, i);
    if p != ROOT_INO { assert files'[files[p].value.dir] == files[files[p].value.dir]; }
    forall k | k in files'[p].value.inoFiles ensures k != ROOT_INO && Live(files', k) && files'[k].value.dir == p {
      assert Live(files, k) && k != i;
    }
  }

  // Any other item.
  lemma DetachOther(files: seq<Option<File>>, i: nat, j: nat, files': seq<Option<File>>)
    requires Tree(files) && Removable(files, i) && Detached(files, i, files') && Live(files, j) && j != i
    requires i == ROOT_INO || j != files[i].value.dir
    requires ItemOK(files, i) && ItemOK(files, j) && DirOK(files, j)
    ensures ItemOK(files', j) && DirOK(files', j)
  {
    var f := files[j].value;
    hide Tree;
    assert files'[j] == files[j];
    assert ItemOK(files', j) by { DetachPlace(files, i, j, files'); }
    hide ItemOK;
    forall k | k in f.inoFiles ensures Live(files', k) && files'[k].value.dir == j {
      assert Live(files, k) && files[k].value.dir == j && k != i;
    }
    forall nm | nm in f.nmFiles ensures files'[f.nmFiles[nm]].value.name == nm {
      assert f.nmFiles[nm] in f.inoFiles;
    }
  }

  // ... keeps its place in its directory.
  lemma DetachPlace(files: seq<Option<File>>, i: nat, j: nat, files': seq<Option<File>>)
    requires Removable(files, i) && Detached(files, i, files') && Live(files, j) && j != i
    requires i == ROOT_INO || j != files[i].value.dir
    requires ItemOK(files, i) && ItemOK(files, j) && Live(files', j) && files'[j] == files[j]
    ensures ItemOK(files', j)
  {
    var f := files[j].value;
    if j != ROOT_INO {
      assert f.dir != i;
      assert i != ROOT_INO && f.dir == files[i].value.dir ==> f.name != files[i].value.name;
    }
  }

  // The table after item i alone is removed.
  function Taken(t: Table, i: nat): Table
    requires |t.files| == |t.next| && Live(t.files, i) && t.files[i].value.dir < i
    requires i != ROOT_INO ==> t.files[t.files[i].value.dir].Some?
  {
    Free(t.(files := Detach(t.files, i)), i)
  }

  lemma TakenInv(t: Table, l: seq<nat>, i: nat)
    requires Inv(t, l) && Removable(t.files, i)
    ensures Inv(Taken(t, i), [i] + l) && Detached(t.files, i, Taken(t, i).files)
  {
    var t' := Taken(t, i);
    DetachShape(t.files, i);
    DetachTree(t.files, i);
    assert i != INVALID_INO;
    hide Tree, Detach;
    FreePush(t, l, i, t');
    PartsPush(t, l, i, t');
  }

  lemma FreePush(t: Table, l: seq<nat>, i: nat, t': Table)
    requires FreeList(t, l) && i < |t.next| && i !in l
    requires t'.next == t.next[i := t.freelist] && t'.freelist == Some(i) && t'.numfree == t.numfree + 1
    ensures FreeList(t', [i] + l)
  {
    var m := [i] + l;
    forall k | 0 <= k < |m| ensures LinkAt(t', m, k) {
      if k > 0 {
        assert LinkAt(t, l, k - 1);
        assert m[k] == l[k - 1];
      }
    }
    forall j, k | 0 <= j < k < |m| ensures m[j] != m[k] {
      assert m[k] == l[k - 1];
      if j > 0 { assert m[j] == l[j - 1]; }
    }
  }

  lemma PartsPush(t: Table, l: seq<nat>, i: nat, t': Table)
    requires Parts(t, l) && i < |t.next| && i != INVALID_INO && |t.files| == |t.next|
    requires t'.next == t.next[i := t.freelist] && |t'.files| == |t.files|
    requires forall j: nat :: Live(t'.files, j) <==> Live(t.files, j) && j != i
    ensures Parts(t', [i] + l)
  {
    hide Live;
    forall j: nat | j < |t.next| ensures j in [i] + l <==> j == i || j in l {}
  }

  // ---- Removing, with the purge of emptied directories ----

  // The inodes a removal frees, the last one first.
  ghost function Freed(t: Table, i: nat, purge: bool): seq<nat>
    requires |t.files| == |t.next| && Ordered(t.files) && Live(t.files, i)
    decreases i
  {
    if IsDir(t.files, i) && t.files[i].value.inoFiles != {} then []
    else
      var t1, d := Taken(t, i), t.files[i].value.dir;
      if i != ROOT_INO && purge && Live(t1.files, d) && t1.files[d].value.inoFiles == {}
      then Freed(t1, d, purge) + [i] else [i]
  }

  // Does removing i leave its directory empty, to be purged?
  ghost predicate Purges(t: Table, i: nat, purge: bool)
    requires |t.files| == |t.next| && Removable(t.files, i)
  {
    var d := t.files[i].value.dir;
    i != ROOT_INO && purge && Live(Taken(t, i).files, d) && Taken(t, i).files[d].value.inoFiles == {}
  }

  // One call, with its recursive call spelled out.
  lemma RemoveCases(t: Table, l: seq<nat>, i: nat, purge: bool)
    requires Inv(t, l) && Ordered(t.files) && Live(t.files, i)
    ensures t.files[i].value.inoFiles != {} ==> Remove(t, i, purge) == (t, false) && Freed(t, i, purge) == []
    ensures t.files[i].value.inoFiles == {} ==>
      var t1, d := Taken(t, i), t.files[i].value.dir;
      && Removable(t.files, i) && Inv(t1, [i] + l) && Ordered(t1.files) && Detached(t.files, i, t1.files)
      && !Live(t1.files, i)
      && if Purges(t, i, purge) then
           && d < i && Removable(t1.files, d)
           && Remove(t, i, purge) == (Remove(t1, d, purge).0, true) && Freed(t, i, purge) == Freed(t1, d, purge) + [i]
         else Remove(t, i, purge) == (t1, true) && Freed(t, i, purge) == [i]
  {
    assert ItemOK(t.files, i);
    if t.files[i].value.inoFiles == {} {
      TakenInv(t, l, i);
      TreeOrdered(Taken(t, i).files);
    }
  }

  // fsRemoveitem keeps the file system well formed; each freed inode joins the free list once.
  lemma {:induction false} RemoveInv(t: Table, l: seq<nat>, i: nat, purge: bool)
    requires Inv(t, l) && Ordered(t.files) && Live(t.files, i)
    ensures Inv(Remove(t, i, purge).0, Freed(t, i, purge) + l)
    ensures Remove(t, i, purge).1 <==> t.files[i].value.inoFiles == {}
    decreases i
  {
    RemoveCases(t, l, i, purge);
    hide Remove, Freed, Taken, Inv, Ordered, Live;
    if t.files[i].value.inoFiles != {} {
      assert [] + l == l;
    } else if Purges(t, i, purge) {
      var t1, d := Taken(t, i), t.files[i].value.dir;
      RemoveInv(t1, [i] + l, d, purge);
      Append(Freed(t1, d, purge), i, l);
    }
  }

  lemma Append(a: seq<nat>, i: nat, l: seq<nat>)
    ensures a + ([i] + l) == (a + [i]) + l
  {}

  // What is gone stays gone, and the item itself goes unless it is a non-empty directory.
  lemma {:induction false} RemoveGone(t: Table, l: seq<nat>, i: nat, purge: bool, j: nat)
    requires Inv(t, l) && Ordered(t.files) && Live(t.files, i)
    requires !Live(t.files, j) || (j == i && t.files[i].value.inoFiles == {})
    ensures !Live(Remove(t, i, purge).0.files, j)
    decreases i
  {
    RemoveCases(t, l, i, purge);
    hide Remove, Freed, Taken, Inv, Ordered, Live;
    if t.files[i].value.inoFiles == {} && Purges(t, i, purge) {
      RemoveGone(Taken(t, i), [i] + l, t.files[i].value.dir, purge, j);
    }
  }

  // Exactly what a removal takes away: without purging the item alone; with it, also each
  // directory all of whose items went, and no other. What stays keeps its name, place and
  // kind, and a directory lists those of its items that stay.
  lemma {:induction false} RemoveExact(t: Table, l: seq<nat>, i: nat, purge: bool, j: nat)
    requires Inv(t, l) && Ordered(t.files) && Live(t.files, i) && t.files[i].value.inoFiles == {}
    requires Live(t.files, j) && j != i
    ensures var f, f' := t.files, Remove(t, i, purge).0.files;
      && (!purge ==> Live(f', j))
      && (purge ==> (!Live(f', j) <==> f[j].value.inoFiles != {} && forall k | k in f[j].value.inoFiles :: !Live(f', k)))
      && (Live(f', j) ==>
            && f'[j].value.name == f[j].value.name && f'[j].value.dir == f[j].value.dir
            && f'[j].value.kind == f[j].value.kind && f'[j].value.ino == f[j].value.ino
            && forall k :: k in f'[j].value.inoFiles <==> k in f[j].value.inoFiles && Live(f', k))
    decreases i
  {
    RemoveCases(t, l, i, purge);
    assert DirOK(t.files, j) && ItemOK(t.files, i) && ItemOK(t.files, j);
    var t1, d := Taken(t, i), t.files[i].value.dir;
    hide Remove, Freed, Taken, Inv, Ordered;
    if Purges(t, i, purge) {
      RemoveGone(t1, [i] + l, d, purge, d);
      RemoveGone(t1, [i] + l, d, purge, i);
      if j != d { RemoveExact(t1, [i] + l, d, purge, j); }
    }
  }

  // ---- The one-pass cleanup ----

  // Below m only directories that still hold something are left.
  ghost predicate Swept(files: seq<Option<File>>, m: nat) {
    forall j: nat | j < m && Live(files, j) :: files[j].value.inoFiles != {}
  }

  // ... except item i.
  ghost predicate SweptBut(files: seq<Option<File>>, m: nat, i: nat) {
    forall j: nat | j < m && j != i && Live(files, j) :: files[j].value.inoFiles != {}
  }

  // Removing the last unswept item below m purges exactly the directories it empties, so
  // everything below m is swept; nothing from m on is touched.
  lemma {:induction false} RemoveSweeps(t: Table, l: seq<nat>, i: nat, m: nat)
    requires Inv(t, l) && Ordered(t.files) && Live(t.files, i) && i < m && SweptBut(t.files, m, i)
    ensures var t' := Remove(t, i, true).0;
      && Swept(t'.files, m)
      && (forall j: nat | m <= j < |t.files| :: t'.files[j] == t.files[j])
    decreases i
  {
    RemoveCases(t, l, i, true);
    hide Remove, Freed, Taken, Inv, Ordered;
    if t.files[i].value.inoFiles == {} {
      var t1, d := Taken(t, i), t.files[i].value.dir;
      forall j: nat | j < m && j != d && Live(t1.files, j) ensures t1.files[j].value.inoFiles != {} {
        assert t1.files[j] == t.files[j];
      }
      if Purges(t, i, true) {
        RemoveSweeps(t1, [i] + l, d, m);
      }
    }
  }

  // A live item below n would have a live child above it, and so on without end.
  lemma {:induction false} NoneLeft(files: seq<Option<File>>, i: nat)
    requires Tree(files) && Swept(files, |files|)
    ensures !Live(files, i)
    decreases |files| - i
  {
    if Live(files, i) {
      assert files[i].value.inoFiles != {} && DirOK(files, i);
      var j :| j in files[i].value.inoFiles;
      assert ItemOK(files, j);
      NoneLeft(files, j);
    }
  }

  // The slots from i on that the scan will find in use: 1 .. k - 1.
  ghost predicate Ahead(t: Table, i: nat, k: nat) {
    forall j: nat | i <= j < |t.files| :: (t.files[j].Some? <==> 1 <= j < k) && (t.files[j].Some? ==> Live(t.files, j))
  }

  function ToVisit(i: nat, k: nat): nat {
    if k <= i then 0 else if i == 0 then k - 1 else k - i
  }

  // One iteration of the scan.
  lemma ScanSkip(t: Table, i: nat, k: nat)
    requires i < |t.files| && 1 <= k <= |t.files| && Ahead(t, i, k) && t.files[i].None?
    ensures Ahead(t, i + 1, k) && ToVisit(i, k) == ToVisit(i + 1, k)
  {}

  lemma SizedInv(t: Table, l: seq<nat>)
    requires Inv(t, l)
    ensures |t.files| == |t.next| >= 2
  {}

  lemma ScanVisit(t: Table, i: nat, removed: nat)
    requires |t.files| == |t.next| && Ordered(t.files) && i < |t.files| && Live(t.files, i)
    ensures Ordered(Remove(t, i, true).0.files)
    ensures Scan(t, i, removed) == Scan(Remove(t, i, true).0, i + 1, removed + 1)
  {
    OrderedRemove(t, i, true);
    hide Remove;
  }

  lemma AheadKept(t: Table, t': Table, i: nat, k: nat)
    requires Ahead(t, i, k) && i < |t.files| == |t'.files| && t.files[i].Some?
    requires forall j: nat | i + 1 <= j < |t.files| :: t'.files[j] == t.files[j]
    ensures Ahead(t', i + 1, k) && Live(t.files, i) && ToVisit(i, k) == 1 + ToVisit(i + 1, k)
  {
    assert 1 <= i < k;
    forall j: nat | i + 1 <= j < |t'.files|
      ensures (t'.files[j].Some? <==> 1 <= j < k) && (t'.files[j].Some? ==> Live(t'.files, j))
    {
      assert t'.files[j] == t.files[j];
    }
  }

  lemma ScanStep(t: Table, l: seq<nat>, i: nat, removed: nat, k: nat)
    requires Inv(t, l) && Ordered(t.files) && i < |t.files| == |t.next| && 1 <= k <= |t.files|
    requires Swept(t.files, i) && Ahead(t, i, k) && t.files[i].Some?
    ensures var t1 := Remove(t, i, true).0;
      && Live(t.files, i) && Ordered(t1.files) && Scan(t, i, removed) == Scan(t1, i + 1, removed + 1)
      && Inv(t1, Freed(t, i, true) + l) && Swept(t1.files, i + 1) && Ahead(t1, i + 1, k)
      && ToVisit(i, k) == 1 + ToVisit(i + 1, k)
  {
    assert Live(t.files, i);
    assert SweptBut(t.files, i + 1, i);
    hide *;
    ScanVisit(t, i, removed);
    RemoveInv(t, l, i, true);
    RemoveSweeps(t, l, i, i + 1);
    AheadKept(t, Remove(t, i, true).0, i, k);
  }

  // One ascending scan removes everything, although non-empty directories refuse when
  // their turn comes: the last of their items takes them along.
  lemma {:induction false} ScanRemovesAll(t: Table, l: seq<nat>, i: nat, removed: nat, k: nat) returns (l': seq<nat>)
    requires Inv(t, l) && Ordered(t.files) && i <= |t.files| && 1 <= k <= |t.files|
    requires Swept(t.files, i) && Ahead(t, i, k)
    ensures Scan(t, i, removed).Some?
    ensures var (t', r) := Scan(t, i, removed).value;
      && Inv(t', l') && Swept(t'.files, |t'.files|) && |t'.files| == |t.files|
      && r == removed + ToVisit(i, k)
    decreases |t.files| - i
  {
    hide *;
    SizedInv(t, l);
    if i == |t.files| {
      ScanEnd(t, removed, k);
      l' := l;
    } else if t.files[i].None? {
      ScanEmpty(t, i, removed);
      ScanSkip(t, i, k);
      l' := ScanRemovesAll(t, l, i + 1, removed, k);
    } else {
      ScanStep(t, l, i, removed, k);
      l' := ScanRemovesAll(Remove(t, i, true).0, Freed(t, i, true) + l, i + 1, removed + 1, k);
    }
  }

  lemma ScanEnd(t: Table, removed: nat, k: nat)
    requires |t.files| == |t.next| && Ordered(t.files) && k <= |t.files|
    ensures Scan(t, |t.files|, removed) == Some((t, removed)) && ToVisit(|t.files|, k) == 0
  {}

  lemma LiveOff(t: Table, l: seq<nat>, i: nat)
    requires Inv(t, l) && Live(t.files, i)
    ensures t.next[i] == None
  {}

  // One iteration that meets a live item, as seen from a slot ahead.
  lemma ScanPast(t: Table, l: seq<nat>, i: nat, removed: nat, j: nat)
    requires Inv(t, l) && Ordered(t.files) && Swept(t.files, i) && i < j < |t.files| == |t.next| && Live(t.files, i)
    ensures var t1 := Remove(t, i, true).0;
      && Ordered(t1.files) && Inv(t1, Freed(t, i, true) + l) && Swept(t1.files, i + 1)
      && t1.files[j] == t.files[j] && |t1.files| == |t1.next| == |t.next|
      && Scan(t, i, removed) == Scan(t1, i + 1, removed + 1)
  {
    assert SweptBut(t.files, i + 1, i);
    hide *;
    ScanVisit(t, i, removed);
    RemoveInv(t, l, i, true);
    RemoveSweeps(t, l, i, i + 1);
  }

  // A slot ahead that still points to a freed item is read when its turn comes.
  lemma {:induction false} ScanMeetsFreed(t: Table, l: seq<nat>, i: nat, removed: nat, j: nat)
    requires Inv(t, l) && Ordered(t.files) && Swept(t.files, i) && i <= j < |t.files|
    requires t.files[j].Some? && !Live(t.files, j)
    ensures Scan(t, i, removed).None?
    decreases |t.files| - i
  {
    hide *;
    SizedInv(t, l);
    if t.files[i].None? {
      ScanEmpty(t, i, removed);
      ScanMeetsFreed(t, l, i + 1, removed, j);
    } else if t.files[i].value.kind == NONE {
      ScanStops(t, i, removed);
    } else {
      LiveNotFreed(t.files, i, j);
      ScanPast(t, l, i, removed, j);
      NotLiveKept(t.files, Remove(t, i, true).0.files, j);
      ScanMeetsFreed(Remove(t, i, true).0, Freed(t, i, true) + l, i + 1, removed + 1, j);
    }
  }

  lemma ScanEmpty(t: Table, i: nat, removed: nat)
    requires |t.files| == |t.next| && Ordered(t.files) && i < |t.files| && Swept(t.files, i) && t.files[i].None?
    ensures Scan(t, i, removed) == Scan(t, i + 1, removed) && Swept(t.files, i + 1)
  {}

  lemma ScanStops(t: Table, i: nat, removed: nat)
    requires |t.files| == |t.next| && Ordered(t.files) && i < |t.files|
    requires t.files[i].Some? && t.files[i].value.kind == NONE
    ensures Scan(t, i, removed).None?
  {}

  lemma LiveNotFreed(files: seq<Option<File>>, i: nat, j: nat)
    requires i <= j < |files| && files[i].Some? && files[i].value.kind != NONE && !Live(files, j)
    ensures Live(files, i) && i < j
  {}

  lemma NotLiveKept(files: seq<Option<File>>, files': seq<Option<File>>, j: nat)
    requires !Live(files, j) && j < |files| == |files'| && files'[j] == files[j]
    ensures !Live(files', j)
  {}

  // While building, the slots in use are 1 .. n - |l| - 1.
  lemma BuildingAhead(t: Table, l: seq<nat>)
    requires Inv(t, l) && Building(t, l)
    ensures |l| < |t.files| && Ahead(t, 0, |t.files| - |l|)
  {
    var n := |t.files|;
    assert 1 !in l || l == [] || l[0] == n - |l|;
    SetOf(l, n);
    forall j: nat | j < n ensures (t.files[j].Some? <==> 1 <= j < n - |l|) && (t.files[j].Some? ==> Live(t.files, j)) {
      BuildingFree(t, l, j);
      if j in l {
        var h :| 0 <= h < |l| && l[h] == j;
        assert t.files[l[h]] == None;
      }
    }
  }

  function ToSet(l: seq<nat>): set<nat> { set x | x in l }

  function UpTo(n: nat): set<nat> { if n == 0 then {} else UpTo(n - 1) + {n - 1} }

  // A list of distinct numbers below n that misses 0 is shorter than n.
  lemma SetOf(l: seq<nat>, n: nat)
    requires forall k | 0 <= k < |l| :: l[k] < n
    requires forall j, k | 0 <= j < k < |l| :: l[j] != l[k]
    ensures 0 !in l && n > 0 ==> |l| < n
    ensures 0 !in l && n > 0 && (forall i | 0 < i < n :: i in l) ==> |l| == n - 1
  {
    SetSize(l);
    RangeSize(n);
    if 0 !in l && n > 0 {
      var s, r := ToSet(l), UpTo(n) - {0};
      assert |r| == n - 1;
      assert s <= r;
      Subset(s, r);
      if forall i | 0 < i < n :: i in l { assert s == r; }
    }
  }

  lemma {:induction false} SetSize(l: seq<nat>)
    requires forall j, k | 0 <= j < k < |l| :: l[j] != l[k]
    ensures |ToSet(l)| == |l|
  {
    if l != [] {
      var front, last := l[..|l| - 1], l[|l| - 1];
      SetSize(front);
      assert ToSet(l) == ToSet(front) + {last};
      assert last !in front;
    }
  }

  lemma {:induction false} RangeSize(n: nat)
    ensures |UpTo(n)| == n && forall x: nat :: x in UpTo(n) <==> x < n
  {
    if n > 0 { RangeSize(n - 1); }
  }

  // Every slot is on the free list, once.
  ghost predicate AllFree(t: Table, l: seq<nat>) {
    && FreeList(t, l) && t.numfree == |t.next| == |l|
    && forall i: nat | i < |t.next| :: i in l
  }

  // With every item gone, inode 0 is all that is missing from the free list.
  lemma FreeLast(t: Table, l: seq<nat>)
    requires Inv(t, l) && forall i: nat :: !Live(t.files, i)
    ensures AllFree(Free(t, INVALID_INO), [INVALID_INO] + l)
  {
    assert INVALID_INO !in l;
    SetOfList(t, l);
    FreePush(t, l, INVALID_INO, Free(t, INVALID_INO));
    forall i: nat | i < |t.next| ensures i in [INVALID_INO] + l {
      if i != INVALID_INO { assert i in l; }
    }
  }

  lemma SetOfList(t: Table, l: seq<nat>)
    requires Inv(t, l) && forall i: nat :: !Live(t.files, i)
    ensures |l| == |t.next| - 1
  {
    hide Tree;
    forall k | 0 <= k < |l| ensures l[k] < |t.next| { assert LinkAt(t, l, k); }
    SetOf(l, |t.next|);
  }

  // fsCleanup, from any state reached by creations and removals: it goes through exactly
  // when nothing has been removed before (no slot points to a freed item). It then frees
  // every inode once, and both of its final asserts hold.
  lemma CleanupIff(t: Table, l: seq<nat>)
    requires Inv(t, l) && Ordered(t.files)
    ensures Cleanup(t).Some? <==> forall i: nat | i < |t.files| && t.files[i].Some? :: Live(t.files, i)
    ensures Cleanup(t).Some? ==>
      var (t', removed) := Cleanup(t).value;
      && removed == |t.next| - t.numfree
      && exists l' :: AllFree(t', l')
  {
    if Building(t, l) {
      BuildingAhead(t, l);
      CleanupBuilt(t, l);
    } else {
      ScanMeetsFreed(t, l, 0, 0, l[0]);
    }
  }

  lemma CleanupBuilt(t: Table, l: seq<nat>)
    requires Inv(t, l) && Ordered(t.files) && Building(t, l) && |l| < |t.files| && Ahead(t, 0, |t.files| - |l|)
    ensures Cleanup(t).Some?
    ensures var (t', removed) := Cleanup(t).value; removed == |t.next| - t.numfree && exists l' :: AllFree(t', l')
    ensures forall i: nat | i < |t.files| && t.files[i].Some? :: Live(t.files, i)
  {
    assert Swept(t.files, 0);
    var l1 := ScanRemovesAll(t, l, 0, 0, |t.files| - |l|);
    var t1 := Scan(t, 0, 0).value.0;
    assert Tree(t1.files);
    forall i: nat ensures !Live(t1.files, i) { NoneLeft(t1.files, i); }
    FreeLast(t1, l1);
    assert AllFree(Free(t1, INVALID_INO), [INVALID_INO] + l1);
  }

  // ---- Runs ----

  datatype Op = Make(dir: nat, name: string, kind: Kind) | Drop(item: nat, purge: bool)

  // What callers owe: an existing directory and a name it does not have, or a live item.
  ghost predicate Owed(t: Table, op: Op) {
    && |t.files| == |t.next| && Ordered(t.files)
    && match op
       case Make(d, name, kind) => IsDir(t.files, d) && kind != NONE && name !in t.files[d].value.nmFiles
       case Drop(i, _) => Live(t.files, i)
  }

  // One call; None where the source stops.
  ghost function Apply(t: Table, op: Op): Option<Table>
    requires Owed(t, op)
  {
    match op
    case Make(d, name, kind) =>
      var r := Create(t, d, name, kind);
      if r.Some? then Some(r.value.0) else None
    case Drop(i, purge) => Some(Remove(t, i, purge).0)
  }

  ghost predicate Run(t: Table, ops: seq<Op>, t': Table)
    decreases |ops|
  {
    if ops == [] then t' == t
    else Owed(t, ops[0]) && Apply(t, ops[0]).Some? && Run(Apply(t, ops[0]).value, ops[1..], t')
  }

  lemma ApplyInv(t: Table, l: seq<nat>, op: Op) returns (l': seq<nat>)
    requires Inv(t, l) && Owed(t, op) && Apply(t, op).Some?
    ensures Inv(Apply(t, op).value, l')
    ensures op.Make? && Building(t, l) ==> Building(Apply(t, op).value, l') && |l'| == |l| - 1
  {
    match op {
      case Make(d, name, kind) =>
        CreateIff(t, l, d, name, kind);
        AllocList(t, l);
        CreateMore(t, l, d, name, kind);
        l' := l[1..];
      case Drop(i, purge) =>
        RemoveInv(t, l, i, purge);
        l' := Freed(t, i, purge) + l;
    }
  }

  lemma CreateMore(t: Table, l: seq<nat>, d: nat, name: string, kind: Kind)
    requires Inv(t, l) && IsDir(t.files, d) && kind != NONE && Create(t, d, name, kind).Some?
    ensures l != [] && Building(Create(t, d, name, kind).value.0, l[1..])
  {
    CreateIff(t, l, d, name, kind);
    BuildingFree(t, l, d);
    assert d !in l;
    CreateParts(t, l, d, name, kind);
  }

  lemma {:induction false} OpsInv(t: Table, l: seq<nat>, ops: seq<Op>, t': Table) returns (l': seq<nat>)
    requires Inv(t, l) && Run(t, ops, t')
    ensures Inv(t', l')
    ensures (forall op | op in ops :: op.Make?) && Building(t, l) ==> Building(t', l') && |l'| == |l| - |ops|
    decreases |ops|
  {
    if ops == [] {
      l' := l;
    } else {
      hide Inv, Building, Apply, Owed;
      var l1 := ApplyInv(t, l, ops[0]);
      l' := OpsInv(Apply(t, ops[0]).value, l1, ops[1..], t');
    }
  }

  // Any run of creations and removals on a fresh file system leaves a well-formed free
  // list and tree. If it only created, the one-pass cleanup then goes through, frees every
  // inode, and counts the items created, the root and inode 0.
  lemma RunsFromMount(n: nat, ops: seq<Op>, t': Table)
    requires n >= 2 && Run(Mount(n), ops, t')
    ensures (exists l :: Inv(t', l)) && Sized(t') && Ordered(t'.files)
    ensures (forall op | op in ops :: op.Make?) ==>
      Cleanup(t').Some? && Cleanup(t').value.1 == |ops| + 2 && exists l' :: AllFree(Cleanup(t').value.0, l')
  {
    MountInv(n);
    var l := seq(n - 2, k requires 0 <= k => k + 2);
    assert Building(Mount(n), l);
    var l' := OpsInv(Mount(n), l, ops, t');
    TreeOrdered(t'.files);
    if forall op | op in ops :: op.Make? {
      SameSize(Mount(n), ops, t');
      CleanupIff(t', l');
      BuildingAhead(t', l');
    }
  }

  lemma {:induction false} SameSize(t: Table, ops: seq<Op>, t': Table)
    requires Run(t, ops, t')
    ensures |t'.files| == |t.files| && |t'.next| == |t.next|
    decreases |ops|
  {
    if ops != [] { SameSize(Apply(t, ops[0]).value, ops[1..], t'); }
  }

  // ---- The tree as its users see it ----

  // The two indexes of a directory list the same items.
  lemma IndexesAgree(files: seq<Option<File>>, d: nat)
    requires Tree(files) && IsDir(files, d)
    ensures var f := files[d].value;
      && f.nmFiles.Values == f.inoFiles
      && |f.nmFiles| == |f.inoFiles|
      && forall i: nat | Live(files, i) && i != ROOT_INO :: i in f.inoFiles <==> files[i].value.dir == d
  {
    var f := files[d].value;
    assert DirOK(files, d);
    forall i: nat | Live(files, i) && i != ROOT_INO ensures i in f.inoFiles <==> files[i].value.dir == d {
      assert ItemOK(files, i);
    }
    forall i | i in f.inoFiles ensures i in f.nmFiles.Values {
      assert ItemOK(files, i);
      assert f.nmFiles[files[i].value.name] == i;
    }
    assert f.nmFiles.Values == f.inoFiles;
    SameCount(f.nmFiles, f.inoFiles, files);
  }

  lemma {:induction false} SameCount(m: map<string, nat>, s: set<nat>, files: seq<Option<File>>)
    requires m.Values == s
    requires forall nm | nm in m :: m[nm] < |files| && files[m[nm]].Some? && files[m[nm]].value.name == nm
    ensures |m| == |s|
    decreases |m|
  {
    if m.Keys == {} {
      assert m == map[];
    } else {
      var nm :| nm in m.Keys;
      var m', i := m - {nm}, m[nm];
      assert m'.Keys == m.Keys - {nm};
      assert |m'| == |m'.Keys| && |m| == |m.Keys|;
      assert m'.Values == s - {i} by {
        forall j | j in s - {i} ensures j in m'.Values {
          var nm' :| nm' in m && m[nm'] == j;
          assert nm' in m';
        }
      }
      SameCount(m', s - {i}, files);
    }
  }

  // fs_fuse_lookup answers with the one live item of that name in that directory.
  lemma LookupUnique(t: Table, l: seq<nat>, d: nat, name: string, i: nat)
    requires Inv(t, l) && IsDir(t.files, d)
    ensures Lookup(t, d, name) == Some(i) <==>
      Live(t.files, i) && i != ROOT_INO && t.files[i].value.dir == d && t.files[i].value.name == name
  {
    assert DirOK(t.files, d);
    assert d !in l;
    if Live(t.files, i) { assert ItemOK(t.files, i); }
  }

  // The directories from an item up to the root.
  ghost function Path(files: seq<Option<File>>, i: nat): seq<nat>
    requires Ordered(files) && Live(files, i)
    decreases i
  {
    var d := files[i].value.dir;
    if i == ROOT_INO || !Live(files, d) then [i] else [i] + Path(files, d)
  }

  // Every live item reaches the root.
  lemma {:induction false} ReachesRoot(files: seq<Option<File>>, i: nat)
    requires Tree(files) && Ordered(files) && Live(files, i)
    ensures var p := Path(files, i); p[|p| - 1] == ROOT_INO && p[0] == i
    ensures Live(files, ROOT_INO)
    decreases i
  {
    assert ItemOK(files, i);
    if i != ROOT_INO { ReachesRoot(files, files[i].value.dir); }
  }
}
