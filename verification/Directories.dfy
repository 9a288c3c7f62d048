/**
 Directory entries and link counts as a tree: what do_touch, do_ln, do_rm, do_mkdir, do_cd and do_fwrite of
 kernel/fs/fs.c do, seen from above. Module TreeOnDisk shows that the disk follows.
 */
module Directories {
  import opened Bytes
  import opened BlockMap

  const DENTRY_NAME_LEN := 26
  /** As many 36-byte entries as fit a block. */
  const NSLOTS := 113

  datatype Dentry = Dentry(valid: bool, inum: nat, name: seq<Byte>)

  /** A file: its link count, its size and its bytes; bytes that are not in the map are zero. */
  datatype FileNode = FileNode(refs: nat, size: nat, bytes: map<nat, Byte>)

  datatype Tree = Tree(files: map<nat, FileNode>, dirs: map<nat, seq<Dentry>>, cwd: nat)

  // ---------------------------------------------------------------- the invariant

  ghost predicate Names(t: Tree, dir: nat, j: nat, n: nat) {
    dir in t.dirs && j < |t.dirs[dir]| && t.dirs[dir][j].valid && t.dirs[dir][j].inum == n
  }

  /** The valid directory entries that name the inode n. */
  ghost function Entries(t: Tree, n: nat): set<(nat, nat)> {
    set dir, j: nat | dir in t.dirs && j < |t.dirs[dir]| && Names(t, dir, j, n) :: (dir, j)
  }

  predicate IsLive(t: Tree, n: nat) {
    n in t.files || n in t.dirs
  }

  ghost predicate InodesOk(t: Tree) {
    t.cwd in t.dirs && t.files.Keys !! t.dirs.Keys && forall n | IsLive(t, n) :: IsInum(n)
  }

  /** The slots that were never used are the last ones. */
  predicate Dense(ds: seq<Dentry>) {
    forall i, j | 0 <= i < j < |ds| && ds[i].inum == 0 :: ds[j].inum == 0
  }

  /** Entries that are valid name something that exists. */
  ghost predicate EntriesOk(t: Tree) {
    && (forall dir | dir in t.dirs :: |t.dirs[dir]| == NSLOTS && Dense(t.dirs[dir]))
    && (forall dir: nat, j: nat, n: nat | Names(t, dir, j, n) :: n != 0 && IsLive(t, n))
  }

  /** The link count of a file is the number of entries that name it. */
  ghost predicate CountsOk(t: Tree) {
    forall n | n in t.files :: t.files[n].refs == |Entries(t, n)| > 0
  }

  ghost predicate TreeOk(t: Tree) {
    InodesOk(t) && EntriesOk(t) && CountsOk(t)
  }

  /** The root directory as do_mkfs leaves it: inode 1, naming itself twice. */
  function RootOnly(): Tree {
    Tree(map[], map[1 := NewDirectory(1, 1)], 1)
  }

  lemma RootOk()
    ensures TreeOk(RootOnly())
  {
    var t := RootOnly();
    assert forall dir: nat, j: nat, n: nat | Names(t, dir, j, n) :: n == 1;
  }

  // ---------------------------------------------------------------- looking up and entering names

  /** The scan of parse_path, do_touch and do_mkdir: the first valid entry of that name before the first empty one. */
  function Find(ds: seq<Dentry>, name: seq<Byte>, j: nat): (k: nat)
    requires j <= |ds|
    ensures j <= k <= |ds|
    ensures k < |ds| ==> ds[k].valid && ds[k].name == name
    ensures forall i | j <= i < k && k < |ds| :: !(ds[i].valid && ds[i].name == name)
    ensures k == |ds| ==> forall i | j <= i < EmptyAt(ds, j) :: !(ds[i].valid && ds[i].name == name)
    decreases |ds| - j
  {
    if j == |ds| then j
    else if ds[j].valid && ds[j].name == name then j
    else if ds[j].inum == 0 then |ds|
    else Find(ds, name, j + 1)
  }

  /** The first slot from j on that was never used. */
  function EmptyAt(ds: seq<Dentry>, j: nat): (k: nat)
    requires j <= |ds|
    ensures j <= k <= |ds| && (k < |ds| ==> ds[k].inum == 0)
    ensures forall i | j <= i < k :: ds[i].inum != 0
    decreases |ds| - j
  {
    if j == |ds| || ds[j].inum == 0 then j else EmptyAt(ds, j + 1)
  }

  /** parse_path for a single component: 0 if there is no such name. */
  function Parse(t: Tree, name: seq<Byte>): nat
    requires t.cwd in t.dirs
  {
    if name == [] then t.cwd else
    var ds := t.dirs[t.cwd];
    var k := Find(ds, name, 0);
    if k < |ds| then ds[k].inum else 0
  }

  /** alloc_inode: the first number that nobody has, beyond NINODES if all are taken. */
  function Fresh(t: Tree, n: nat): (m: nat)
    requires n <= NINODES + 1
    ensures n <= m <= NINODES + 1 && (m <= NINODES ==> !IsLive(t, m)) && forall i | n <= i < m :: IsLive(t, i)
    decreases NINODES + 1 - n
  {
    if n == NINODES + 1 || !IsLive(t, n) then n else Fresh(t, n + 1)
  }

  function PutEntry(t: Tree, j: nat, e: Dentry): Tree
    requires t.cwd in t.dirs && j < |t.dirs[t.cwd]|
  {
    t.(dirs := t.dirs[t.cwd := t.dirs[t.cwd][j := e]])
  }

  /** Filling an empty slot adds one entry for its inode and none for others. */
  lemma EntryAdded(t: Tree, j: nat, e: Dentry, n: nat)
    requires EntriesOk(t) && t.cwd in t.dirs && j < |t.dirs[t.cwd]| && t.dirs[t.cwd][j].inum == 0 && e.valid
    ensures Entries(PutEntry(t, j, e), n) == if n == e.inum then Entries(t, n) + {(t.cwd, j)} else Entries(t, n)
    ensures (t.cwd, j) !in Entries(t, n)
  {
    var t' := PutEntry(t, j, e);
    assert !t.dirs[t.cwd][j].valid by {
      if t.dirs[t.cwd][j].valid {
        assert Names(t, t.cwd, j, 0);
        assert false;
      }
    }
    forall dir: nat, i: nat
      ensures Names(t', dir, i, n) <==> Names(t, dir, i, n) || ((dir, i) == (t.cwd, j) && n == e.inum)
    {
    }
  }

  /** Invalidating an entry takes one away from its inode. */
  lemma EntryRemoved(t: Tree, j: nat, n: nat)
    requires t.cwd in t.dirs && j < |t.dirs[t.cwd]| && t.dirs[t.cwd][j].valid
    ensures var e := t.dirs[t.cwd][j];
            var t' := PutEntry(t, j, e.(valid := false));
            && Entries(t', n) == (if n == e.inum then Entries(t, n) - {(t.cwd, j)} else Entries(t, n))
            && (n == e.inum ==> (t.cwd, j) in Entries(t, n))
  {
    var e := t.dirs[t.cwd][j];
    var t' := PutEntry(t, j, e.(valid := false));
    forall dir: nat, i: nat
      ensures Names(t', dir, i, n) <==> Names(t, dir, i, n) && !((dir, i) == (t.cwd, j) && n == e.inum)
    {
    }
    assert n == e.inum ==> Names(t, t.cwd, j, n);
  }

  // ---------------------------------------------------------------- the operations on the tree

  /** do_touch once the name is found to be new: a fresh, empty file with one link. */
  function Touched(t: Tree, n: nat, j: nat, name: seq<Byte>): Tree
    requires t.cwd in t.dirs && j < |t.dirs[t.cwd]|
  {
    PutEntry(t, j, Dentry(true, n, name)).(files := t.files[n := FileNode(1, 0, map[])])
  }

  /** do_ln */
  function LinkedTo(t: Tree, n: nat, j: nat, name: seq<Byte>): Tree
    requires t.cwd in t.dirs && j < |t.dirs[t.cwd]| && n in t.files
  {
    PutEntry(t, j, Dentry(true, n, name)).(files := t.files[n := t.files[n].(refs := t.files[n].refs + 1)])
  }

  /** do_mkdir: the new directory names itself and its parent. */
  function WithDirectory(t: Tree, n: nat, j: nat, name: seq<Byte>): Tree
    requires t.cwd in t.dirs && j < |t.dirs[t.cwd]|
  {
    var t' := PutEntry(t, j, Dentry(true, n, name));
    t'.(dirs := t'.dirs[n := NewDirectory(n, t.cwd)])
  }

  function NewDirectory(n: nat, parent: nat): (ds: seq<Dentry>)
    ensures |ds| == NSLOTS
  {
    [Dentry(true, n, Dot()), Dentry(true, parent, DotDot())] + seq(NSLOTS - 2, _ => Dentry(false, 0, []))
  }

  function Dot(): seq<Byte> {
    [46]
  }

  function DotDot(): seq<Byte> {
    [46, 46]
  }

  /** do_rm: the file goes with its last name. */
  function Removed(t: Tree, j: nat): Tree
    requires t.cwd in t.dirs && j < |t.dirs[t.cwd]| && t.dirs[t.cwd][j].inum in t.files
  {
    var e := t.dirs[t.cwd][j];
    var node := t.files[e.inum];
    PutEntry(t, j, e.(valid := false))
    .(files := if node.refs > 1 then t.files[e.inum := node.(refs := node.refs - 1)] else t.files - {e.inum})
  }

  function ByteAt(bytes: map<nat, Byte>, x: nat): Byte {
    if x in bytes then bytes[x] else 0
  }

  function Overwritten(bytes: map<nat, Byte>, offset: nat, data: seq<Byte>): map<nat, Byte>
    decreases |data|
  {
    if data == [] then bytes else Overwritten(bytes[offset := data[0]], offset + 1, data[1..])
  }

  lemma {:induction false} OverwrittenAt(bytes: map<nat, Byte>, offset: nat, data: seq<Byte>, x: nat)
    ensures ByteAt(Overwritten(bytes, offset, data), x) ==
            if offset <= x < offset + |data| then data[x - offset] else ByteAt(bytes, x)
    decreases |data|
  {
    if data != [] {
      OverwrittenAt(bytes[offset := data[0]], offset + 1, data[1..], x);
    }
  }

  /** do_fwrite */
  function Written(t: Tree, n: nat, offset: nat, data: seq<Byte>): Tree
    requires n in t.files
  {
    var node := t.files[n];
    t.(files := t.files[n := node.(size := if offset + |data| > node.size then offset + |data| else node.size,
                                   bytes := Overwritten(node.bytes, offset, data))])
  }

  // ---------------------------------------------------------------- they keep the invariant

  /** A new entry, together with what else changes, keeps the entries in order. */
  lemma AddedEntries(t: Tree, t': Tree, j: nat, e: Dentry)
    requires EntriesOk(t) && t.cwd in t.dirs && j == EmptyAt(t.dirs[t.cwd], 0) < |t.dirs[t.cwd]| && e.valid && e.inum != 0
    requires t'.dirs == PutEntry(t, j, e).dirs && IsLive(t', e.inum) && forall n | IsLive(t, n) :: IsLive(t', n)
    ensures EntriesOk(t')
  {
    forall dir: nat, i: nat, n: nat | Names(t', dir, i, n)
      ensures n != 0 && IsLive(t', n)
    {
      assert Names(t, dir, i, n) || n == e.inum;
    }
  }

  /** Entries depend on the directories alone. */
  lemma SameEntries(t: Tree, t': Tree, n: nat)
    requires t'.dirs == t.dirs
    ensures Entries(t', n) == Entries(t, n)
  {
    assert forall dir: nat, j: nat :: Names(t', dir, j, n) <==> Names(t, dir, j, n);
  }

  lemma Unnamed(t: Tree, n: nat)
    requires EntriesOk(t) && !IsLive(t, n)
    ensures Entries(t, n) == {}
  {
    assert forall dir: nat, j: nat :: !Names(t, dir, j, n);
  }

  lemma TouchedOk(t: Tree, n: nat, j: nat, name: seq<Byte>)
    requires TreeOk(t) && IsInum(n) && !IsLive(t, n) && j == EmptyAt(t.dirs[t.cwd], 0) < |t.dirs[t.cwd]|
    ensures TreeOk(Touched(t, n, j, name))
  {
    var e, t' := Dentry(true, n, name), Touched(t, n, j, name);
    assert InodesOk(t');
    hide InodesOk, Entries;
    AddedEntries(t, t', j, e);
    Unnamed(t, n);
    forall m | m in t'.files
      ensures t'.files[m].refs == |Entries(t', m)| > 0
    {
      EntryAdded(t, j, e, m);
      SameEntries(PutEntry(t, j, e), t', m);
    }
  }

  lemma LinkedToOk(t: Tree, n: nat, j: nat, name: seq<Byte>)
    requires TreeOk(t) && n in t.files && j == EmptyAt(t.dirs[t.cwd], 0) < |t.dirs[t.cwd]|
    ensures TreeOk(LinkedTo(t, n, j, name))
  {
    var e, t' := Dentry(true, n, name), LinkedTo(t, n, j, name);
    assert IsLive(t, n) && n != 0;
    assert InodesOk(t');
    hide InodesOk, Entries;
    AddedEntries(t, t', j, e);
    forall m | m in t'.files
      ensures t'.files[m].refs == |Entries(t', m)| > 0
    {
      EntryAdded(t, j, e, m);
      SameEntries(PutEntry(t, j, e), t', m);
    }
  }

  lemma WithDirectoryOk(t: Tree, n: nat, j: nat, name: seq<Byte>)
    requires TreeOk(t) && IsInum(n) && !IsLive(t, n) && j == EmptyAt(t.dirs[t.cwd], 0) < |t.dirs[t.cwd]|
    ensures TreeOk(WithDirectory(t, n, j, name))
  {
    var e, t' := Dentry(true, n, name), WithDirectory(t, n, j, name);
    assert IsLive(t, t.cwd) && t.cwd != 0;
    assert InodesOk(t');
    var t1 := PutEntry(t, j, e);
    forall dir: nat, i: nat, m: nat | Names(t', dir, i, m)
      ensures m != 0 && IsLive(t', m)
    {
      if dir != n {
        assert Names(t, dir, i, m) || m == e.inum;
      }
    }
    hide InodesOk;
    forall m | m in t'.files
      ensures t'.files[m].refs == |Entries(t', m)| > 0
    {
      EntryAdded(t, j, e, m);
      NewDirectoryNames(t, n, j, name, m);
    }
  }

  lemma NewDirectoryNames(t: Tree, n: nat, j: nat, name: seq<Byte>, m: nat)
    requires InodesOk(t) && j < |t.dirs[t.cwd]| && !IsLive(t, n) && m in t.files
    ensures Entries(WithDirectory(t, n, j, name), m) == Entries(PutEntry(t, j, Dentry(true, n, name)), m)
  {
    var t1, t' := PutEntry(t, j, Dentry(true, n, name)), WithDirectory(t, n, j, name);
    forall dir: nat, i: nat
      ensures Names(t', dir, i, m) <==> Names(t1, dir, i, m)
    {
    }
  }

  /** What do_rm does to the entries of every inode. */
  lemma RemovedEntries(t: Tree, j: nat, m: nat)
    requires InodesOk(t) && j < |t.dirs[t.cwd]| && t.dirs[t.cwd][j].valid && t.dirs[t.cwd][j].inum in t.files
    ensures var n := t.dirs[t.cwd][j].inum;
            && Entries(Removed(t, j), m) == (if m == n then Entries(t, m) - {(t.cwd, j)} else Entries(t, m))
            && (m == n ==> (t.cwd, j) in Entries(t, m) && |Entries(Removed(t, j), m)| == |Entries(t, m)| - 1)
  {
    var e := t.dirs[t.cwd][j];
    EntryRemoved(t, j, m);
    hide Entries;
    SameEntries(PutEntry(t, j, e.(valid := false)), Removed(t, j), m);
  }

  lemma RemovedNames(t: Tree, j: nat, dir: nat, i: nat, m: nat)
    requires TreeOk(t) && j < |t.dirs[t.cwd]| && t.dirs[t.cwd][j].valid && t.dirs[t.cwd][j].inum in t.files
    requires Names(Removed(t, j), dir, i, m)
    ensures m != 0 && IsLive(Removed(t, j), m)
  {
    var t' := Removed(t, j);
    assert Names(t, dir, i, m);
    hide InodesOk, Entries;
    SomeEntry(t', dir, i, m);
    RemovedEntries(t, j, m);
  }

  lemma RemovedOk(t: Tree, j: nat)
    requires TreeOk(t) && j < |t.dirs[t.cwd]| && t.dirs[t.cwd][j].valid && t.dirs[t.cwd][j].inum in t.files
    ensures TreeOk(Removed(t, j))
  {
    var t' := Removed(t, j);
    assert InodesOk(t');
    hide InodesOk, Entries, Names;
    forall dir: nat, i: nat, m: nat | Names(t', dir, i, m)
      ensures m != 0 && IsLive(t', m)
    {
      RemovedNames(t, j, dir, i, m);
    }
    forall m | m in t'.files
      ensures t'.files[m].refs == |Entries(t', m)| > 0
    {
      RemovedEntries(t, j, m);
    }
  }

  lemma SomeEntry(t: Tree, dir: nat, i: nat, m: nat)
    requires Names(t, dir, i, m)
    ensures |Entries(t, m)| > 0
  {
    assert (dir, i) in Entries(t, m);
  }

  /** The file is gone exactly when its last name is. */
  lemma LastNameGone(t: Tree, j: nat)
    requires TreeOk(t) && j < |t.dirs[t.cwd]| && t.dirs[t.cwd][j].valid && t.dirs[t.cwd][j].inum in t.files
    ensures var n, t' := t.dirs[t.cwd][j].inum, Removed(t, j);
            n in t'.files <==> Entries(t', n) != {}
  {
    RemovedEntries(t, j, t.dirs[t.cwd][j].inum);
    hide Entries;
  }

  lemma SameNamesOk(t: Tree, t': Tree)
    requires TreeOk(t) && t'.dirs == t.dirs && t'.cwd in t.dirs && t'.files.Keys == t.files.Keys
    requires forall n | n in t.files :: t'.files[n].refs == t.files[n].refs
    ensures TreeOk(t')
  {
    forall n
      ensures Entries(t', n) == Entries(t, n)
    {
      SameEntries(t, t', n);
    }
    hide Entries;
    assert forall dir: nat, j: nat, n: nat :: Names(t', dir, j, n) <==> Names(t, dir, j, n);
  }

  // ---------------------------------------------------------------- runs

  datatype Op =
    | Touch(name: seq<Byte>)
    | Ln(src: seq<Byte>, dst: seq<Byte>)
    | Rm(name: seq<Byte>)
    | Mkdir(name: seq<Byte>)
    | Cd(name: seq<Byte>)
    | Write(name: seq<Byte>, offset: nat, data: seq<Byte>)

  /** A C string that is one component and fits the 16-byte copy of parse_path. */
  predicate IsComponent(name: seq<Byte>) {
    |name| <= 14 && 0 !in name && 47 !in name
  }

  /** The scan for the name ends inside the directory's block. */
  predicate ScanEnds(t: Tree, name: seq<Byte>)
    requires t.cwd in t.dirs
  {
    var ds := t.dirs[t.cwd];
    Find(ds, name, 0) < |ds| || EmptyAt(ds, 0) < |ds|
  }

  /** What the calls take for granted: a free slot, a free inode, and for do_ln and the write an existing file. */
  predicate Allowed(t: Tree, op: Op)
    requires t.cwd in t.dirs
  {
    var ds := t.dirs[t.cwd];
    match op
    case Touch(name) => 0 !in name && EmptyAt(ds, 0) < |ds| && Fresh(t, 1) <= NINODES
    case Mkdir(name) => 0 !in name && EmptyAt(ds, 0) < |ds| && Fresh(t, 1) <= NINODES
    case Ln(src, dst) =>
      IsComponent(src) && 0 !in dst && |dst| <= DENTRY_NAME_LEN && EmptyAt(ds, 0) < |ds| && Parse(t, src) in t.files
    case Rm(name) => IsComponent(name) && ScanEnds(t, name)
    case Cd(name) => IsComponent(name) && ScanEnds(t, name)
    case Write(name, offset, data) =>
      IsComponent(name) && ScanEnds(t, name) && Parse(t, name) in t.files && offset + |data| < 0x100000000
  }

  /** do_touch and do_mkdir refuse names that are too long or taken. */
  predicate Refused(t: Tree, name: seq<Byte>)
    requires t.cwd in t.dirs
  {
    |name| > DENTRY_NAME_LEN || Find(t.dirs[t.cwd], name, 0) < |t.dirs[t.cwd]|
  }

  function Step(t: Tree, op: Op): Tree
    requires t.cwd in t.dirs && Allowed(t, op)
  {
    var ds := t.dirs[t.cwd];
    match op
    case Touch(name) => if Refused(t, name) then t else Touched(t, Fresh(t, 1), EmptyAt(ds, 0), name)
    case Mkdir(name) => if Refused(t, name) then t else WithDirectory(t, Fresh(t, 1), EmptyAt(ds, 0), name)
    case Ln(src, dst) => if src == dst then t else LinkedTo(t, Parse(t, src), EmptyAt(ds, 0), dst)
    case Rm(name) =>
      var k := Find(ds, name, 0);
      if name != [] && k < |ds| && ds[k].inum in t.files then Removed(t, k) else t
    case Cd(name) => if Parse(t, name) in t.dirs then t.(cwd := Parse(t, name)) else t
    case Write(name, offset, data) => Written(t, Parse(t, name), offset, data)
  }

  /** Every operation keeps each file's link count equal to the number of entries that name it. */
  lemma StepOk(t: Tree, op: Op)
    requires TreeOk(t) && Allowed(t, op)
    ensures TreeOk(Step(t, op))
  {
    hide EntriesOk, CountsOk;
    match op
    case Touch(name) => if !Refused(t, name) { TouchedOk(t, Fresh(t, 1), EmptyAt(t.dirs[t.cwd], 0), name); }
    case Mkdir(name) => if !Refused(t, name) { WithDirectoryOk(t, Fresh(t, 1), EmptyAt(t.dirs[t.cwd], 0), name); }
    case Ln(src, dst) => if src != dst { LinkedToOk(t, Parse(t, src), EmptyAt(t.dirs[t.cwd], 0), dst); }
    case Rm(name) =>
      var k := Find(t.dirs[t.cwd], name, 0);
      if name != [] && k < |t.dirs[t.cwd]| && t.dirs[t.cwd][k].inum in t.files { RemovedOk(t, k); }
    case Cd(name) => SameNamesOk(t, Step(t, op));
    case Write(name, offset, data) => SameNamesOk(t, Step(t, op));
  }

  ghost predicate CanRun(t: Tree, ops: seq<Op>)
    requires TreeOk(t)
    decreases |ops|
  {
    ops == [] || (Allowed(t, ops[0]) && (StepOk(t, ops[0]); CanRun(Step(t, ops[0]), ops[1..])))
  }

  /** The tree after a run; the link counts are right in it. */
  ghost function After(t: Tree, ops: seq<Op>): (t': Tree)
    requires TreeOk(t) && CanRun(t, ops)
    ensures TreeOk(t')
    decreases |ops|
  {
    hide TreeOk, Step;
    if ops == [] then t else StepOk(t, ops[0]); After(Step(t, ops[0]), ops[1..])
  }
}
