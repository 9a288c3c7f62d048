/** The disk that a tree of directories and files is kept on, and the disk writes of the calls of kernel/fs/fs.c. */
module TreeOnDisk {
  import opened Bitmap
  import opened Bytes
  import opened BlockMap
  import opened Files
  import opened Directories
  import opened Dentries

  const FILE := 1
  const DIRECTORY := 2

  // ---------------------------------------------------------------- the relation

  ghost predicate ShowsFile(node: FileNode, d: Disk, n: nat)
    requires DiskOk(d)
  {
    && IsInum(n) && ReadInode(d, n).kind == FILE && ReadInode(d, n).refs == node.refs && ReadInode(d, n).size == node.size
    && forall x: nat :: FileByte(d, n, x) == ByteAt(node.bytes, x)
  }

  ghost predicate ShowsDir(ds: seq<Dentry>, d: Disk, n: nat)
    requires DiskOk(d)
  {
    && IsInum(n) && ReadInode(d, n).kind == DIRECTORY && ReadInode(d, n).size == 0 && ReadInode(d, n).refs == 1
    && ReadInode(d, n).direct[0] != 0
    && AllEntries(ReadBlock(d, ReadInode(d, n).direct[0])) == ds
  }

  /** The disk holds exactly the tree: its inodes, link counts, bytes and entries. */
  ghost predicate Shows(t: Tree, d: Disk) {
    && FsOk(d)
    && (forall n :: Live(d, n) <==> IsLive(t, n))
    && (forall n | n in t.files :: ShowsFile(t.files[n], d, n))
    && (forall n | n in t.dirs :: ShowsDir(t.dirs[n], d, n))
  }

  /** The inode m and the bytes of its file are as before. */
  ghost predicate KeepsFile(d: Disk, d': Disk, m: nat)
    requires DiskOk(d) && DiskOk(d') && IsInum(m)
  {
    ReadInode(d', m) == ReadInode(d, m) && forall x: nat :: FileByte(d', m, x) == FileByte(d, m, x)
  }

  /** The first block of a live inode is its first direct block. */
  lemma FirstBlock(d: Disk, n: nat, x: nat)
    requires DiskOk(d) && Live(d, n) && IsInum(n) && x < NBYTES_PER_BLOCK && ReadInode(d, n).direct[0] != 0
    ensures Target(d, Direct(n, 0)) == ReadInode(d, n).direct[0]
    ensures FileByte(d, n, x) == ReadBlock(d, ReadInode(d, n).direct[0])[x]
  {
    assert x / NBYTES_PER_BLOCK == 0 && x % NBYTES_PER_BLOCK == x;
    DirectTargets(d, n, Direct(n, 0));
    hide Target;
  }

  lemma KeptFile(d: Disk, d': Disk, n: nat, node: FileNode)
    requires DiskOk(d) && DiskOk(d') && ShowsFile(node, d, n) && KeepsFile(d, d', n)
    ensures ShowsFile(node, d', n)
  {
    hide FileByte;
  }

  lemma KeptDir(d: Disk, d': Disk, n: nat, ds: seq<Dentry>)
    requires DiskOk(d) && DiskOk(d') && ShowsDir(ds, d, n) && KeepsFile(d, d', n) && Live(d, n) && Live(d', n)
    ensures ShowsDir(ds, d', n)
  {
    hide FileByte;
    var b := ReadInode(d, n).direct[0];
    forall x | 0 <= x < NBYTES_PER_BLOCK
      ensures ReadBlock(d', b)[x] == ReadBlock(d, b)[x]
    {
      FirstBlock(d, n, x);
      FirstBlock(d', n, x);
    }
    assert ReadBlock(d', b) == ReadBlock(d, b);
  }

  /** All inodes of t but those in except are as before: what the tree says of them still holds. */
  lemma KeptAll(t: Tree, d: Disk, d': Disk, except: set<nat>)
    requires Shows(t, d) && DiskOk(d')
    requires forall n | IsLive(t, n) && n !in except :: Live(d', n) && IsInum(n) && KeepsFile(d, d', n)
    ensures forall n | n in t.files && n !in except :: ShowsFile(t.files[n], d', n)
    ensures forall n | n in t.dirs && n !in except :: ShowsDir(t.dirs[n], d', n)
  {
    hide ShowsFile, ShowsDir, KeepsFile, FsOk, FileByte;
    forall n | n in t.files && n !in except
      ensures ShowsFile(t.files[n], d', n)
    {
      assert IsLive(t, n);
      ShowsDisk(t, d);
      KeptFile(d, d', n, t.files[n]);
    }
    forall n | n in t.dirs && n !in except
      ensures ShowsDir(t.dirs[n], d', n)
    {
      assert IsLive(t, n) && Live(d, n);
      ShowsDisk(t, d);
      KeptDir(d, d', n, t.dirs[n]);
    }
  }

  lemma ShowsDisk(t: Tree, d: Disk)
    requires Shows(t, d)
    ensures FsOk(d) && DiskOk(d)
  {
  }

  /** In the tree only the inode n changes. */
  ghost predicate OnlyInode(t: Tree, t': Tree, n: nat) {
    && t'.files.Keys - {n} == t.files.Keys - {n} && t'.dirs.Keys - {n} == t.dirs.Keys - {n}
    && (forall m | m in t.files && m != n :: m in t'.files && t'.files[m] == t.files[m])
    && (forall m | m in t.dirs && m != n :: m in t'.dirs && t'.dirs[m] == t.dirs[m])
  }

  /** If the disk shows the new state of n and keeps everything else, it shows the new tree. */
  lemma ShowsNow(t: Tree, d: Disk, t': Tree, d': Disk, n: nat)
    requires Shows(t, d) && FsOk(d') && OnlyInode(t, t', n)
    requires forall m :: Live(d', m) <==> if m == n then IsLive(t', n) else Live(d, m)
    requires forall m | IsLive(t, m) && m != n :: IsInum(m) && KeepsFile(d, d', m)
    requires n in t'.files ==> ShowsFile(t'.files[n], d', n)
    requires n in t'.dirs ==> ShowsDir(t'.dirs[n], d', n)
    ensures Shows(t', d')
  {
    hide ShowsFile, ShowsDir, KeepsFile, MapOk, MetaOk, DiskOk, Used;
    assert forall m | m in t'.files && m != n :: m in t'.files.Keys - {n};
    assert forall m | m in t'.dirs && m != n :: m in t'.dirs.Keys - {n};
    KeptAll(t, d, d', {n});
  }

  /** Same block numbers, same blocks: same bytes. */
  lemma SameBytes(d: Disk, d': Disk, n: nat, x: nat)
    requires DiskOk(d) && DiskOk(d') && d'.blocks == d.blocks && forall r: Ref | r.n == n :: Target(d', r) == Target(d, r)
    ensures FileByte(d', n, x) == FileByte(d, n, x)
  {
    assert DataRef(n, x / NBYTES_PER_BLOCK).n == n;
    hide Target;
  }

  // ---------------------------------------------------------------- a new file

  /** alloc_inode and write_inode of do_touch. */
  function NewFile(d: Disk, n: nat): Disk
    requires DiskOk(d) && InMap(d.inodeMap, n)
  {
    WriteInode(d.(inodeMap := SetBit(d.inodeMap, n, true)), n, EmptyFile())
  }

  function EmptyFile(): (ino: Inode)
    ensures |ino.direct| == NDIRECT_BLOCKS
  {
    Inode(FILE, 0, 1, seq(NDIRECT_BLOCKS, _ => 0), 0, 0)
  }

  lemma MarkedInode(d: Disk, n: nat, v: bool)
    requires DiskOk(d) && InMap(d.inodeMap, n)
    ensures IsInum(n) && forall m :: Live(d.(inodeMap := SetBit(d.inodeMap, n, v)), m) <==> if m == n then v else Live(d, m)
  {
    forall m
      ensures Used(SetBit(d.inodeMap, n, v), m) <==> if m == n then v else Used(d.inodeMap, m)
    {
      SetBitUsed(d.inodeMap, n, v, m);
    }
  }

  lemma NewFileTargets(d: Disk, n: nat, r: Ref)
    requires DiskOk(d) && InMap(d.inodeMap, n) && !Live(d, n)
    ensures DiskOk(NewFile(d, n)) && Target(NewFile(d, n), r) == Target(d, r)
  {
    MarkedInode(d, n, true);
    var d1 := d.(inodeMap := SetBit(d.inodeMap, n, true));
    hide Used, InMap, SetBit;
    if Live(d1, r.n) {
      LiveInum(d1, r.n);
      InodeStored(d1, n, EmptyFile(), r.n);
    }
  }

  lemma NewFileIs(d: Disk, n: nat)
    requires FsOk(d) && InMap(d.inodeMap, n) && !Live(d, n)
    ensures var d' := NewFile(d, n);
            && FsOk(d') && (forall m :: Live(d', m) <==> Live(d, m) || m == n) && ReadInode(d', n) == EmptyFile()
            && (forall m | IsInum(m) && m != n :: ReadInode(d', m) == ReadInode(d, m))
            && (forall m, x: nat :: FileByte(d', m, x) == FileByte(d, m, x))
  {
    var d' := NewFile(d, n);
    MarkedInode(d, n, true);
    var d1 := d.(inodeMap := SetBit(d.inodeMap, n, true));
    forall m | IsInum(m)
      ensures ReadInode(d', m) == if m == n then EmptyFile() else ReadInode(d, m)
    {
      InodeStored(d1, n, EmptyFile(), m);
    }
    forall r
      ensures Target(d', r) == Target(d, r)
    {
      NewFileTargets(d, n, r);
    }
    SameTargets(d, d');
    hide Target, MapOk, MetaOk, SetBit;
    forall m, x: nat
      ensures FileByte(d', m, x) == FileByte(d, m, x)
    {
      SameBytes(d, d', m, x);
    }
  }

  lemma NewFileShows(t: Tree, d: Disk, n: nat)
    requires Shows(t, d) && InMap(d.inodeMap, n) && !IsLive(t, n)
    ensures Shows(t.(files := t.files[n := FileNode(1, 0, map[])]), NewFile(d, n))
  {
    var t', d' := t.(files := t.files[n := FileNode(1, 0, map[])]), NewFile(d, n);
    assert !Live(d, n);
    NewFileIs(d, n);
    FreshIsEmpty(d, n);
    MarkedInode(d, n, true);
    hide FileByte, FsOk, SetBit, Used, InMap, AllEntries;
    forall m | IsLive(t, m)
      ensures IsInum(m)
    {
      ShowsInum(t, d, m);
    }
    hide Shows;
    ShowsNow(t, d, t', d', n);
  }

  lemma NotLiveYet(t: Tree, d: Disk, n: nat)
    requires Shows(t, d) && !IsLive(t, n)
    ensures !Live(d, n)
  {
  }

  lemma SameLive(d: Disk, d': Disk)
    requires d'.inodeMap == d.inodeMap
    ensures forall m :: Live(d', m) <==> Live(d, m)
  {
  }

  lemma ShowsInum(t: Tree, d: Disk, m: nat)
    requires Shows(t, d) && IsLive(t, m)
    ensures IsInum(m) && Live(d, m)
  {
  }

  /** An inode that is not in use has no bytes. */
  lemma FreshIsEmpty(d: Disk, n: nat)
    requires DiskOk(d) && !Live(d, n)
    ensures forall x: nat :: FileByte(d, n, x) == 0
  {
    forall x: nat
      ensures FileByte(d, n, x) == 0
    {
      assert DataRef(n, x / NBYTES_PER_BLOCK).n == n;
    }
  }

  // ---------------------------------------------------------------- entries and link counts

  /** write_block of a directory's block. */
  lemma EnterShows(t: Tree, d: Disk, dir: nat, x: Block)
    requires Shows(t, d) && dir in t.dirs && InodesOk(t)
    ensures FsOk(d) && IsInum(dir)
    ensures Shows(t.(dirs := t.dirs[dir := AllEntries(x)]), WriteBlock(d, ReadInode(d, dir).direct[0], x))
  {
    hide Target, AllEntries, MapOk, MetaOk, FileByte, Used, Shows, KeepsFile;
    DirFacts(t, d, dir);
    var b := ReadInode(d, dir).direct[0];
    var t', d' := t.(dirs := t.dirs[dir := AllEntries(x)]), WriteBlock(d, b, x);
    StoreBlock(d, Direct(dir, 0), b, x);
    assert ShowsDir(AllEntries(x), d', dir);
    forall m | IsLive(t, m) && m != dir
      ensures IsInum(m) && KeepsFile(d, d', m)
    {
      ShowsInum(t, d, m);
      OtherFileKeeps(d, dir, b, x, m);
    }
    ShowsNow(t, d, t', d', dir);
  }

  lemma DirFacts(t: Tree, d: Disk, dir: nat)
    requires Shows(t, d) && dir in t.dirs && InodesOk(t)
    ensures FsOk(d) && IsInum(dir) && Live(d, dir) && ShowsDir(t.dirs[dir], d, dir) && dir !in t.files
    ensures Target(d, Direct(dir, 0)) == ReadInode(d, dir).direct[0] != 0
  {
    assert IsLive(t, dir) && ShowsDir(t.dirs[dir], d, dir);
    FirstBlock(d, dir, 0);
  }

  lemma FileFacts(t: Tree, d: Disk, n: nat)
    requires Shows(t, d) && n in t.files && InodesOk(t)
    ensures FsOk(d) && IsInum(n) && Live(d, n) && ShowsFile(t.files[n], d, n) && n !in t.dirs
  {
    assert IsLive(t, n) && ShowsFile(t.files[n], d, n);
  }

  /** Writing the first block of one inode changes no byte of another. */
  lemma OtherFileKeeps(d: Disk, dir: nat, b: nat, x: Block, m: nat)
    requires FsOk(d) && Target(d, Direct(dir, 0)) == b != 0 && m != dir && IsInum(m)
    ensures DiskOk(WriteBlock(d, b, x)) && KeepsFile(d, WriteBlock(d, b, x), m)
  {
    var d' := WriteBlock(d, b, x);
    StoreBlock(d, Direct(dir, 0), b, x);
    hide Target;
    forall y: nat
      ensures FileByte(d', m, y) == FileByte(d, m, y)
    {
      var r := DataRef(m, y / NBYTES_PER_BLOCK);
      assert r.n == m;
      OtherBlock(d, Direct(dir, 0), r);
    }
  }

  /** write_inode with another link count. */
  lemma RefsIs(d: Disk, n: nat, refs: nat)
    requires FsOk(d) && IsInum(n) && Live(d, n)
    ensures var ino := ReadInode(d, n).(refs := refs);
            var d' := WriteInode(d, n, ino);
            && FsOk(d') && d'.inodeMap == d.inodeMap && ReadInode(d', n) == ino
            && (forall m | IsInum(m) && m != n :: KeepsFile(d, d', m))
            && (forall x: nat :: FileByte(d', n, x) == FileByte(d, n, x))
  {
    var ino := ReadInode(d, n).(refs := refs);
    var d' := WriteInode(d, n, ino);
    forall m | IsInum(m)
      ensures ReadInode(d', m) == if m == n then ino else ReadInode(d, m)
    {
      InodeStored(d, n, ino, m);
    }
    forall r
      ensures Target(d', r) == Target(d, r)
    {
      StoreInode(d, n, ino, r);
      DirectTargets(d, n, r);
    }
    SameTargets(d, d');
    hide Target, MapOk, MetaOk;
    forall m, x: nat
      ensures FileByte(d', m, x) == FileByte(d, m, x)
    {
      SameBytes(d, d', m, x);
    }
  }

  lemma RefsShow(t: Tree, d: Disk, n: nat, refs: nat)
    requires Shows(t, d) && n in t.files && InodesOk(t)
    ensures FsOk(d) && IsInum(n)
    ensures Shows(t.(files := t.files[n := t.files[n].(refs := refs)]), WriteInode(d, n, ReadInode(d, n).(refs := refs)))
  {
    hide FileByte, MapOk, MetaOk, Used, Shows, KeepsFile, WriteInode;
    FileFacts(t, d, n);
    RefsIs(d, n, refs);
    var t', d' := t.(files := t.files[n := t.files[n].(refs := refs)]), WriteInode(d, n, ReadInode(d, n).(refs := refs));
    forall m | IsLive(t, m) && m != n
      ensures IsInum(m)
    {
      ShowsInum(t, d, m);
    }
    ShowsNow(t, d, t', d', n);
  }

  // ---------------------------------------------------------------- a file goes

  /** for (i < NDIRECT_BLOCKS) free_block(direct[i]) */
  function FreeAll(s: seq<Sector>, bs: seq<nat>): (s': seq<Sector>)
    requires forall b | b in bs && b != 0 :: InMap(s, b)
    ensures |s'| == |s|
    decreases |bs|
  {
    if bs == [] then s else
    var s1 := if bs[0] == 0 then s else SetBit(s, bs[0], false);
    RestInMap(s, s1, bs);
    FreeAll(s1, bs[1..])
  }

  lemma RestInMap(s: seq<Sector>, s1: seq<Sector>, bs: seq<nat>)
    requires bs != [] && |s1| == |s| && forall b | b in bs && b != 0 :: InMap(s, b)
    ensures forall b | b in bs[1..] && b != 0 :: InMap(s1, b)
  {
    forall b | b in bs[1..] && b != 0
      ensures InMap(s1, b)
    {
      assert b in bs;
    }
  }

  /** The blocks in the list become free and no other. */
  lemma {:induction false} FreeAllUsed(s: seq<Sector>, bs: seq<nat>, m: nat)
    requires forall b | b in bs && b != 0 :: InMap(s, b)
    ensures Used(FreeAll(s, bs), m) <==> Used(s, m) && m !in bs
    decreases |bs|
  {
    if bs != [] {
      var s1 := if bs[0] == 0 then s else SetBit(s, bs[0], false);
      RestInMap(s, s1, bs);
      if bs[0] != 0 {
        SetBitUsed(s, bs[0], false, m);
      }
      FreeAllUsed(s1, bs[1..], m);
      assert m in bs <==> m == bs[0] || m in bs[1..];
    }
  }

  /** The direct blocks of a live inode are in the block map. */
  lemma DirectInMap(d: Disk, n: nat)
    requires FsOk(d) && Live(d, n) && IsInum(n)
    ensures forall b | b in ReadInode(d, n).direct && b != 0 :: InMap(d.blockMap, b) && b > NMETA_BLOCKS
  {
    var bs := ReadInode(d, n).direct;
    forall b | b in bs && b != 0
      ensures InMap(d.blockMap, b) && b > NMETA_BLOCKS
    {
      var i: nat :| i < |bs| && bs[i] == b;
      DirectTargets(d, n, Direct(n, i));
      assert Used(d.blockMap, Target(d, Direct(n, i)));
    }
  }

  /** free_inode and the freeing of the direct blocks in do_rm. */
  function FreeFile(d: Disk, n: nat): Disk
    requires FsOk(d) && Live(d, n) && IsInum(n)
  {
    DirectInMap(d, n);
    d.(inodeMap := SetBit(d.inodeMap, n, false), blockMap := FreeAll(d.blockMap, ReadInode(d, n).direct))
  }

  lemma FreeFileTargets(d: Disk, n: nat, r: Ref)
    requires FsOk(d) && Live(d, n) && IsInum(n)
    ensures DiskOk(FreeFile(d, n)) && Target(FreeFile(d, n), r) == if r.n == n then 0 else Target(d, r)
  {
    MarkedInode(d, n, false);
    DirectInMap(d, n);
    hide Used, InMap, SetBit, FreeAll, MapOk, MetaOk;
    assert Live(FreeFile(d, n), r.n) <==> Live(d, r.n) && r.n != n;
  }

  /** A block of one file is no direct block of another. */
  lemma NotDirect(d: Disk, n: nat, r: Ref)
    requires FsOk(d) && Live(d, n) && IsInum(n) && Target(d, r) != 0 && !(r.Direct? && r.n == n)
    ensures Target(d, r) !in ReadInode(d, n).direct
  {
    var bs := ReadInode(d, n).direct;
    if Target(d, r) in bs {
      var i: nat :| i < |bs| && bs[i] == Target(d, r);
      DirectTargets(d, n, Direct(n, i));
      assert false;
    }
  }

  lemma FreeFileOk(d: Disk, n: nat)
    requires FsOk(d) && Live(d, n) && IsInum(n)
    ensures FsOk(FreeFile(d, n))
    ensures forall b :: Used(FreeFile(d, n).blockMap, b) <==> Used(d.blockMap, b) && b !in ReadInode(d, n).direct
  {
    var d' := FreeFile(d, n);
    DirectInMap(d, n);
    forall b
      ensures Used(d'.blockMap, b) <==> Used(d.blockMap, b) && b !in ReadInode(d, n).direct
    {
      FreeAllUsed(d.blockMap, ReadInode(d, n).direct, b);
    }
    forall r
      ensures DiskOk(d') && Target(d', r) == if r.n == n then 0 else Target(d, r)
    {
      FreeFileTargets(d, n, r);
    }
    assert DiskOk(d');
    hide Target, FreeAll, Used, FreeFile;
    forall r | Target(d', r) != 0
      ensures NMETA_BLOCKS < Target(d', r) && Used(d'.blockMap, Target(d', r))
    {
      NotDirect(d, n, r);
    }
    assert MapOk(d');
    assert MetaOk(d') by {
      forall m: nat | 1 <= m <= NMETA_BLOCKS
        ensures Used(d'.blockMap, m)
      {
        assert m !in ReadInode(d, n).direct;
      }
    }
  }

  lemma FreeFileLive(d: Disk, n: nat)
    requires FsOk(d) && Live(d, n) && IsInum(n)
    ensures forall m :: Live(FreeFile(d, n), m) <==> Live(d, m) && m != n
  {
    MarkedInode(d, n, false);
  }

  lemma FreeFileKeeps(d: Disk, n: nat, m: nat)
    requires FsOk(d) && Live(d, n) && IsInum(n) && IsInum(m) && m != n
    ensures DiskOk(FreeFile(d, n)) && KeepsFile(d, FreeFile(d, n), m)
  {
    var d' := FreeFile(d, n);
    forall r: Ref | r.n == m
      ensures DiskOk(d') && Target(d', r) == Target(d, r)
    {
      FreeFileTargets(d, n, r);
    }
    FreeFileOk(d, n);
    assert d'.blocks == d.blocks && d'.inodes == d.inodes;
    hide Target, FreeFile, MapOk, MetaOk;
    forall x: nat
      ensures FileByte(d', m, x) == FileByte(d, m, x)
    {
      SameBytes(d, d', m, x);
    }
  }

  lemma FreeFileShows(t: Tree, d: Disk, n: nat)
    requires Shows(t, d) && n in t.files && InodesOk(t)
    ensures FsOk(d) && Live(d, n) && IsInum(n)
    ensures Shows(t.(files := t.files - {n}), FreeFile(d, n))
  {
    hide MapOk, MetaOk, DiskOk, FreeFile, Live, Shows, KeepsFile, FileByte, ShowsFile, ShowsDir;
    FileFacts(t, d, n);
    var t', d' := t.(files := t.files - {n}), FreeFile(d, n);
    FreeFileOk(d, n);
    FreeFileLive(d, n);
    forall m | IsLive(t, m) && m != n
      ensures IsInum(m) && KeepsFile(d, d', m)
    {
      ShowsInum(t, d, m);
      FreeFileKeeps(d, n, m);
    }
    ShowsNow(t, d, t', d', n);
  }

  /**
   do_rm frees direct blocks only: with the last name all blocks of the file become free if and only if
   the file has no index tables.
   */
  lemma RmFreesAll(d: Disk, n: nat)
    requires FsOk(d) && Live(d, n) && IsInum(n)
    ensures (forall r: Ref | r.n == n && Target(d, r) != 0 :: !Used(FreeFile(d, n).blockMap, Target(d, r)))
            <==> ReadInode(d, n).indirect == 0 && ReadInode(d, n).double == 0
  {
    var d', ino := FreeFile(d, n), ReadInode(d, n);
    FreeFileOk(d, n);
    IndexBlocks(d, n);
    if ino.indirect == 0 && ino.double == 0 {
      forall r: Ref | r.n == n && Target(d, r) != 0
        ensures !Used(d'.blockMap, Target(d, r))
      {
        OnlyDirect(d, n, r);
      }
    } else {
      var r := if ino.indirect != 0 then Indirect(n) else Double(n);
      NotDirect(d, n, r);
      assert Used(d'.blockMap, Target(d, r));
    }
  }

  lemma OnlyDirect(d: Disk, n: nat, r: Ref)
    requires DiskOk(d) && Live(d, n) && IsInum(n) && r.n == n && Target(d, r) != 0
    requires ReadInode(d, n).indirect == 0 && ReadInode(d, n).double == 0
    ensures Target(d, r) in ReadInode(d, n).direct
  {
    DirectTargets(d, n, r);
  }

  /** What do_rm of a name of the file n does to the block map. */
  ghost predicate RmBlocks(refs: nat, d: Disk, d': Disk, n: nat) {
    && FsOk(d) && Live(d, n) && IsInum(n)
    && d'.blockMap == if refs > 1 then d.blockMap else FreeFile(d, n).blockMap
  }

  /** A file with an index table, the smallest disk on which do_rm leaks. */
  function OneTable(): Disk {
    FormattedOk();
    var d := Formatted();
    WriteInode(d.(inodeMap := SetBit(d.inodeMap, 2, true), blockMap := SetBit(d.blockMap, 72, true)), 2,
               EmptyFile().(indirect := 72))
  }

  lemma OneTableTargets(r: Ref)
    ensures DiskOk(OneTable()) && Target(OneTable(), r) == if r == Indirect(2) then 72 else 0
  {
    FormattedOk();
    var d := Formatted();
    var d1 := d.(inodeMap := SetBit(d.inodeMap, 2, true), blockMap := SetBit(d.blockMap, 72, true));
    MarkedInode(d, 2, true);
    assert Live(d1, r.n) <==> r.n == 2;
    assert d1.blocks == map[];
    hide Formatted, SetBit, Used, FsOk;
    if r.n == 2 {
      InodeStored(d1, 2, EmptyFile().(indirect := 72), 2);
      if r.Single? && r.j < NINDIRECT_BLOCKS {
        DecodeZeros(ZeroBlock()[4 * r.j..4 * r.j + 4]);
      }
    }
  }

  /** do_rm of the only file of that disk leaves its table marked, and the table belongs to nobody. */
  lemma RmLeaksHere()
    ensures var d := OneTable();
            && FsOk(d) && Live(d, 2)
            && var d' := FreeFile(d, 2); Used(d'.blockMap, 72) && forall r :: Target(d', r) == 0
  {
    var d := OneTable();
    FormattedOk();
    forall r
      ensures DiskOk(d) && Target(d, r) == if r == Indirect(2) then 72 else 0
    {
      OneTableTargets(r);
    }
    forall m: nat
      ensures Used(d.blockMap, m) <==> Used(Formatted().blockMap, m) || m == 72
    {
      SetBitUsed(Formatted().blockMap, 72, true, m);
    }
    MarkedInode(Formatted(), 2, true);
    assert Live(d, 2);
    hide Target, OneTable, Formatted, SetBit;
    assert FsOk(d);
    IndexBlocks(d, 2);
    RmLeaks(d, 2);
    forall r
      ensures Target(FreeFile(d, 2), r) == 0
    {
      FreeFileTargets(d, 2, r);
    }
  }

  /** A leaked index table stays marked although it is no block of any file. */
  lemma RmLeaks(d: Disk, n: nat)
    requires FsOk(d) && Live(d, n) && IsInum(n) && ReadInode(d, n).indirect != 0
    ensures var d', b := FreeFile(d, n), ReadInode(d, n).indirect;
            FsOk(d') && Used(d'.blockMap, b) && forall r :: Target(d', r) != b
  {
    var d', b := FreeFile(d, n), ReadInode(d, n).indirect;
    FreeFileOk(d, n);
    IndexBlocks(d, n);
    NotDirect(d, n, Indirect(n));
    assert Used(d.blockMap, Target(d, Indirect(n)));
    forall r
      ensures Target(d', r) != b
    {
      FreeFileTargets(d, n, r);
      if r.n != n {
        OtherBlock(d, Indirect(n), r);
      }
    }
  }

  // ---------------------------------------------------------------- a new directory

  function DirectoryInode(b: nat): (ino: Inode)
    ensures |ino.direct| == NDIRECT_BLOCKS
  {
    Inode(DIRECTORY, 0, 1, [b] + seq(NDIRECT_BLOCKS - 1, _ => 0), 0, 0)
  }

  /** init_dir_inode, with the inode and the block it has allocated. */
  function NewDir(d: Disk, n: nat, b: nat, parent: nat): Disk
    requires DiskOk(d) && InMap(d.inodeMap, n) && InMap(d.blockMap, b)
  {
    var d1 := d.(inodeMap := SetBit(d.inodeMap, n, true), blockMap := SetBit(d.blockMap, b, true));
    WriteBlock(WriteInode(d1, n, DirectoryInode(b)), b, DirectoryBlock(n, parent))
  }

  /** The inode part of it. */
  lemma NewDirTargets(d: Disk, n: nat, b: nat, r: Ref)
    requires FsOk(d) && InMap(d.inodeMap, n) && !Live(d, n) && InMap(d.blockMap, b) && !Used(d.blockMap, b)
    ensures var d1 := d.(inodeMap := SetBit(d.inodeMap, n, true), blockMap := SetBit(d.blockMap, b, true));
            var d2 := WriteInode(d1, n, DirectoryInode(b));
            DiskOk(d2) && Target(d2, r) == if r == Direct(n, 0) then b else Target(d, r)
  {
    MarkedInode(d, n, true);
    var d1 := d.(inodeMap := SetBit(d.inodeMap, n, true), blockMap := SetBit(d.blockMap, b, true));
    hide Used, InMap, SetBit, MapOk, MetaOk;
    assert Live(d1, r.n) <==> Live(d, r.n) || r.n == n;
    if Live(d1, r.n) {
      LiveInum(d1, r.n);
      InodeStored(d1, n, DirectoryInode(b), r.n);
    }
  }

  lemma NewDirIs(d: Disk, n: nat, b: nat, parent: nat)
    requires FsOk(d) && InMap(d.inodeMap, n) && !Live(d, n) && InMap(d.blockMap, b) && !Used(d.blockMap, b)
    ensures var d' := NewDir(d, n, b, parent);
            && FsOk(d') && (forall m :: Live(d', m) <==> Live(d, m) || m == n) && ReadInode(d', n) == DirectoryInode(b)
            && ReadBlock(d', b) == DirectoryBlock(n, parent)
            && (forall m | IsInum(m) && m != n :: KeepsFile(d, d', m))
  {
    var d' := NewDir(d, n, b, parent);
    var d1 := d.(inodeMap := SetBit(d.inodeMap, n, true), blockMap := SetBit(d.blockMap, b, true));
    var d2 := WriteInode(d1, n, DirectoryInode(b));
    MarkedInode(d, n, true);
    forall m | IsInum(m)
      ensures ReadInode(d', m) == if m == n then DirectoryInode(b) else ReadInode(d, m)
    {
      InodeStored(d1, n, DirectoryInode(b), m);
    }
    assert forall m :: Live(d', m) <==> Live(d, m) || m == n;
    forall r
      ensures DiskOk(d2) && Target(d2, r) == if r == Direct(n, 0) then b else Target(d, r)
    {
      NewDirTargets(d, n, b, r);
    }
    assert DiskOk(d2) && b != 0;
    LinkedMapOk(d, d2, Direct(n, 0), b);
    StoreBlock(d2, Direct(n, 0), b, DirectoryBlock(n, parent));
    hide Target, Used, InMap, SetBit, DirectoryBlock, FsOk;
    forall m | IsInum(m) && m != n
      ensures KeepsFile(d, d', m)
    {
      OtherFileKeeps(d2, n, b, DirectoryBlock(n, parent), m);
      forall x: nat
        ensures FileByte(d2, m, x) == FileByte(d, m, x)
      {
        SameBytes(d, d2, m, x);
      }
      hide FileByte;
    }
  }

  lemma NewDirShows(t: Tree, d: Disk, n: nat, b: nat, parent: nat)
    requires Shows(t, d) && InMap(d.inodeMap, n) && !IsLive(t, n) && InMap(d.blockMap, b) && !Used(d.blockMap, b)
    requires IsInum(parent)
    ensures Shows(t.(dirs := t.dirs[n := NewDirectory(n, parent)]), NewDir(d, n, b, parent))
  {
    hide FileByte, MapOk, MetaOk, SetBit, Live, InMap, AllEntries, NewDirectory, DirectoryBlock, KeepsFile, NewDir, Shows;
    ShowsDisk(t, d);
    NotLiveYet(t, d, n);
    InMapPositive(d.blockMap, b);
    var t', d' := t.(dirs := t.dirs[n := NewDirectory(n, parent)]), NewDir(d, n, b, parent);
    NewDirIs(d, n, b, parent);
    MarkedInode(d, n, true);
    DirectoryBlockIs(n, parent);
    assert ShowsDir(NewDirectory(n, parent), d', n);
    forall m | IsLive(t, m) && m != n
      ensures IsInum(m) && KeepsFile(d, d', m)
    {
      ShowsInum(t, d, m);
    }
    ShowsNow(t, d, t', d', n);
  }

  /** do_mkfs: the root directory in inode 1 and block 71 of the formatted disk. */
  lemma RootShows()
    ensures InMap(Formatted().inodeMap, 1) && InMap(Formatted().blockMap, NMETA_BLOCKS + 1) && DiskOk(Formatted())
    ensures Shows(RootOnly(), NewDir(Formatted(), 1, NMETA_BLOCKS + 1, 1))
  {
    FormattedOk();
    hide Formatted, FsOk, Used;
    var t, d := Tree(map[], map[], 1), Formatted();
    assert Shows(t, d);
    NewDirShows(t, d, 1, NMETA_BLOCKS + 1, 1);
  }

  // ---------------------------------------------------------------- writing

  lemma WriteShows(t: Tree, d: Disk, d': Disk, n: nat, offset: nat, data: seq<Byte>)
    requires Shows(t, d) && n in t.files && InodesOk(t) && FsOk(d') && WroteFile(d, d', n, offset, data)
    ensures Shows(Written(t, n, offset, data), d')
  {
    hide FileByte, MapOk, MetaOk, Target, Live, Shows, Allocated, ShowsDir;
    var t' := Written(t, n, offset, data);
    FileFacts(t, d, n);
    SameLive(d, d');
    forall x: nat
      ensures FileByte(d', n, x) == ByteAt(t'.files[n].bytes, x)
    {
      OverwrittenAt(t.files[n].bytes, offset, data, x);
    }
    forall m | IsLive(t, m) && m != n
      ensures IsInum(m) && KeepsFile(d, d', m)
    {
      ShowsInum(t, d, m);
    }
    ShowsNow(t, d, t', d', n);
  }
}
