/** do_touch, do_ln, do_rm, do_mkdir, do_cd and a write by name, as kernel/fs/fs.c performs them on the disk. */
module DirectoryCalls {
  import opened Bitmap
  import opened Bytes
  import opened BlockMap
  import opened Files
  import opened Directories
  import opened Dentries
  import opened TreeOnDisk

  /** What an operation takes for granted of the tree and of the disk. */
  ghost predicate CanServe(t: Tree, d: Disk, op: Op)
    requires t.cwd in t.dirs && DiskOk(d)
  {
    && Allowed(t, op)
    && (op.Mkdir? ==> |FreeBlocks(d.blockMap)| > 0)
    && (op.Write? ==> && TablesIn(d, Parse(t, op.name), op.offset, |op.data|)
                      && |FreeBlocks(d.blockMap)| >= Missing(d, Parse(t, op.name), op.offset, |op.data|))
  }

  class FileTree {
    const fs: FileSystem
    var cwd: nat
    /** The tree that the disk shows. */
    ghost var tree: Tree

    ghost predicate Valid()
      reads this, fs
    {
      tree.cwd == cwd && TreeOk(tree) && Shows(tree, fs.disk)
    }

    constructor (d: Disk, cwd: nat, ghost t: Tree)
      requires Shows(t, d) && TreeOk(t) && t.cwd == cwd
      ensures Valid() && tree == t && fresh(fs)
    {
      fs := new FileSystem(d, []);
      this.cwd := cwd;
      tree := t;
    }

    /** do_mkfs: the maps, and init_dir_inode for the root directory. */
    constructor Mkfs()
      ensures Valid() && tree == RootOnly() && fresh(fs)
    {
      RootShows();
      RootOk();
      fs := new FileSystem(NewDir(Formatted(), 1, NMETA_BLOCKS + 1, 1), []);
      cwd := 1;
      tree := RootOnly();
    }

    /** read_inode of the current directory and read_block of its block. */
    method ReadCwd() returns (b: nat, block: Block)
      requires Valid()
      ensures FsOk(fs.disk) && IsInum(cwd) && b == ReadInode(fs.disk, cwd).direct[0] && block == ReadBlock(fs.disk, b)
      ensures AllEntries(block) == tree.dirs[cwd]
    {
      DirFacts(tree, fs.disk, cwd);
      b := ReadInode(fs.disk, cwd).direct[0];
      block := ReadBlock(fs.disk, b);
    }

    /** The loop over the entries in parse_path, do_touch and do_mkdir. */
    method Scan(block: Block, name: seq<Byte>) returns (k: nat)
      ensures k == Find(AllEntries(block), name, 0)
    {
      k := 0;
      while k < NSLOTS
        invariant k <= NSLOTS && Find(AllEntries(block), name, 0) == Find(AllEntries(block), name, k)
      {
        var e := DentryAt(block, k);
        if e.valid && e.name == name {
          return;
        } else if e.inum == 0 {
          return NSLOTS;
        }
        k := k + 1;
      }
    }

    /** while (dentry->inum != 0) dentry++ */
    method EmptySlot(block: Block) returns (j: nat)
      requires EmptyAt(AllEntries(block), 0) < NSLOTS
      ensures j == EmptyAt(AllEntries(block), 0)
    {
      j := 0;
      while DentryAt(block, j).inum != 0
        invariant j < NSLOTS && EmptyAt(AllEntries(block), 0) == EmptyAt(AllEntries(block), j)
        decreases NSLOTS - j
      {
        j := j + 1;
      }
    }

    /** parse_path of one component */
    method ParsePath(name: seq<Byte>) returns (n: nat)
      requires Valid() && IsComponent(name) && ScanEnds(tree, name)
      ensures n == Parse(tree, name)
    {
      if name == [] {
        return cwd;
      }
      var _, block := ReadCwd();
      var k := Scan(block, name);
      n := if k < NSLOTS then DentryAt(block, k).inum else 0;
    }

    /** alloc_inode, while there is a free inode */
    method AllocInode() returns (n: nat)
      requires Valid() && Fresh(tree, 1) <= NINODES
      modifies fs`disk
      ensures n == Fresh(tree, 1) && InMap(old(fs.disk).inodeMap, n)
      ensures fs.disk == old(fs.disk).(inodeMap := SetBit(old(fs.disk).inodeMap, n, true))
    {
      var map';
      map', n := Alloc(fs.disk.inodeMap);
      FreshIs(tree, fs.disk, n);
      fs.disk := fs.disk.(inodeMap := map');
    }

    method DoTouch(name: seq<Byte>) returns (r: int)
      requires Valid() && Allowed(tree, Touch(name))
      modifies this, fs
      ensures Valid() && tree == Step(old(tree), Touch(name)) && r == if Refused(old(tree), name) then 1 else 0
    {
      hide EntriesOk, CountsOk, Shows, AllEntries, Enter, Fresh, SetBit, EmptyFile, Find, EmptyAt;
      ghost var t, d := tree, fs.disk;
      if |name| > DENTRY_NAME_LEN {
        return 1;
      }
      var b, block := ReadCwd();
      var k := Scan(block, name);
      if k < NSLOTS {
        return 1;
      }
      StepOk(t, Touch(name));
      ShowsDisk(t, d);
      var inum := AllocInode();
      NewFileShows(t, d, inum);
      fs.disk := WriteInode(fs.disk, inum, EmptyFile());
      assert fs.disk == NewFile(d, inum);
      var slot := EmptySlot(block);
      EnterIs(block, slot, inum, name);
      EnterName(t.(files := t.files[inum := FileNode(1, 0, map[])]), fs.disk, slot, inum, name);
      SameBlock(d, inum, cwd);
      fs.disk := WriteBlock(fs.disk, b, Enter(block, slot, inum, name));
      tree := Step(t, Touch(name));
      r := 0;
    }

    method DoLn(src: seq<Byte>, dst: seq<Byte>) returns (r: int)
      requires Valid() && Allowed(tree, Ln(src, dst))
      modifies this, fs
      ensures Valid() && tree == Step(old(tree), Ln(src, dst)) && r == if src == dst then 1 else 0
    {
      hide EntriesOk, CountsOk, Shows, AllEntries, Enter, Find, EmptyAt;
      ghost var t, d := tree, fs.disk;
      if src == dst {
        return 1;
      }
      StepOk(t, Ln(src, dst));
      var n := ParsePath(src);
      FileFacts(t, d, n);
      var ino := ReadInode(fs.disk, n);
      var b, block := ReadCwd();
      var slot := EmptySlot(block);
      EnterName(t, d, slot, n, dst);
      fs.disk := WriteBlock(fs.disk, b, Enter(block, slot, n, dst));
      RefsShow(PutEntry(t, slot, Dentry(true, n, dst)), fs.disk, n, t.files[n].refs + 1);
      ShowsRefs(t, d, n);
      fs.disk := WriteInode(fs.disk, n, ino.(refs := ino.refs + 1));
      tree := Step(t, Ln(src, dst));
      r := 0;
    }

    /** do_rm: with its last name the inode and the direct blocks of the file are freed. */
    method DoRm(name: seq<Byte>) returns (r: int)
      requires Valid() && Allowed(tree, Rm(name))
      modifies this, fs
      ensures Valid() && tree == Step(old(tree), Rm(name))
      ensures r == if Parse(old(tree), name) in old(tree).files then 0 else 1
      ensures r == 0 ==> RmBlocks(old(tree).files[Parse(old(tree), name)].refs, old(fs.disk), fs.disk, Parse(old(tree), name))
      ensures r == 1 ==> fs.disk == old(fs.disk)
    {
      hide EntriesOk, CountsOk, Shows, AllEntries, Invalidate, Find, EmptyAt;
      ghost var t, d := tree, fs.disk;
      StepOk(t, Rm(name));
      var n := ParsePath(name);
      NoInodeZero(t);
      if n == 0 {
        return 1;
      }
      NamedLives(t, name);
      KindTells(t, d, n);
      if ReadInode(fs.disk, n).kind != FILE {
        return 1;
      }
      var ino := ReadInode(fs.disk, n);
      ShowsRefs(t, d, n);
      FoundByName(t, name);
      var b, block := ReadCwd();
      var j := FindValid(block, name);
      InvalidateIs(block, j);
      EnterShows(t, d, cwd, Invalidate(block, j));
      fs.disk := WriteBlock(fs.disk, b, Invalidate(block, j));
      ghost var t1 := PutEntry(t, j, t.dirs[cwd][j].(valid := false));
      assert Shows(t1, fs.disk);
      if ino.refs > 1 {
        RefsShow(t1, fs.disk, n, ino.refs - 1);
        fs.disk := WriteInode(fs.disk, n, ino.(refs := ino.refs - 1));
      } else {
        RefsPositive(t, n);
        FreeFileShows(t1, fs.disk, n);
        DirectInMap(fs.disk, n);
        ghost var d1 := fs.disk;
        var inodeMap := Free(fs.disk.inodeMap, n);
        fs.disk := fs.disk.(inodeMap := inodeMap);
        FreeBlockList(ino.direct);
        assert fs.disk == FreeFile(d1, n);
      }
      FileFacts(t, d, n);
      SameFreed(d, n, b, Invalidate(block, j));
      tree := Step(t, Rm(name));
      r := 0;
    }

    /** The loop of do_rm over the entries, for a name that is there. */
    method FindValid(block: Block, name: seq<Byte>) returns (j: nat)
      requires Find(AllEntries(block), name, 0) < NSLOTS
      ensures j == Find(AllEntries(block), name, 0)
    {
      j := 0;
      while !(DentryAt(block, j).valid && DentryAt(block, j).name == name)
        invariant j <= Find(AllEntries(block), name, 0)
        decreases NSLOTS - j
      {
        assert AllEntries(block)[j] == DentryAt(block, j);
        j := j + 1;
      }
      assert AllEntries(block)[j] == DentryAt(block, j);
    }

    /** for (i < NDIRECT_BLOCKS) free_block(direct[i]) */
    method FreeBlockList(direct: seq<nat>)
      requires forall b | b in direct && b != 0 :: InMap(fs.disk.blockMap, b)
      modifies fs`disk
      ensures fs.disk == old(fs.disk).(blockMap := FreeAll(old(fs.disk).blockMap, direct))
    {
      ghost var s := fs.disk.blockMap;
      var i := 0;
      while i < |direct|
        invariant i <= |direct| && |fs.disk.blockMap| == |s|
        invariant fs.disk == old(fs.disk).(blockMap := fs.disk.blockMap)
        invariant forall b | b in direct[i..] && b != 0 :: InMap(fs.disk.blockMap, b)
        invariant FreeAll(fs.disk.blockMap, direct[i..]) == FreeAll(s, direct)
      {
        assert direct[i] == direct[i..][0] && direct[i..][1..] == direct[i + 1..];
        RestInMap(fs.disk.blockMap, fs.disk.blockMap, direct[i..]);
        if direct[i] != 0 {
          ghost var was := fs.disk.blockMap;
          var blockMap := Free(fs.disk.blockMap, direct[i]);
          fs.disk := fs.disk.(blockMap := blockMap);
          RestInMap(was, fs.disk.blockMap, direct[i..]);
        }
        i := i + 1;
      }
    }

    method DoMkdir(name: seq<Byte>) returns (r: int)
      requires Valid() && CanServe(tree, fs.disk, Mkdir(name))
      modifies this, fs
      ensures Valid() && tree == Step(old(tree), Mkdir(name)) && r == if Refused(old(tree), name) then 1 else 0
    {
      hide EntriesOk, CountsOk, Shows, AllEntries, Enter, Fresh, SetBit, Find, EmptyAt, DirectoryInode, DirectoryBlock,
        NewDirectory, FreeBlocks, Used;
      ghost var t, d := tree, fs.disk;
      if |name| > DENTRY_NAME_LEN {
        return 1;
      }
      var b, block := ReadCwd();
      var k := Scan(block, name);
      if k < NSLOTS {
        return 1;
      }
      StepOk(t, Mkdir(name));
      ShowsDisk(t, d);
      DirFacts(t, d, t.cwd);
      var inum := AllocInode();
      var newBlock := fs.AllocBlock();
      NewDirShows(t, d, inum, newBlock, cwd);
      SameDirectory(t, d, inum, newBlock, cwd);
      fs.disk := WriteInode(fs.disk, inum, DirectoryInode(newBlock));
      fs.disk := WriteBlock(fs.disk, newBlock, DirectoryBlock(inum, cwd));
      assert fs.disk == NewDir(d, inum, newBlock, cwd);
      var slot := EmptySlot(block);
      EnterName(t.(dirs := t.dirs[inum := NewDirectory(inum, cwd)]), fs.disk, slot, inum, name);
      fs.disk := WriteBlock(fs.disk, b, Enter(block, slot, inum, name));
      MkdirOrder(t, inum, slot, name);
      tree := Step(t, Mkdir(name));
      r := 0;
    }

    method DoCd(name: seq<Byte>) returns (r: int)
      requires Valid() && Allowed(tree, Cd(name))
      modifies this
      ensures Valid() && tree == Step(old(tree), Cd(name)) && r == if Parse(old(tree), name) in old(tree).dirs then 0 else 1
    {
      hide EntriesOk, CountsOk, Shows, Find;
      ghost var t := tree;
      StepOk(t, Cd(name));
      var n := ParsePath(name);
      NoInodeZero(t);
      if n == 0 {
        return 1;
      }
      NamedLives(t, name);
      KindTells(t, fs.disk, n);
      if ReadInode(fs.disk, n).kind == FILE {
        return 1;
      }
      cwd := n;
      tree := Step(t, Cd(name));
      CwdShows(t, tree, fs.disk);
      r := 0;
    }

    /** do_fopen for writing, and do_fwrite at an offset. */
    method DoWrite(name: seq<Byte>, offset: nat, data: seq<Byte>)
      requires Valid() && CanServe(tree, fs.disk, Write(name, offset, data))
      modifies this, fs
      ensures Valid() && tree == Step(old(tree), Write(name, offset, data))
    {
      hide EntriesOk, CountsOk, Shows, WroteFile, FreeBlocks, TablesIn, MapOk, MetaOk, Find, EmptyAt;
      ghost var t, d := tree, fs.disk;
      StepOk(t, Write(name, offset, data));
      var n := ParsePath(name);
      FileFacts(t, d, n);
      fs.fdescs := [Fdesc(n, true, true, offset)];
      var _ := fs.Fwrite(0, data);
      WriteShows(t, d, fs.disk, n, offset, data);
      tree := Step(t, Write(name, offset, data));
    }

    /**
     A read by name: the bytes that the tree has for the file, up to the length asked for or the first block
     that the file does not have, all of whose bytes are zero.
     */
    method DoRead(name: seq<Byte>, offset: nat, len: nat) returns (data: seq<Byte>)
      requires Valid() && IsComponent(name) && ScanEnds(tree, name) && Parse(tree, name) in tree.files
      requires offset + len < 0x100000000 && DiskOk(fs.disk) && TablesIn(fs.disk, Parse(tree, name), offset, len)
      modifies fs
      ensures Valid() && tree == old(tree) && fs.disk == old(fs.disk) && |data| <= len
      ensures var node := tree.files[Parse(tree, name)];
              && (forall i | 0 <= i < |data| :: data[i] == ByteAt(node.bytes, offset + i))
              && (|data| < len ==> forall x: nat | x / NBYTES_PER_BLOCK == (offset + |data|) / NBYTES_PER_BLOCK :: ByteAt(node.bytes, x) == 0)
    {
      hide EntriesOk, CountsOk, Shows, TablesIn, MapOk, MetaOk, Find, EmptyAt, Target;
      ghost var t, d := tree, fs.disk;
      var n := ParsePath(name);
      FileFacts(t, d, n);
      fs.fdescs := [Fdesc(n, true, true, offset)];
      var ret;
      ret, data := fs.Fread(0, len);
    }

    /** One operation: exactly the step of the tree. */
    method Perform(op: Op)
      requires Valid() && CanServe(tree, fs.disk, op)
      modifies this, fs
      ensures Valid() && tree == Step(old(tree), op)
    {
      hide TreeOk, Shows, Step, TablesIn, FreeBlocks;
      assert TreeOk(tree);
      match op {
        case Touch(name) => var _ := DoTouch(name);
        case Ln(src, dst) => var _ := DoLn(src, dst);
        case Rm(name) => var _ := DoRm(name);
        case Mkdir(name) => var _ := DoMkdir(name);
        case Cd(name) => var _ := DoCd(name);
        case Write(name, offset, data) => DoWrite(name, offset, data);
      }
    }

    /**
     Any run of touch, ln, rm, mkdir, cd and writes: the disk ends up showing the tree after the run, in
     which every file's link count is the number of entries that name it.
     */
    method PerformAll(ops: seq<Op>) returns (done: nat)
      requires Valid()
      modifies this, fs
      ensures Valid() && done <= |ops| && CanRun(old(tree), ops[..done]) && tree == After(old(tree), ops[..done])
      ensures done < |ops| ==> !CanServe(tree, fs.disk, ops[done])
    {
      hide TreeOk, Shows, Step, CanServe, FsOk, MapOk, MetaOk;
      ghost var t := tree;
      done := 0;
      while done < |ops|
        invariant Valid() && done <= |ops| && CanRun(t, ops[..done]) && tree == After(t, ops[..done])
      {
        ShowsDisk(tree, fs.disk);
        CwdIsDir(tree);
        var ok := IsServable(ops[done]);
        if !ok {
          return;
        }
        ServableAllowed(tree, fs.disk, ops[done]);
        RunMore(t, ops[..done], ops[done]);
        assert ops[..done + 1] == ops[..done] + [ops[done]];
        Perform(ops[done]);
        done := done + 1;
      }
    }

    /** Whether the operation has what it takes for granted. */
    method IsServable(op: Op) returns (ok: bool)
      requires Valid()
      ensures FsOk(fs.disk) && tree.cwd in tree.dirs && (ok <==> CanServe(tree, fs.disk, op))
    {
      hide EntriesOk, CountsOk, Shows, MapOk, MetaOk, FreeBlocks, TablesIn, Fresh;
      ShowsDisk(tree, fs.disk);
      var _, block := ReadCwd();
      var ds := AllEntries(block);
      var slot := EmptyAt(ds, 0) < NSLOTS;
      var _, n := Alloc(fs.disk.inodeMap);
      FreshIs(tree, fs.disk, n);
      var inode := n <= NINODES;
      match op {
        case Touch(name) => ok := 0 !in name && slot && inode;
        case Mkdir(name) => ok := 0 !in name && slot && inode && |FreeBlocks(fs.disk.blockMap)| > 0;
        case Ln(src, dst) =>
          var file := IsFile(ds, src);
          ok := IsComponent(src) && 0 !in dst && |dst| <= DENTRY_NAME_LEN && slot && file;
        case Rm(name) => ok := IsComponent(name) && (Find(ds, name, 0) < NSLOTS || slot);
        case Cd(name) => ok := IsComponent(name) && (Find(ds, name, 0) < NSLOTS || slot);
        case Write(name, offset, data) =>
          var file := IsFile(ds, name);
          ok := IsComponent(name) && (Find(ds, name, 0) < NSLOTS || slot) && file && offset + |data| < 0x100000000;
          if ok {
            var k := Find(ds, name, 0);
            FoundByName(tree, name);
            var tables := TablesPresent(ds[k].inum, offset, |data|);
            ok := tables && |FreeBlocks(fs.disk.blockMap)| >= Missing(fs.disk, ds[k].inum, offset, |data|);
          }
      }
    }

    method IsFile(ds: seq<Dentry>, name: seq<Byte>) returns (file: bool)
      requires Valid() && ds == tree.dirs[cwd]
      ensures file <==> Parse(tree, name) in tree.files
    {
      hide EntriesOk, CountsOk, Shows;
      NoInodeZero(tree);
      var k := Find(ds, name, 0);
      var n := if name == [] then cwd else if k < |ds| then ds[k].inum else 0;
      if n == 0 {
        return false;
      }
      NamedLives(tree, name);
      KindTells(tree, fs.disk, n);
      file := ReadInode(fs.disk, n).kind == FILE;
    }

    method TablesPresent(n: nat, offset: nat, len: nat) returns (ok: bool)
      requires DiskOk(fs.disk)
      ensures ok <==> TablesIn(fs.disk, n, offset, len)
    {
      hide TablesFor;
      ok := true;
      if len == 0 {
        return;
      }
      var i := offset / NBYTES_PER_BLOCK;
      while NBYTES_PER_BLOCK * i < offset + len
        invariant ok && offset / NBYTES_PER_BLOCK <= i
        invariant forall j: nat | offset / NBYTES_PER_BLOCK <= j < i :: TablesFor(fs.disk, n, j)
        decreases offset + len - NBYTES_PER_BLOCK * i
      {
        if !TablesFor(fs.disk, n, i) {
          return false;
        }
        i := i + 1;
      }
    }
  }

  lemma CwdIsDir(t: Tree)
    requires TreeOk(t)
    ensures t.cwd in t.dirs
  {
  }

  lemma ServableAllowed(t: Tree, d: Disk, op: Op)
    requires t.cwd in t.dirs && DiskOk(d) && CanServe(t, d, op)
    ensures Allowed(t, op)
  {
  }

  /** A run and one operation more. */
  lemma {:induction false} RunMore(t: Tree, ops: seq<Op>, op: Op)
    requires TreeOk(t) && CanRun(t, ops) && After(t, ops).cwd in After(t, ops).dirs && Allowed(After(t, ops), op)
    ensures CanRun(t, ops + [op]) && After(t, ops + [op]) == Step(After(t, ops), op)
    decreases |ops|
  {
    hide TreeOk, Step, Allowed;
    CwdIsDir(t);
    if ops == [] {
      assert [] + [op] == [op] && [op][1..] == [];
      StepOk(t, op);
    } else {
      StepOk(t, ops[0]);
      assert (ops + [op])[1..] == ops[1..] + [op];
      RunMore(Step(t, ops[0]), ops[1..], op);
    }
  }

  /** In the tree the order of the two changes of do_mkdir does not matter. */
  lemma MkdirOrder(t: Tree, n: nat, j: nat, name: seq<Byte>)
    requires t.cwd in t.dirs && j < |t.dirs[t.cwd]| && n != t.cwd
    ensures PutEntry(t.(dirs := t.dirs[n := NewDirectory(n, t.cwd)]), j, Dentry(true, n, name)) == WithDirectory(t, n, j, name)
  {
    var ds := t.dirs[t.cwd][j := Dentry(true, n, name)];
    assert t.dirs[n := NewDirectory(n, t.cwd)][t.cwd := ds] == t.dirs[t.cwd := ds][n := NewDirectory(n, t.cwd)];
  }

  /** The new directory leaves the inode and the block of the current one alone. */
  lemma SameDirectory(t: Tree, d: Disk, n: nat, b: nat, dir: nat)
    requires Shows(t, d) && InodesOk(t) && dir in t.dirs && InMap(d.inodeMap, n) && !IsLive(t, n)
    requires InMap(d.blockMap, b) && !Used(d.blockMap, b)
    ensures FsOk(d) && IsInum(dir) && DiskOk(NewDir(d, n, b, dir))
    ensures var d', c := NewDir(d, n, b, dir), ReadInode(d, dir).direct[0];
            ReadInode(d', dir) == ReadInode(d, dir) && ReadBlock(d', c) == ReadBlock(d, c)
  {
    DirFacts(t, d, dir);
    NotLiveYet(t, d, n);
    assert b != ReadInode(d, dir).direct[0] by { FreshBlock(d, b, Direct(dir, 0)); }
    MarkedInode(d, n, true);
    InodeStored(d.(inodeMap := SetBit(d.inodeMap, n, true), blockMap := SetBit(d.blockMap, b, true)), n, DirectoryInode(b), dir);
    hide MapOk, MetaOk;
  }

  /** Writing a block does not change which blocks are freed. */
  lemma SameFreed(d: Disk, n: nat, b: nat, x: Block)
    requires FsOk(d) && Live(d, n) && IsInum(n) && FsOk(WriteBlock(d, b, x))
    ensures FreeFile(WriteBlock(d, b, x), n).blockMap == FreeFile(d, n).blockMap
  {
  }

  lemma NoInodeZero(t: Tree)
    requires InodesOk(t)
    ensures 0 !in t.files && 0 !in t.dirs
  {
    assert !IsLive(t, 0);
  }

  lemma NamedLives(t: Tree, name: seq<Byte>)
    requires TreeOk(t) && Parse(t, name) != 0
    ensures IsLive(t, Parse(t, name))
  {
    var k := Find(t.dirs[t.cwd], name, 0);
    if name != [] {
      assert Names(t, t.cwd, k, Parse(t, name));
    }
  }

  /** The type field of a live inode tells files from directories. */
  lemma KindTells(t: Tree, d: Disk, n: nat)
    requires Shows(t, d) && InodesOk(t) && IsLive(t, n)
    ensures FsOk(d) && IsInum(n) && (ReadInode(d, n).kind == FILE <==> n in t.files) && (n in t.dirs <==> n !in t.files)
  {
    if n in t.files {
      FileFacts(t, d, n);
    } else {
      DirFacts(t, d, n);
    }
  }

  lemma ShowsRefs(t: Tree, d: Disk, n: nat)
    requires Shows(t, d) && n in t.files
    ensures FsOk(d) && IsInum(n) && ReadInode(d, n).refs == t.files[n].refs
  {
    assert ShowsFile(t.files[n], d, n);
  }

  lemma RefsPositive(t: Tree, n: nat)
    requires CountsOk(t) && n in t.files
    ensures t.files[n].refs > 0
  {
  }

  /** If parse_path finds a file, an entry of the current directory names it. */
  lemma FoundByName(t: Tree, name: seq<Byte>)
    requires InodesOk(t) && Parse(t, name) in t.files
    ensures var k := Find(t.dirs[t.cwd], name, 0);
            name != [] && k < |t.dirs[t.cwd]| && t.dirs[t.cwd][k].valid && t.dirs[t.cwd][k].inum == Parse(t, name)
  {
    NoInodeZero(t);
  }

  lemma CwdShows(t: Tree, t': Tree, d: Disk)
    requires Shows(t, d) && t' == t.(cwd := t'.cwd)
    ensures Shows(t', d)
  {
    assert forall n :: IsLive(t', n) <==> IsLive(t, n);
  }

  lemma FreshIs(t: Tree, d: Disk, n: nat)
    requires Shows(t, d) && n > 0 && AllUsedBelow(d.inodeMap, n) && !Used(d.inodeMap, n)
    requires !InMap(d.inodeMap, n) ==> n == NBITS_PER_SECTOR * |d.inodeMap| + 1
    ensures n <= NINODES + 1 && Fresh(t, 1) == n && (n <= NINODES <==> InMap(d.inodeMap, n))
  {
    assert forall m :: Used(d.inodeMap, m) <==> IsLive(t, m);
    assert Used(d.inodeMap, Fresh(t, 1)) <==> IsLive(t, Fresh(t, 1));
  }

  /** Entering a name in the current directory. */
  lemma EnterName(t: Tree, d: Disk, j: nat, inum: nat, name: seq<Byte>)
    requires Shows(t, d) && InodesOk(t) && j < NSLOTS && |name| <= DENTRY_NAME_LEN && 0 !in name && IsInum(inum)
    ensures FsOk(d) && IsInum(t.cwd) && |t.dirs[t.cwd]| == NSLOTS
    ensures var b := ReadInode(d, t.cwd).direct[0];
            Shows(PutEntry(t, j, Dentry(true, inum, name)), WriteBlock(d, b, Enter(ReadBlock(d, b), j, inum, name)))
  {
    hide Shows, Enter;
    DirFacts(t, d, t.cwd);
    var b := ReadInode(d, t.cwd).direct[0];
    EnterIs(ReadBlock(d, b), j, inum, name);
    EnterShows(t, d, t.cwd, Enter(ReadBlock(d, b), j, inum, name));
  }

  /** A new inode leaves the inode and the block of the directory alone. */
  lemma SameBlock(d: Disk, n: nat, dir: nat)
    requires DiskOk(d) && InMap(d.inodeMap, n) && IsInum(dir) && IsInum(n) && n != dir
    ensures DiskOk(NewFile(d, n)) && ReadInode(NewFile(d, n), dir) == ReadInode(d, dir) && NewFile(d, n).blocks == d.blocks
  {
    InodeStored(d.(inodeMap := SetBit(d.inodeMap, n, true)), n, EmptyFile(), dir);
  }
}
