/** Inodes and the direct, indirect and double-indirect block maps of kernel/fs/fs.c, on a sector disk. */
module BlockMap {
  import opened Bitmap
  import opened Bytes

  const NBYTES_PER_BLOCK := 4096
  const NDIRECT_BLOCKS := 10
  const NINDIRECT_BLOCKS := 1024
  const NINODES := 4096
  const NSECTORS_INODEBLOCK := 512
  const NSECTORS_BMAP := 32
  /** The blocks that do_mkfs marks for superblock, bitmaps and inodes. */
  const NMETA_BLOCKS := 70

  type Block = s: seq<Byte> | |s| == 4096 witness seq(4096, _ => 0)

  function ZeroBlock(): Block {
    seq(4096, _ => 0)
  }

  // ---------------------------------------------------------------- tables of 32-bit words

  /** ((uint32_t *)block_buf)[i], little-endian. */
  function WordAt(b: Block, i: nat): nat
    requires i < NINDIRECT_BLOCKS
  {
    Decode(b[4 * i..4 * i + 4])
  }

  function WithWord(b: Block, i: nat, v: nat): Block
    requires i < NINDIRECT_BLOCKS
  {
    Stored(b, 4 * i, Le(v, 4))
  }

  lemma WordStored(b: Block, i: nat, v: nat, j: nat)
    requires i < NINDIRECT_BLOCKS && j < NINDIRECT_BLOCKS && v < 0x100000000
    ensures WordAt(WithWord(b, i, v), j) == if j == i then v else WordAt(b, j)
  {
    if j == i {
      StoredHere(b, 4 * i, Le(v, 4));
      PowerFour();
      DecodeLe(v, 4);
    } else {
      StoredElsewhere(b, 4 * i, Le(v, 4), 4 * j, 4 * j + 4);
    }
  }

  // ---------------------------------------------------------------- the disk

  datatype Inode = Inode(kind: nat, size: nat, refs: nat, direct: seq<nat>, indirect: nat, double: nat)

  /** The block map, the inode map, the inode sectors (eight inodes each) and the blocks; unwritten blocks are zero. */
  datatype Disk = Disk(blockMap: seq<Sector>, inodeMap: seq<Sector>, inodes: seq<seq<Inode>>, blocks: map<nat, Block>)

  ghost predicate DiskOk(d: Disk) {
    && |d.blockMap| == NSECTORS_BMAP && |d.inodeMap| == 1 && |d.inodes| == NSECTORS_INODEBLOCK
    && (forall s | 0 <= s < NSECTORS_INODEBLOCK :: |d.inodes[s]| == 8)
    && (forall s, i | 0 <= s < NSECTORS_INODEBLOCK && 0 <= i < 8 :: |d.inodes[s][i].direct| == NDIRECT_BLOCKS)
  }

  /** read_block */
  function ReadBlock(d: Disk, b: nat): Block {
    if b in d.blocks then d.blocks[b] else ZeroBlock()
  }

  /** write_block */
  function WriteBlock(d: Disk, b: nat, x: Block): Disk {
    d.(blocks := d.blocks[b := x])
  }

  predicate IsInum(n: nat) {
    1 <= n <= NINODES
  }

  /** read_inode */
  function ReadInode(d: Disk, n: nat): (ino: Inode)
    requires DiskOk(d) && IsInum(n)
    ensures |ino.direct| == NDIRECT_BLOCKS
  {
    d.inodes[(n - 1) / 8][(n - 1) % 8]
  }

  /** write_inode: the sector is read, one of its inodes replaced, and written back. */
  function WriteInode(d: Disk, n: nat, ino: Inode): (d': Disk)
    requires DiskOk(d) && IsInum(n) && |ino.direct| == NDIRECT_BLOCKS
    ensures DiskOk(d')
  {
    var s := (n - 1) / 8;
    d.(inodes := d.inodes[s := d.inodes[s][(n - 1) % 8 := ino]])
  }

  lemma InodeStored(d: Disk, n: nat, ino: Inode, m: nat)
    requires DiskOk(d) && IsInum(n) && IsInum(m) && |ino.direct| == NDIRECT_BLOCKS
    ensures ReadInode(WriteInode(d, n, ino), m) == if m == n then ino else ReadInode(d, m)
  {
  }

  // ---------------------------------------------------------------- where block numbers are stored

  /** A place on the disk that holds a block number of the file n. */
  datatype Ref =
    | Direct(n: nat, i: nat)
    | Indirect(n: nat)
    | Double(n: nat)
    | Single(n: nat, j: nat)
    | Table(n: nat, k: nat)
    | Leaf(n: nat, k: nat, j: nat)

  /** Indirect and double-indirect blocks: their words are block numbers, not data. */
  predicate IsTable(r: Ref) {
    r.Indirect? || r.Double? || r.Table?
  }

  predicate Live(d: Disk, n: nat) {
    Used(d.inodeMap, n)
  }

  lemma LiveInum(d: Disk, n: nat)
    requires DiskOk(d) && Live(d, n)
    ensures IsInum(n)
  {
  }

  /** A word of the table block t, if there is one. */
  function Entry(d: Disk, t: nat, j: nat): nat {
    if t == 0 || j >= NINDIRECT_BLOCKS then 0 else WordAt(ReadBlock(d, t), j)
  }

  /** The block number stored at r; 0 where there is none. */
  function Target(d: Disk, r: Ref): nat
    requires DiskOk(d)
  {
    if !Live(d, r.n) then 0 else
    LiveInum(d, r.n);
    var ino := ReadInode(d, r.n);
    match r
    case Direct(_, i) => if i < NDIRECT_BLOCKS then ino.direct[i] else 0
    case Indirect(_) => ino.indirect
    case Double(_) => ino.double
    case Single(_, j) => Entry(d, ino.indirect, j)
    case Table(_, k) => Entry(d, ino.double, k)
    case Leaf(_, k, j) => Entry(d, Entry(d, ino.double, k), j)
  }

  /** The table block whose word r is. */
  function Parent(r: Ref): Ref
    requires r.Single? || r.Table? || r.Leaf?
  {
    match r
    case Single(n, _) => Indirect(n)
    case Table(n, _) => Double(n)
    case Leaf(n, k, _) => Table(n, k)
  }

  function IndexIn(r: Ref): nat
    requires r.Single? || r.Table? || r.Leaf?
  {
    match r
    case Single(_, j) => j
    case Table(_, k) => k
    case Leaf(_, _, j) => j
  }

  /** How many tables stand above r. */
  function Depth(r: Ref): nat {
    match r
    case Leaf(_, _, _) => 2
    case Single(_, _) => 1
    case Table(_, _) => 1
    case _ => 0
  }

  lemma TargetInParent(d: Disk, r: Ref)
    requires DiskOk(d) && (r.Single? || r.Table? || r.Leaf?)
    ensures Target(d, r) == Entry(d, Target(d, Parent(r)), IndexIn(r))
  {
  }

  lemma TargetInInode(d: Disk, d': Disk, r: Ref)
    requires DiskOk(d) && DiskOk(d') && (r.Direct? || r.Indirect? || r.Double?)
    requires d'.inodeMap == d.inodeMap && (Live(d, r.n) ==> IsInum(r.n) && ReadInode(d', r.n) == ReadInode(d, r.n))
    ensures Target(d', r) == Target(d, r)
  {
  }

  /** No block belongs to two places; all belong to the data area and are marked in the block map. */
  ghost predicate MapOk(d: Disk)
    requires DiskOk(d)
  {
    && (forall r, r' | Target(d, r) == Target(d, r') != 0 :: r == r')
    && (forall r | Target(d, r) != 0 :: NMETA_BLOCKS < Target(d, r) && Used(d.blockMap, Target(d, r)))
  }

  // ---------------------------------------------------------------- frames

  /** Writing a block that is no table changes no block number anywhere. */
  lemma StoreData(d: Disk, b: nat, x: Block, r: Ref)
    requires DiskOk(d) && forall t | IsTable(t) && Target(d, t) != 0 :: Target(d, t) != b
    ensures DiskOk(WriteBlock(d, b, x)) && Target(WriteBlock(d, b, x), r) == Target(d, r)
    decreases Depth(r)
  {
    hide Target, WordAt;
    var d' := WriteBlock(d, b, x);
    if r.Single? || r.Table? || r.Leaf? {
      StoreData(d, b, x, Parent(r));
      TargetInParent(d, r);
      TargetInParent(d', r);
      assert IsTable(Parent(r));
    } else {
      TargetInInode(d, d', r);
    }
  }

  /** Writing word j of the table at p changes the block number stored there and no other. */
  lemma StoreEntry(d: Disk, p: Ref, j: nat, v: nat, r: Ref)
    requires DiskOk(d) && MapOk(d) && (p.Indirect? || p.Table?) && Target(d, p) != 0
    requires j < NINDIRECT_BLOCKS && v < 0x100000000
    ensures var t := Target(d, p);
            var d' := WriteBlock(d, t, WithWord(ReadBlock(d, t), j, v));
            && DiskOk(d')
            && Target(d', r) == if (r.Single? || r.Leaf?) && Parent(r) == p && IndexIn(r) == j then v else Target(d, r)
    decreases Depth(r)
  {
    hide Target, WordAt, WithWord;
    var t := Target(d, p);
    var d' := WriteBlock(d, t, WithWord(ReadBlock(d, t), j, v));
    if r.Single? || r.Table? || r.Leaf? {
      StoreEntry(d, p, j, v, Parent(r));
      TargetInParent(d, r);
      TargetInParent(d', r);
      if IndexIn(r) < NINDIRECT_BLOCKS {
        WordStored(ReadBlock(d, t), j, v, IndexIn(r));
      }
      assert Target(d, Parent(r)) == t ==> Parent(r) == p;
    } else {
      TargetInInode(d, d', r);
    }
  }

  /** Writing an inode with the same index blocks changes its direct block numbers and no other place. */
  lemma StoreInode(d: Disk, n: nat, ino: Inode, r: Ref)
    requires DiskOk(d) && Live(d, n) && IsInum(n) && |ino.direct| == NDIRECT_BLOCKS
    requires ino.indirect == ReadInode(d, n).indirect && ino.double == ReadInode(d, n).double
    ensures var d' := WriteInode(d, n, ino);
            && DiskOk(d')
            && Target(d', r) == if r.Direct? && r.n == n && r.i < NDIRECT_BLOCKS then ino.direct[r.i] else Target(d, r)
  {
    if Live(d, r.n) {
      LiveInum(d, r.n);
      InodeStored(d, n, ino, r.n);
    }
  }

  // ---------------------------------------------------------------- the map of one file

  /** Where the number of the i-th block of the file n is stored. */
  function DataRef(n: nat, i: nat): Ref {
    if i < NDIRECT_BLOCKS then Direct(n, i)
    else if i < NDIRECT_BLOCKS + NINDIRECT_BLOCKS then Single(n, i - NDIRECT_BLOCKS)
    else var k := i - NDIRECT_BLOCKS - NINDIRECT_BLOCKS; Leaf(n, k / NINDIRECT_BLOCKS, k % NINDIRECT_BLOCKS)
  }

  lemma DataRefInjective(n: nat, i: nat, n': nat, i': nat)
    requires DataRef(n, i) == DataRef(n', i')
    ensures n == n' && i == i'
  {
  }

  /** The largest block index of a file with 32-bit offsets. */
  const MAX_INDEX := 0x100000

  /** The index tables that the i-th block needs exist. */
  predicate TablesFor(d: Disk, n: nat, i: nat)
    requires DiskOk(d)
  {
    var r := DataRef(n, i);
    Live(d, n) && (r.Direct? || Target(d, Parent(r)) != 0)
  }

  /** offset_to_blk, on the inode the caller holds. */
  function OffsetToBlk(d: Disk, offset: nat, ino: Inode): nat
    requires |ino.direct| == NDIRECT_BLOCKS && offset / NBYTES_PER_BLOCK < MAX_INDEX
  {
    var i := offset / NBYTES_PER_BLOCK;
    if i < NDIRECT_BLOCKS then ino.direct[i]
    else if i < NDIRECT_BLOCKS + NINDIRECT_BLOCKS then
      WordAt(ReadBlock(d, ino.indirect), i - NDIRECT_BLOCKS)
    else
      var k := i - NDIRECT_BLOCKS - NINDIRECT_BLOCKS;
      var t := WordAt(ReadBlock(d, ino.double), k / NINDIRECT_BLOCKS);
      WordAt(ReadBlock(d, t), k % NINDIRECT_BLOCKS)
  }

  /** Where the tables exist, offset_to_blk finds what is stored for that block. */
  lemma OffsetToBlkIs(d: Disk, n: nat, offset: nat, ino: Inode)
    requires DiskOk(d) && IsInum(n) && offset / NBYTES_PER_BLOCK < MAX_INDEX
    requires TablesFor(d, n, offset / NBYTES_PER_BLOCK)
    requires ino == ReadInode(d, n).(size := ino.size)
    ensures OffsetToBlk(d, offset, ino) == Target(d, DataRef(n, offset / NBYTES_PER_BLOCK))
  {
  }

  /** set_inode_blk_num: the disk after it, and the caller's inode. */
  function SetInodeBlk(d: Disk, offset: nat, blk: nat, ino: Inode, n: nat): (Disk, Inode)
    requires DiskOk(d) && IsInum(n) && |ino.direct| == NDIRECT_BLOCKS && offset / NBYTES_PER_BLOCK < MAX_INDEX
  {
    var i := offset / NBYTES_PER_BLOCK;
    if i < NDIRECT_BLOCKS then
      var ino' := ino.(direct := ino.direct[i := blk]);
      (WriteInode(d, n, ino'), ino')
    else if i < NDIRECT_BLOCKS + NINDIRECT_BLOCKS then
      (WriteBlock(d, ino.indirect, WithWord(ReadBlock(d, ino.indirect), i - NDIRECT_BLOCKS, blk)), ino)
    else
      var k := i - NDIRECT_BLOCKS - NINDIRECT_BLOCKS;
      var t := WordAt(ReadBlock(d, ino.double), k / NINDIRECT_BLOCKS);
      (WriteBlock(d, t, WithWord(ReadBlock(d, t), k % NINDIRECT_BLOCKS, blk)), ino)
  }

  /**
   The three-level map: after set_inode_blk_num the new block is found at that index of that file, and
   every other block number of every file is where it was.
   */
  lemma SetInodeBlkIs(d: Disk, n: nat, offset: nat, blk: nat, ino: Inode, r: Ref)
    requires DiskOk(d) && MapOk(d) && IsInum(n) && offset / NBYTES_PER_BLOCK < MAX_INDEX && blk < 0x100000000
    requires TablesFor(d, n, offset / NBYTES_PER_BLOCK)
    requires ino == ReadInode(d, n).(size := ino.size)
    ensures var d' := SetInodeBlk(d, offset, blk, ino, n).0;
            && DiskOk(d')
            && Target(d', r) == if r == DataRef(n, offset / NBYTES_PER_BLOCK) then blk else Target(d, r)
  {
    hide Target, MapOk, WordAt, WithWord;
    var i := offset / NBYTES_PER_BLOCK;
    IndexBlocks(d, n);
    if i < NDIRECT_BLOCKS {
      StoreInode(d, n, ino.(direct := ino.direct[i := blk]), r);
      DirectTargets(d, n, r);
    } else if i < NDIRECT_BLOCKS + NINDIRECT_BLOCKS {
      StoreEntry(d, Indirect(n), i - NDIRECT_BLOCKS, blk, r);
    } else {
      var k := i - NDIRECT_BLOCKS - NINDIRECT_BLOCKS;
      var p := Table(n, k / NINDIRECT_BLOCKS);
      TargetInParent(d, p);
      assert ino.double != 0;
      StoreEntry(d, p, k % NINDIRECT_BLOCKS, blk, r);
    }
  }

  lemma IndexBlocks(d: Disk, n: nat)
    requires DiskOk(d) && Live(d, n) && IsInum(n)
    ensures Target(d, Indirect(n)) == ReadInode(d, n).indirect && Target(d, Double(n)) == ReadInode(d, n).double
  {
  }

  lemma DirectTargets(d: Disk, n: nat, r: Ref)
    requires DiskOk(d) && Live(d, n) && IsInum(n)
    ensures r.Direct? && r.n == n && r.i < NDIRECT_BLOCKS ==> Target(d, r) == ReadInode(d, n).direct[r.i]
  {
  }

  // ---------------------------------------------------------------- without index tables

  /** The block whose word set_inode_blk_num replaces, beyond the direct blocks. */
  function TableWritten(d: Disk, offset: nat, ino: Inode): nat
    requires NDIRECT_BLOCKS <= offset / NBYTES_PER_BLOCK < MAX_INDEX
  {
    var i := offset / NBYTES_PER_BLOCK;
    if i < NDIRECT_BLOCKS + NINDIRECT_BLOCKS then ino.indirect
    else WordAt(ReadBlock(d, ino.double), (i - NDIRECT_BLOCKS - NINDIRECT_BLOCKS) / NINDIRECT_BLOCKS)
  }

  lemma SetWritesTable(d: Disk, offset: nat, blk: nat, ino: Inode, n: nat)
    requires DiskOk(d) && IsInum(n) && |ino.direct| == NDIRECT_BLOCKS && NDIRECT_BLOCKS <= offset / NBYTES_PER_BLOCK < MAX_INDEX
    ensures var t, j := TableWritten(d, offset, ino), IndexIn(DataRef(n, offset / NBYTES_PER_BLOCK));
            && j < NINDIRECT_BLOCKS
            && SetInodeBlk(d, offset, blk, ino, n).0 == WriteBlock(d, t, WithWord(ReadBlock(d, t), j, blk))
  {
  }

  /** A block behind the superblock, maps and inodes, and inside the file system. */
  predicate InDataArea(d: Disk, b: nat) {
    b > NMETA_BLOCKS && InMap(d.blockMap, b)
  }

  /**
   The blocks of the metadata and those outside the file system, the blocks of all files but the one table
   concerned, and all other lookups are as before.
   */
  ghost predicate Harmless(d: Disk, d': Disk, n: nat, offset: nat)
    requires DiskOk(d)
  {
    var place := DataRef(n, offset / NBYTES_PER_BLOCK);
    && DiskOk(d') && (forall b: nat | !InDataArea(d, b) :: ReadBlock(d', b) == ReadBlock(d, b))
    && (forall r | Target(d, r) != 0 && (place.Direct? || r != Parent(place)) ::
          ReadBlock(d', Target(d, r)) == ReadBlock(d, Target(d, r)))
    && (forall m, at: nat | IsInum(m) && at / NBYTES_PER_BLOCK < MAX_INDEX && TablesFor(d, m, at / NBYTES_PER_BLOCK)
                            && DataRef(m, at / NBYTES_PER_BLOCK) != place ::
          OffsetToBlk(d', at, ReadInode(d', m)) == OffsetToBlk(d, at, ReadInode(d, m)))
  }

  /** The double-indirect table is missing, and the word of block 0 taken for it names a data block of no file. */
  ghost predicate Stray(d: Disk, n: nat, i: nat)
    requires DiskOk(d)
  {
    var r := DataRef(n, i);
    && r.Leaf? && r.k < NINDIRECT_BLOCKS && Target(d, Double(n)) == 0
    && var t := WordAt(ReadBlock(d, 0), r.k); InDataArea(d, t) && forall r' :: Target(d, r') != t
  }

  lemma SameLookups(d: Disk, d': Disk, n: nat, offset: nat)
    requires DiskOk(d) && DiskOk(d') && d'.inodeMap == d.inodeMap
    requires forall r | r != DataRef(n, offset / NBYTES_PER_BLOCK) :: Target(d', r) == Target(d, r)
    ensures forall m, at: nat | IsInum(m) && at / NBYTES_PER_BLOCK < MAX_INDEX && TablesFor(d, m, at / NBYTES_PER_BLOCK)
                                && DataRef(m, at / NBYTES_PER_BLOCK) != DataRef(n, offset / NBYTES_PER_BLOCK) ::
              OffsetToBlk(d', at, ReadInode(d', m)) == OffsetToBlk(d, at, ReadInode(d, m))
  {
    hide Target, OffsetToBlk, DataRef;
    forall m, at: nat | IsInum(m) && at / NBYTES_PER_BLOCK < MAX_INDEX && TablesFor(d, m, at / NBYTES_PER_BLOCK)
                        && DataRef(m, at / NBYTES_PER_BLOCK) != DataRef(n, offset / NBYTES_PER_BLOCK)
      ensures OffsetToBlk(d', at, ReadInode(d', m)) == OffsetToBlk(d, at, ReadInode(d, m))
    {
      TableRef(m, at / NBYTES_PER_BLOCK, n, offset / NBYTES_PER_BLOCK);
      OffsetToBlkIs(d, m, at, ReadInode(d, m));
      OffsetToBlkIs(d', m, at, ReadInode(d', m));
    }
  }

  lemma TableRef(n: nat, i: nat, n': nat, i': nat)
    ensures !DataRef(n, i).Direct? ==> Parent(DataRef(n, i)) != DataRef(n', i')
  {
  }

  lemma WithTablesHarmless(d: Disk, n: nat, offset: nat, blk: nat, ino: Inode)
    requires DiskOk(d) && MapOk(d) && IsInum(n) && Live(d, n) && offset / NBYTES_PER_BLOCK < MAX_INDEX
    requires 0 < blk < 0x100000000 && ino == ReadInode(d, n).(size := ino.size)
    requires TablesFor(d, n, offset / NBYTES_PER_BLOCK)
    ensures Harmless(d, SetInodeBlk(d, offset, blk, ino, n).0, n, offset)
  {
    var d', i := SetInodeBlk(d, offset, blk, ino, n).0, offset / NBYTES_PER_BLOCK;
    hide Target, MapOk, WordAt, WithWord, OffsetToBlk, InMap, SetInodeBlk;
    forall r
      ensures DiskOk(d') && Target(d', r) == if r == DataRef(n, i) then blk else Target(d, r)
    {
      SetInodeBlkIs(d, n, offset, blk, ino, r);
    }
    assert DiskOk(d');
    if i >= NDIRECT_BLOCKS {
      SetWritesTable(d, offset, blk, ino, n);
      TableIs(d, n, offset, ino);
      DataArea(d, Parent(DataRef(n, i)));
      forall r | Target(d, r) != 0 && r != Parent(DataRef(n, i))
        ensures Target(d, r) != Target(d, Parent(DataRef(n, i)))
      {
        Distinct(d, r, Parent(DataRef(n, i)));
      }
    }
    SameLookups(d, d', n, offset);
  }

  lemma Distinct(d: Disk, r: Ref, r': Ref)
    requires DiskOk(d) && MapOk(d) && Target(d, r) != 0 && r != r'
    ensures Target(d, r') != Target(d, r)
  {
  }

  /** With the tables in place the word is replaced in the file's own table. */
  lemma TableIs(d: Disk, n: nat, offset: nat, ino: Inode)
    requires DiskOk(d) && IsInum(n) && Live(d, n) && NDIRECT_BLOCKS <= offset / NBYTES_PER_BLOCK < MAX_INDEX
    requires ino == ReadInode(d, n).(size := ino.size)
    ensures var p := Parent(DataRef(n, offset / NBYTES_PER_BLOCK));
            Target(d, p) != 0 || ino.double != 0 || p.Indirect? ==> TableWritten(d, offset, ino) == Target(d, p)
  {
    hide WordAt;
  }

  lemma StrayHarmless(d: Disk, n: nat, offset: nat, blk: nat, ino: Inode)
    requires DiskOk(d) && MapOk(d) && IsInum(n) && Live(d, n) && offset / NBYTES_PER_BLOCK < MAX_INDEX
    requires 0 < blk < 0x100000000 && ino == ReadInode(d, n).(size := ino.size)
    requires Stray(d, n, offset / NBYTES_PER_BLOCK)
    ensures Harmless(d, SetInodeBlk(d, offset, blk, ino, n).0, n, offset)
  {
    var d', i := SetInodeBlk(d, offset, blk, ino, n).0, offset / NBYTES_PER_BLOCK;
    IndexBlocks(d, n);
    var t := TableWritten(d, offset, ino);
    assert t == WordAt(ReadBlock(d, 0), DataRef(n, i).k);
    SetWritesTable(d, offset, blk, ino, n);
    hide Target, MapOk, WordAt, WithWord, OffsetToBlk;
    forall r
      ensures DiskOk(d') && Target(d', r) == Target(d, r)
    {
      StoreData(d, t, WithWord(ReadBlock(d, t), IndexIn(DataRef(n, i)), blk), r);
    }
    assert DiskOk(d');
    SameLookups(d, d', n, offset);
  }

  /** Without tables, and not by luck, some block that matters is overwritten. */
  lemma NoTableHarms(d: Disk, n: nat, offset: nat, ino: Inode) returns (blk: nat)
    requires DiskOk(d) && MapOk(d) && IsInum(n) && Live(d, n) && offset / NBYTES_PER_BLOCK < MAX_INDEX
    requires ino == ReadInode(d, n).(size := ino.size)
    requires !TablesFor(d, n, offset / NBYTES_PER_BLOCK) && !Stray(d, n, offset / NBYTES_PER_BLOCK)
    ensures 0 < blk < 0x100000000 && !Harmless(d, SetInodeBlk(d, offset, blk, ino, n).0, n, offset)
  {
    var i := offset / NBYTES_PER_BLOCK;
    var t, j := TableWritten(d, offset, ino), IndexIn(DataRef(n, i));
    SetWritesTable(d, offset, 1, ino, n);
    blk := if WordAt(ReadBlock(d, t), j) == 1 then 2 else 1;
    SetWritesTable(d, offset, blk, ino, n);
    WordStored(ReadBlock(d, t), j, blk, j);
    var d' := SetInodeBlk(d, offset, blk, ino, n).0;
    assert ReadBlock(d', t) != ReadBlock(d, t);
    NoTableWrites(d, n, offset, ino);
    hide WordAt, WithWord, OffsetToBlk, MapOk, DataRef;
    if InDataArea(d, t) {
      var r :| Target(d, r) == t;
      hide Target;
    }
  }

  /** The block hit is outside the data area, or one that belongs to some file. */
  lemma NoTableWrites(d: Disk, n: nat, offset: nat, ino: Inode)
    requires DiskOk(d) && IsInum(n) && Live(d, n) && offset / NBYTES_PER_BLOCK < MAX_INDEX
    requires ino == ReadInode(d, n).(size := ino.size)
    requires !TablesFor(d, n, offset / NBYTES_PER_BLOCK) && !Stray(d, n, offset / NBYTES_PER_BLOCK)
    ensures offset / NBYTES_PER_BLOCK >= NDIRECT_BLOCKS && Target(d, Parent(DataRef(n, offset / NBYTES_PER_BLOCK))) == 0
    ensures var t := TableWritten(d, offset, ino); !InDataArea(d, t) || exists r :: Target(d, r) == t
  {
    IndexBlocks(d, n);
    TableIs(d, n, offset, ino);
    hide WordAt;
  }

  /**
   set_inode_blk_num assumes the index tables of its block: whatever the new number is, it leaves the
   metadata, everything outside the file system, the blocks of all files and all other lookups alone if
   and only if those tables exist, or the garbage taken for the missing double-indirect table happens to
   name a data block of no file.
   */
  lemma SetNeedsTables(d: Disk, n: nat, offset: nat, ino: Inode)
    requires DiskOk(d) && MapOk(d) && IsInum(n) && Live(d, n) && offset / NBYTES_PER_BLOCK < MAX_INDEX
    requires ino == ReadInode(d, n).(size := ino.size)
    ensures (forall blk: nat | 0 < blk < 0x100000000 :: Harmless(d, SetInodeBlk(d, offset, blk, ino, n).0, n, offset))
            <==> TablesFor(d, n, offset / NBYTES_PER_BLOCK) || Stray(d, n, offset / NBYTES_PER_BLOCK)
  {
    hide Harmless, Stray, MapOk, Target, SetInodeBlk, TablesFor;
    if TablesFor(d, n, offset / NBYTES_PER_BLOCK) {
      forall blk: nat | 0 < blk < 0x100000000
        ensures Harmless(d, SetInodeBlk(d, offset, blk, ino, n).0, n, offset)
      {
        WithTablesHarmless(d, n, offset, blk, ino);
      }
    } else if Stray(d, n, offset / NBYTES_PER_BLOCK) {
      forall blk: nat | 0 < blk < 0x100000000
        ensures Harmless(d, SetInodeBlk(d, offset, blk, ino, n).0, n, offset)
      {
        StrayHarmless(d, n, offset, blk, ino);
      }
    } else {
      var blk := NoTableHarms(d, n, offset, ino);
    }
  }

  /** A file without an indirect table: the number lands in the superblock's block, and every such file then finds it. */
  lemma SharedByMistake(d: Disk, n: nat, offset: nat, blk: nat, ino: Inode, m: nat)
    requires DiskOk(d) && IsInum(n) && IsInum(m) && 0 < blk < 0x100000000
    requires NDIRECT_BLOCKS <= offset / NBYTES_PER_BLOCK < NDIRECT_BLOCKS + NINDIRECT_BLOCKS
    requires ino == ReadInode(d, n).(size := ino.size) && ino.indirect == 0 && ReadInode(d, m).indirect == 0
    ensures var d' := SetInodeBlk(d, offset, blk, ino, n).0;
            && d' == WriteBlock(d, 0, WithWord(ReadBlock(d, 0), offset / NBYTES_PER_BLOCK - NDIRECT_BLOCKS, blk))
            && DiskOk(d') && OffsetToBlk(d', offset, ReadInode(d', n)) == blk == OffsetToBlk(d', offset, ReadInode(d', m))
  {
    WordStored(ReadBlock(d, 0), offset / NBYTES_PER_BLOCK - NDIRECT_BLOCKS, blk, offset / NBYTES_PER_BLOCK - NDIRECT_BLOCKS);
    hide WordAt, WithWord;
  }

  /**
   The superblock that do_mkfs writes is such garbage: its fifth word, imap_offset, is 33, so a file without
   a double-indirect table writes block 33, which holds inodes.
   */
  lemma InodesOverwritten(d: Disk, n: nat, j: nat, blk: nat, ino: Inode)
    requires DiskOk(d) && IsInum(n) && |ino.direct| == NDIRECT_BLOCKS && ino.double == 0 && j < NINDIRECT_BLOCKS
    requires WordAt(ReadBlock(d, 0), 4) == 33
    ensures var offset := NBYTES_PER_BLOCK * (NDIRECT_BLOCKS + NINDIRECT_BLOCKS + 4 * NINDIRECT_BLOCKS + j);
            && offset / NBYTES_PER_BLOCK < MAX_INDEX
            && SetInodeBlk(d, offset, blk, ino, n).0 == WriteBlock(d, 33, WithWord(ReadBlock(d, 33), j, blk))
  {
    hide WordAt, WithWord;
    var k := 4 * NINDIRECT_BLOCKS + j;
    assert k / NINDIRECT_BLOCKS == 4 && k % NINDIRECT_BLOCKS == j;
  }

  lemma DataArea(d: Disk, r: Ref)
    requires DiskOk(d) && MapOk(d) && Target(d, r) != 0
    ensures InDataArea(d, Target(d, r))
  {
  }
}
