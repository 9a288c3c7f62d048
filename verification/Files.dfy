/** Reading and writing files: do_fread and do_fwrite against files as independent byte arrays. */
module Files {
  import opened Arithmetic
  import opened Bitmap
  import opened Bytes
  import opened BlockMap

  /** The byte x of the file n; unallocated blocks count as zero. */
  function FileByte(d: Disk, n: nat, x: nat): Byte
    requires DiskOk(d)
  {
    var b := Target(d, DataRef(n, x / NBYTES_PER_BLOCK));
    if b == 0 then 0 else ReadBlock(d, b)[x % NBYTES_PER_BLOCK]
  }

  /** do_mkfs has marked the metadata blocks. */
  ghost predicate MetaOk(d: Disk) {
    forall m: nat | 1 <= m <= NMETA_BLOCKS :: Used(d.blockMap, m)
  }

  ghost predicate FsOk(d: Disk) {
    DiskOk(d) && MapOk(d) && MetaOk(d)
  }

  /** The bitmaps and inodes that do_mkfs writes, before the root directory: blocks 1 to 70 are marked. */
  function Formatted(): Disk {
    var zero: Word := seq(64, _ => false);
    var first: Sector := [Ones(), seq(64, t => t < 6)] + seq(62, _ => zero);
    Disk([first] + seq(NSECTORS_BMAP - 1, _ => seq(64, _ => zero)), [seq(64, _ => zero)],
         seq(NSECTORS_INODEBLOCK, _ => seq(8, _ => Inode(0, 0, 0, seq(NDIRECT_BLOCKS, _ => 0), 0, 0))), map[])
  }

  lemma FormattedOk()
    ensures FsOk(Formatted())
    ensures forall m: nat :: Used(Formatted().blockMap, m) <==> 1 <= m <= NMETA_BLOCKS
    ensures forall n: nat :: !Live(Formatted(), n)
  {
    var d := Formatted();
    forall n: nat
      ensures !Live(d, n)
    {
    }
    forall m: nat
      ensures Used(d.blockMap, m) <==> 1 <= m <= NMETA_BLOCKS
    {
      if InMap(d.blockMap, m) {
        InSectors(d.blockMap, m);
        PartsNum(m);
      }
    }
    assert forall r :: Target(d, r) == 0;
  }

  // ---------------------------------------------------------------- one chunk

  /** From d to d' the block number at the place r becomes b; data blocks keep their bytes. */
  ghost predicate Links(d: Disk, d': Disk, r: Ref, b: nat)
    requires DiskOk(d)
  {
    && FsOk(d') && d'.inodeMap == d.inodeMap
    && (forall r' :: Target(d', r') == if r' == r then b else Target(d, r'))
    && (forall r' | !IsTable(r') && Target(d, r') != 0 :: ReadBlock(d', Target(d, r')) == ReadBlock(d, Target(d, r')))
  }

  lemma FreshBlock(d: Disk, b: nat, r: Ref)
    requires FsOk(d) && !Used(d.blockMap, b)
    ensures Target(d, r) == b ==> b == 0
  {
  }

  lemma MarkBlock(d: Disk, b: nat)
    requires FsOk(d) && InMap(d.blockMap, b)
    ensures FsOk(d.(blockMap := SetBit(d.blockMap, b, true)))
    ensures forall r :: Target(d.(blockMap := SetBit(d.blockMap, b, true)), r) == Target(d, r)
  {
    var d' := d.(blockMap := SetBit(d.blockMap, b, true));
    forall m: nat
      ensures Used(d.blockMap, m) ==> Used(d'.blockMap, m)
    {
      SetBitUsed(d.blockMap, b, true, m);
    }
    forall r
      ensures Target(d', r) == Target(d, r)
    {
    }
  }

  /** alloc_block and set_inode_blk_num for a block that the file n does not have yet. */
  lemma LinkBlock(d: Disk, n: nat, offset: nat, ino: Inode, b: nat)
    requires FsOk(d) && IsInum(n) && offset / NBYTES_PER_BLOCK < MAX_INDEX && TablesFor(d, n, offset / NBYTES_PER_BLOCK)
    requires ino == ReadInode(d, n).(size := ino.size)
    requires Target(d, DataRef(n, offset / NBYTES_PER_BLOCK)) == 0
    requires InMap(d.blockMap, b) && !Used(d.blockMap, b)
    ensures var d1 := d.(blockMap := SetBit(d.blockMap, b, true));
            var d2 := SetInodeBlk(d1, offset, b, ino, n).0;
            Links(d, d2, DataRef(n, offset / NBYTES_PER_BLOCK), b)
  {
    hide Target, WordAt, WithWord, DataRef;
    var d1, r := d.(blockMap := SetBit(d.blockMap, b, true)), DataRef(n, offset / NBYTES_PER_BLOCK);
    MarkBlock(d, b);
    SetBitUsed(d.blockMap, b, true, b);
    var d2 := SetInodeBlk(d1, offset, b, ino, n).0;
    forall r'
      ensures DiskOk(d2) && Target(d2, r') == if r' == r then b else Target(d, r')
    {
      SetInodeBlkIs(d1, n, offset, b, ino, r');
    }
    assert DiskOk(d2);
    LinkedMapOk(d, d2, r, b);
    forall r' | !IsTable(r') && Target(d, r') != 0
      ensures ReadBlock(d2, Target(d, r')) == ReadBlock(d, Target(d, r'))
    {
      LinkKeepsData(d1, n, offset, ino, b, r');
    }
  }

  lemma LinkedMapOk(d: Disk, d2: Disk, r: Ref, b: nat)
    requires FsOk(d) && DiskOk(d2) && InMap(d.blockMap, b) && !Used(d.blockMap, b)
    requires d2.blockMap == SetBit(d.blockMap, b, true)
    requires forall r' :: Target(d2, r') == if r' == r then b else Target(d, r')
    ensures FsOk(d2)
  {
    hide Target;
    forall m: nat
      ensures Used(d2.blockMap, m) <==> Used(d.blockMap, m) || m == b
    {
      SetBitUsed(d.blockMap, b, true, m);
    }
    hide Used, InMap;
    assert b > NMETA_BLOCKS;
    forall r1, r2 | Target(d2, r1) == Target(d2, r2) != 0
      ensures r1 == r2
    {
      FreshBlock(d, b, r1);
      FreshBlock(d, b, r2);
    }
    forall r' | Target(d2, r') != 0
      ensures NMETA_BLOCKS < Target(d2, r') && Used(d2.blockMap, Target(d2, r'))
    {
      assert Target(d, r') != 0 ==> Used(d.blockMap, Target(d, r'));
    }
  }

  /** set_inode_blk_num writes an inode or a table, never a data block. */
  lemma LinkKeepsData(d: Disk, n: nat, offset: nat, ino: Inode, b: nat, r: Ref)
    requires FsOk(d) && IsInum(n) && offset / NBYTES_PER_BLOCK < MAX_INDEX && TablesFor(d, n, offset / NBYTES_PER_BLOCK)
    requires ino == ReadInode(d, n).(size := ino.size) && !IsTable(r) && Target(d, r) != 0
    ensures ReadBlock(SetInodeBlk(d, offset, b, ino, n).0, Target(d, r)) == ReadBlock(d, Target(d, r))
  {
    hide Target, WordAt, WithWord;
    var i := offset / NBYTES_PER_BLOCK;
    if i >= NDIRECT_BLOCKS {
      var p := Parent(DataRef(n, i));
      IndexBlocks(d, n);
      if p.Table? {
        TargetInParent(d, p);
      }
      assert Target(d, p) != Target(d, r);
    }
  }

  /** write_block of a data block that belongs to r. */
  lemma StoreBlock(d: Disk, r: Ref, b: nat, x: Block)
    requires FsOk(d) && !IsTable(r) && Target(d, r) == b != 0
    ensures var d' := WriteBlock(d, b, x);
            FsOk(d') && d'.inodeMap == d.inodeMap && forall r' :: Target(d', r') == Target(d, r')
  {
    hide Target;
    var d' := WriteBlock(d, b, x);
    forall r'
      ensures DiskOk(d') && Target(d', r') == Target(d, r')
    {
      StoreData(d, b, x, r');
    }
    assert DiskOk(d');
  }

  /** A chunk inside one block: those bytes of that file change, and nothing else in any file. */
  lemma ChunkBytes(d: Disk, d2: Disk, n: nat, offset: nat, b: nat, base: Block, data: seq<Byte>, n': nat, x: nat)
    requires FsOk(d) && b != 0 && offset % NBYTES_PER_BLOCK + |data| <= NBYTES_PER_BLOCK
    requires Links(d, d2, DataRef(n, offset / NBYTES_PER_BLOCK), b)
    requires var b0 := Target(d, DataRef(n, offset / NBYTES_PER_BLOCK));
             (b0 == 0 && base == ZeroBlock()) || (b0 == b && base == ReadBlock(d, b))
    ensures var d3 := WriteBlock(d2, b, Stored(base, offset % NBYTES_PER_BLOCK, data));
            && FsOk(d3)
            && FileByte(d3, n', x) == if n' == n && offset <= x < offset + |data| then data[x - offset] else FileByte(d, n', x)
  {
    hide Target, DataRef, MapOk, Stored;
    var r, r' := DataRef(n, offset / NBYTES_PER_BLOCK), DataRef(n', x / NBYTES_PER_BLOCK);
    DataIsNoTable(n, offset / NBYTES_PER_BLOCK);
    DataIsNoTable(n', x / NBYTES_PER_BLOCK);
    StoreBlock(d2, r, b, Stored(base, offset % NBYTES_PER_BLOCK, data));
    if r' == r {
      DataRefInjective(n, offset / NBYTES_PER_BLOCK, n', x / NBYTES_PER_BLOCK);
      InBlock(offset, x, |data|);
      StoredByte(base, offset % NBYTES_PER_BLOCK, data, x % NBYTES_PER_BLOCK);
    } else {
      OtherBlock(d2, r, r');
      OutOfBlock(offset, x, |data|);
    }
  }

  lemma StoredByte(s: seq<Byte>, at: nat, d: seq<Byte>, i: nat)
    requires at + |d| <= |s| && i < |s|
    ensures Stored(s, at, d)[i] == if at <= i < at + |d| then d[i - at] else s[i]
  {
  }

  lemma DataIsNoTable(n: nat, i: nat)
    ensures !IsTable(DataRef(n, i))
  {
  }

  lemma OtherBlock(d: Disk, r: Ref, r': Ref)
    requires FsOk(d) && r != r' && Target(d, r) != 0
    ensures Target(d, r') != Target(d, r)
  {
  }

  lemma InBlock(offset: nat, x: nat, len: nat)
    requires x / NBYTES_PER_BLOCK == offset / NBYTES_PER_BLOCK && offset % NBYTES_PER_BLOCK + len <= NBYTES_PER_BLOCK
    ensures x - offset == x % NBYTES_PER_BLOCK - offset % NBYTES_PER_BLOCK
  {
  }

  lemma OutOfBlock(offset: nat, x: nat, len: nat)
    requires offset % NBYTES_PER_BLOCK + len <= NBYTES_PER_BLOCK
    ensures offset <= x < offset + len ==> x / NBYTES_PER_BLOCK == offset / NBYTES_PER_BLOCK
  {
  }

  // ---------------------------------------------------------------- a whole transfer

  /** Of all files, exactly the bytes of the file n from offset on have become data. */
  ghost predicate Wrote(d: Disk, d': Disk, n: nat, offset: nat, data: seq<Byte>)
    requires DiskOk(d) && DiskOk(d')
  {
    forall n', x: nat :: FileByte(d', n', x) ==
      if n' == n && offset <= x < offset + |data| then data[x - offset] else FileByte(d, n', x)
  }

  lemma WroteThen(d: Disk, d1: Disk, d2: Disk, n: nat, offset: nat, data: seq<Byte>, more: seq<Byte>)
    requires DiskOk(d) && DiskOk(d1) && DiskOk(d2)
    requires Wrote(d, d1, n, offset, data) && Wrote(d1, d2, n, offset + |data|, more)
    ensures Wrote(d, d2, n, offset, data + more)
  {
    hide FileByte;
  }

  /** The index tables for the bytes from offset on exist. */
  ghost predicate TablesIn(d: Disk, n: nat, offset: nat, len: nat)
    requires DiskOk(d)
  {
    len > 0 ==>
      forall i: nat | offset / NBYTES_PER_BLOCK <= i && NBYTES_PER_BLOCK * i < offset + len :: TablesFor(d, n, i)
  }

  /** The blocks for the bytes from offset on are allocated. */
  ghost predicate Allocated(d: Disk, n: nat, offset: nat, len: nat)
    requires DiskOk(d)
  {
    len > 0 ==>
      forall i: nat | offset / NBYTES_PER_BLOCK <= i && NBYTES_PER_BLOCK * i < offset + len ::
        Target(d, DataRef(n, i)) != 0
  }

  /** No table and no allocated block goes away, and no inode but n changes. */
  ghost predicate Grows(d: Disk, d': Disk, n: nat)
    requires DiskOk(d) && DiskOk(d')
  {
    && d'.inodeMap == d.inodeMap
    && (forall r | Target(d, r) != 0 :: Target(d', r) == Target(d, r))
    && (forall m | IsInum(m) && m != n :: ReadInode(d', m) == ReadInode(d, m))
  }

  /**
   What do_fwrite of data at offset of the file n promises: those bytes of that file, and no others of
   any file, are data; they are allocated; the size covers them; no other inode changes.
   */
  ghost predicate WroteFile(d: Disk, d': Disk, n: nat, offset: nat, data: seq<Byte>) {
    && DiskOk(d) && DiskOk(d') && IsInum(n)
    && Wrote(d, d', n, offset, data) && Grows(d, d', n) && Allocated(d', n, offset, |data|)
    && var ino, ino' := ReadInode(d, n), ReadInode(d', n);
       && ino' == ino.(size := ino'.size, direct := ino'.direct)
       && ino.size <= ino'.size && offset + |data| <= ino'.size
       && (ino'.size == ino.size || ino'.size == offset + |data|)
  }

  /** How much of a transfer the loop does in one round. */
  function ChunkLen(offset: nat, len: nat): (k: nat)
    requires len > 0
    ensures 0 < k <= len && offset % NBYTES_PER_BLOCK + k <= NBYTES_PER_BLOCK
  {
    var at := offset % NBYTES_PER_BLOCK;
    if at + len > NBYTES_PER_BLOCK then NBYTES_PER_BLOCK - at else len
  }

  /** How many of the blocks that a transfer touches the file does not have yet. */
  function Missing(d: Disk, n: nat, offset: nat, len: nat): nat
    requires DiskOk(d)
    decreases len
  {
    if len == 0 then 0 else
    Lacks(d, n, offset) + Missing(d, n, offset + ChunkLen(offset, len), len - ChunkLen(offset, len))
  }

  /** One if the block of that offset is not allocated. */
  function Lacks(d: Disk, n: nat, offset: nat): nat
    requires DiskOk(d)
  {
    if Target(d, DataRef(n, offset / NBYTES_PER_BLOCK)) == 0 then 1 else 0
  }

  lemma MissingStep(d: Disk, n: nat, offset: nat, done: nat, total: nat)
    requires DiskOk(d) && done < total
    ensures var next := done + ChunkLen(offset + done, total - done);
            Missing(d, n, offset + done, total - done) == Lacks(d, n, offset + done) + Missing(d, n, offset + next, total - next)
  {
    var k := ChunkLen(offset + done, total - done);
    assert offset + (done + k) == offset + done + k && total - (done + k) == total - done - k;
    hide Lacks, ChunkLen;
  }

  /** Blocks are only added. */
  lemma {:induction false} MissingGrows(d: Disk, d': Disk, n: nat, offset: nat, len: nat)
    requires DiskOk(d) && DiskOk(d') && Grows(d, d', n)
    ensures Missing(d', n, offset, len) <= Missing(d, n, offset, len)
    decreases len
  {
    hide Target, DataRef, DiskOk;
    if len > 0 {
      MissingGrows(d, d', n, offset + ChunkLen(offset, len), len - ChunkLen(offset, len));
    }
  }

  function FreeBlocks(s: seq<Sector>): set<nat> {
    set m: nat | m < NBITS_PER_SECTOR * |s| + 1 && m > 0 && !Used(s, m)
  }

  lemma TakeBlock(s: seq<Sector>, b: nat)
    requires InMap(s, b) && !Used(s, b)
    ensures |FreeBlocks(SetBit(s, b, true))| == |FreeBlocks(s)| - 1
  {
    forall m: nat
      ensures m in FreeBlocks(SetBit(s, b, true)) <==> m in FreeBlocks(s) && m != b
    {
      SetBitUsed(s, b, true, m);
    }
    assert FreeBlocks(SetBit(s, b, true)) == FreeBlocks(s) - {b};
  }

  lemma SomeFree(s: seq<Sector>, b: nat)
    requires |FreeBlocks(s)| > 0 && b > 0 && AllUsedBelow(s, b) && !Used(s, b)
    requires !InMap(s, b) ==> b == NBITS_PER_SECTOR * |s| + 1
    ensures InMap(s, b)
  {
    var m :| m in FreeBlocks(s);
  }

  // ---------------------------------------------------------------- the calls

  datatype Fdesc = Fdesc(inum: nat, canRead: bool, canWrite: bool, offset: nat)

  datatype Whence = SeekSet | SeekCur | SeekEnd

  /** A seek ends at the place asked for, kept inside the file: not before it, and forward not beyond it. */
  predicate Sought(to: int, offset: int, size: nat, result: int) {
    && (0 <= to <= size ==> result == to)
    && (to < 0 ==> result == 0)
    && (to > size ==> result == if offset >= 0 then size else to)
  }

  class FileSystem {
    /** The SD card. */
    var disk: Disk
    var fdescs: seq<Fdesc>
    /** The one static block buffer of fs.c. */
    var blockBuf: Block

    constructor (d: Disk, fds: seq<Fdesc>)
      ensures disk == d && fdescs == fds
    {
      disk, fdescs, blockBuf := d, fds, ZeroBlock();
    }

    /** alloc_block, while there is a free block. */
    method AllocBlock() returns (b: nat)
      requires |FreeBlocks(disk.blockMap)| > 0
      modifies this`disk
      ensures InMap(old(disk).blockMap, b) && !Used(old(disk).blockMap, b)
      ensures disk == old(disk).(blockMap := SetBit(old(disk).blockMap, b, true))
      ensures |FreeBlocks(disk.blockMap)| == |FreeBlocks(old(disk).blockMap)| - 1
    {
      var map';
      map', b := Alloc(disk.blockMap);
      SomeFree(disk.blockMap, b);
      TakeBlock(disk.blockMap, b);
      disk := disk.(blockMap := map');
    }

    /**
     do_fwrite with the buffer advancing from chunk to chunk: the bytes of this file at the descriptor's
     offset become buff; every other byte of every file stays. What is returned is the remaining length.
     */
    method Fwrite(fd: nat, buff: seq<Byte>) returns (ret: int)
      requires FsOk(disk) && fd < |fdescs| && Live(disk, fdescs[fd].inum) && IsInum(fdescs[fd].inum)
      requires fdescs[fd].offset + |buff| < 0x100000000
      requires TablesIn(disk, fdescs[fd].inum, fdescs[fd].offset, |buff|)
      requires |FreeBlocks(disk.blockMap)| >= Missing(disk, fdescs[fd].inum, fdescs[fd].offset, |buff|)
      modifies this
      ensures FsOk(disk)
      ensures !old(fdescs[fd]).canWrite ==> ret == -1 && disk == old(disk) && fdescs == old(fdescs)
      ensures old(fdescs[fd]).canWrite ==>
                && ret == 0 && fdescs == old(fdescs)[fd := old(fdescs[fd]).(offset := old(fdescs[fd]).offset + |buff|)]
                && WroteFile(old(disk), disk, old(fdescs[fd]).inum, old(fdescs[fd]).offset, buff)
    {
      hide FsOk, WroteFile, TablesIn, FreeBlocks;
      ret := WriteFile(fd, buff, true, buff);
    }

    /** do_fwrite as it stands: every chunk is copied from the beginning of the buffer. */
    method FwriteAsWritten(fd: nat, buff: seq<Byte>) returns (ret: int)
      requires FsOk(disk) && fd < |fdescs| && Live(disk, fdescs[fd].inum) && IsInum(fdescs[fd].inum)
      requires fdescs[fd].offset + |buff| < 0x100000000
      requires TablesIn(disk, fdescs[fd].inum, fdescs[fd].offset, |buff|)
      requires |FreeBlocks(disk.blockMap)| >= Missing(disk, fdescs[fd].inum, fdescs[fd].offset, |buff|)
      modifies this
      ensures FsOk(disk)
      ensures !old(fdescs[fd]).canWrite ==> ret == -1 && disk == old(disk) && fdescs == old(fdescs)
      ensures old(fdescs[fd]).canWrite ==>
                && ret == 0 && fdescs == old(fdescs)[fd := old(fdescs[fd]).(offset := old(fdescs[fd]).offset + |buff|)]
                && WroteFile(old(disk), disk, old(fdescs[fd]).inum, old(fdescs[fd]).offset, WriteImage(old(fdescs[fd]).offset, buff))
    {
      hide FsOk, WroteFile, TablesIn, FreeBlocks;
      ret := WriteFile(fd, buff, false, WriteImage(fdescs[fd].offset, buff));
    }

    /** The body of do_fwrite, with or without advancing the buffer; image is what ends up in the file. */
    method WriteFile(fd: nat, buff: seq<Byte>, advance: bool, ghost image: seq<Byte>) returns (ret: int)
      requires FsOk(disk) && fd < |fdescs| && Live(disk, fdescs[fd].inum) && IsInum(fdescs[fd].inum)
      requires fdescs[fd].offset + |buff| < 0x100000000
      requires TablesIn(disk, fdescs[fd].inum, fdescs[fd].offset, |buff|)
      requires |FreeBlocks(disk.blockMap)| >= Missing(disk, fdescs[fd].inum, fdescs[fd].offset, |buff|)
      requires image == if advance then buff else WriteImage(fdescs[fd].offset, buff)
      modifies this
      ensures FsOk(disk)
      ensures !old(fdescs[fd]).canWrite ==> ret == -1 && disk == old(disk) && fdescs == old(fdescs)
      ensures old(fdescs[fd]).canWrite ==>
                && ret == 0 && fdescs == old(fdescs)[fd := old(fdescs[fd]).(offset := old(fdescs[fd]).offset + |buff|)]
                && WroteFile(old(disk), disk, old(fdescs[fd]).inum, old(fdescs[fd]).offset, image)
    {
      hide Target, DataRef, MapOk, MetaOk, Wrote, Grows, Allocated, TablesIn, FreeBlocks, WordAt, ReadInode, WriteImage;
      var fdesc := fdescs[fd];
      if !fdesc.canWrite {
        return -1;
      }
      var n, offset := fdesc.inum, fdesc.offset;
      ghost var d := disk;
      var ino := ReadInode(disk, n);
      if offset + |buff| > ino.size {
        ino := ino.(size := offset + |buff|);
      }
      fdescs := fdescs[fd := fdesc.(offset := offset + |buff|)];
      var left;
      left, ino := WriteLoop(n, ino, offset, buff, advance, image);
      ghost var d1 := disk;
      SizeOnly(disk, n, ino, offset + |buff|);
      disk := WriteInode(disk, n, ino);
      WroteThen(d, d1, disk, n, offset, image, []);
      assert image + [] == image;
      GrowsThen(d, d1, disk, n);
      GrowsAllocated(d1, disk, n, offset, |buff|);
      ret := left;
    }

    /** The loop of do_fwrite. */
    method WriteLoop(n: nat, ino0: Inode, offset: nat, buff: seq<Byte>, advance: bool, ghost image: seq<Byte>)
        returns (left: nat, ino: Inode)
      requires FsOk(disk) && IsInum(n) && Live(disk, n) && offset + |buff| < 0x100000000
      requires TablesIn(disk, n, offset, |buff|) && |FreeBlocks(disk.blockMap)| >= Missing(disk, n, offset, |buff|)
      requires ino0 == ReadInode(disk, n).(size := ino0.size) && image == if advance then buff else WriteImage(offset, buff)
      modifies this`disk, this`blockBuf
      ensures left == 0 && FsOk(disk) && Live(disk, n) && |image| == |buff|
      ensures ino == ReadInode(disk, n).(size := ino.size) && ino == ino0.(direct := ino.direct)
      ensures Wrote(old(disk), disk, n, offset, image) && Grows(old(disk), disk, n) && Allocated(disk, n, offset, |buff|)
    {
      hide Target, DataRef, MapOk, MetaOk, Wrote, Grows, Allocated, TablesIn, FreeBlocks, WordAt, ReadInode, WriteImage, ChunkLen,
        Missing, Lacks;
      ghost var d := disk;
      ImageLength(offset, buff);
      Untouched(d, n, offset);
      ino := ino0;
      var done := 0;
      while done < |buff|
        invariant done <= |buff| && FsOk(disk) && disk.inodeMap == d.inodeMap
        invariant done < |buff| ==> done == 0 || (offset + done) % NBYTES_PER_BLOCK == 0
        invariant ino == ReadInode(disk, n).(size := ino.size) && ino == ino0.(direct := ino.direct)
        invariant Wrote(d, disk, n, offset, image[..done]) && Grows(d, disk, n) && Allocated(disk, n, offset, done)
        invariant |FreeBlocks(disk.blockMap)| >= Missing(disk, n, offset + done, |buff| - done)
      {
        ghost var d1 := disk;
        var k := ChunkLen(offset + done, |buff| - done);
        MissingStep(d1, n, offset, done, |buff|);
        var next := done + k;
        assert |FreeBlocks(disk.blockMap)| >= Lacks(d1, n, offset + done) + Missing(d1, n, offset + next, |buff| - next);
        var chunk := if advance then buff[done..done + k] else buff[..k];
        if !advance {
          ImageChunk(offset, buff, done);
        }
        assert chunk == image[done..done + k];
        GrowsTables(d, d1, n, offset, |buff|);
        ChunkTable(d1, n, offset, |buff|, offset + done);
        ino := WriteChunk(n, ino, offset + done, chunk);
        RoundDone(d, d1, disk, n, offset, image, done, k);
        MissingGrows(d1, disk, n, offset + next, |buff| - next);
        NextStart(offset + done, |buff| - done);
        done := next;
      }
      assert image[..done] == image;
      left := |buff| - done;
    }

    /** do_fread with the buffer advancing: the bytes of the file, up to the first block it does not have. */
    method Fread(fd: nat, length: nat) returns (ret: int, data: seq<Byte>)
      requires FsOk(disk) && fd < |fdescs| && Live(disk, fdescs[fd].inum) && IsInum(fdescs[fd].inum)
      requires fdescs[fd].offset + length < 0x100000000
      requires TablesIn(disk, fdescs[fd].inum, fdescs[fd].offset, length)
      modifies this`fdescs, this`blockBuf
      ensures !old(fdescs[fd]).canRead ==> ret == -1 && data == [] && fdescs == old(fdescs)
      ensures old(fdescs[fd]).canRead ==>
                var fdesc := old(fdescs[fd]);
                && ret == |data| <= length
                && fdescs == old(fdescs)[fd := fdesc.(offset := fdesc.offset + |data|)]
                && (forall i | 0 <= i < |data| :: data[i] == FileByte(disk, fdesc.inum, fdesc.offset + i))
                && (|data| < length ==> Target(disk, DataRef(fdesc.inum, (fdesc.offset + |data|) / NBYTES_PER_BLOCK)) == 0)
    {
      hide Target, DataRef, MapOk, MetaOk, TablesIn, WordAt, FileByte;
      var fdesc := fdescs[fd];
      data := [];
      if !fdesc.canRead {
        return -1, data;
      }
      var n, offset := fdesc.inum, fdesc.offset;
      var ino := ReadInode(disk, n);
      while |data| < length
        invariant |data| <= length && fdescs == old(fdescs)
        invariant data == FileBytes(disk, n, offset, |data|)
        decreases length - |data|
      {
        var at := offset + |data|;
        ChunkTable(disk, n, offset, length, at);
        OffsetToBlkIs(disk, n, at, ino);
        var blk := OffsetToBlk(disk, at, ino);
        if blk == 0 {
          break;
        }
        var k := ChunkLen(at, length - |data|);
        blockBuf := ReadBlock(disk, blk);
        var from := at % NBYTES_PER_BLOCK;
        BlockBytes(disk, n, at, k);
        FileBytesMore(disk, n, offset, |data|, k);
        data := data + blockBuf[from..from + k];
      }
      fdescs := fdescs[fd := fdesc.(offset := offset + |data|)];
      ret := |data|;
    }

    /** do_fread as it stands: every chunk is stored at the beginning of the caller's buffer. */
    method FreadAsWritten(fd: nat, buff: seq<Byte>, length: nat) returns (ret: int, buff': seq<Byte>)
      requires FsOk(disk) && fd < |fdescs| && Live(disk, fdescs[fd].inum) && IsInum(fdescs[fd].inum)
      requires fdescs[fd].offset + length < 0x100000000 && length <= |buff|
      requires TablesIn(disk, fdescs[fd].inum, fdescs[fd].offset, length)
      modifies this`fdescs, this`blockBuf
      ensures !old(fdescs[fd]).canRead ==> ret == -1 && buff' == buff && fdescs == old(fdescs)
      ensures old(fdescs[fd]).canRead ==>
                var fdesc := old(fdescs[fd]);
                && 0 <= ret <= length && fdescs == old(fdescs)[fd := fdesc.(offset := fdesc.offset + ret)]
                && buff' == Landed(buff, fdesc.offset, FileBytes(disk, fdesc.inum, fdesc.offset, ret))
                && (ret < length ==> Target(disk, DataRef(fdesc.inum, (fdesc.offset + ret) / NBYTES_PER_BLOCK)) == 0)
    {
      hide Target, DataRef, MapOk, MetaOk, TablesIn, WordAt, Landed, FileByte, Stored;
      var fdesc := fdescs[fd];
      buff' := buff;
      if !fdesc.canRead {
        return -1, buff';
      }
      var n, offset := fdesc.inum, fdesc.offset;
      var ino := ReadInode(disk, n);
      var done := 0;
      NothingLands(buff, offset);
      while done < length
        invariant done <= length && |buff'| == |buff| && fdescs == old(fdescs)
        invariant done < length ==> done == 0 || (offset + done) % NBYTES_PER_BLOCK == 0
        invariant buff' == Landed(buff, offset, FileBytes(disk, n, offset, done))
        decreases length - done
      {
        var at := offset + done;
        ChunkTable(disk, n, offset, length, at);
        OffsetToBlkIs(disk, n, at, ino);
        var blk := OffsetToBlk(disk, at, ino);
        if blk == 0 {
          break;
        }
        var k := ChunkLen(at, length - done);
        blockBuf := ReadBlock(disk, blk);
        var from := at % NBYTES_PER_BLOCK;
        LandsNext(disk, n, offset, done, k, buff);
        buff' := Stored(buff', 0, blockBuf[from..from + k]);
        NextStart(at, length - done);
        done := done + k;
      }
      fdescs := fdescs[fd := fdesc.(offset := offset + done)];
      ret := done;
    }

    /** do_lseek */
    method Lseek(fd: nat, offset: int, whence: Whence) returns (result: int)
      requires DiskOk(disk) && fd < |fdescs| && IsInum(fdescs[fd].inum)
      modifies this`fdescs
      ensures var size, cur := ReadInode(disk, old(fdescs[fd]).inum).size, old(fdescs[fd]).offset;
              && (cur <= size ==> result <= size)
              && (whence.SeekSet? ==> Sought(offset, offset, size, result))
              && (whence.SeekCur? ==> Sought(cur + offset, offset, size, result))
              && (whence.SeekEnd? ==> Sought(size + offset, offset, size, result))
      ensures result >= 0 && fdescs == old(fdescs)[fd := old(fdescs[fd]).(offset := result)]
    {
      var cur, size := fdescs[fd].offset, ReadInode(disk, fdescs[fd].inum).size;
      match whence {
        case SeekSet => result := if offset >= 0 then (if offset > size then size else offset) else 0;
        case SeekCur =>
          result := if offset >= 0 then (if offset + cur > size then size else offset + cur)
                    else if offset + cur >= 0 then offset + cur else 0;
        case SeekEnd => result := if offset >= 0 then size else if size + offset >= 0 then size + offset else 0;
      }
      fdescs := fdescs[fd := fdescs[fd].(offset := result)];
    }

    /** Writing at any offset, seeking back and reading gives the bytes that were written. */
    method WriteThenRead(fd: nat, buff: seq<Byte>) returns (data: seq<Byte>)
      requires FsOk(disk) && fd < |fdescs| && Live(disk, fdescs[fd].inum) && IsInum(fdescs[fd].inum)
      requires fdescs[fd].canRead && fdescs[fd].canWrite && fdescs[fd].offset + |buff| < 0x100000000
      requires TablesIn(disk, fdescs[fd].inum, fdescs[fd].offset, |buff|)
      requires |FreeBlocks(disk.blockMap)| >= Missing(disk, fdescs[fd].inum, fdescs[fd].offset, |buff|)
      modifies this
      ensures FsOk(disk) && data == buff && WroteFile(old(disk), disk, old(fdescs[fd]).inum, old(fdescs[fd]).offset, buff)
    {
      hide Target, DataRef, MapOk, MetaOk, TablesIn, FreeBlocks, Grows, ReadInode;
      var n, offset := fdescs[fd].inum, fdescs[fd].offset;
      ghost var d := disk;
      var _ := Fwrite(fd, buff);
      GrowsTables(d, disk, n, offset, |buff|);
      GrowsImap(d, disk, n);
      var at := Lseek(fd, offset, SeekSet);
      var ret;
      ret, data := Fread(fd, |buff|);
      IsAllocated(disk, n, offset, |buff|, offset + |data|);
    }

    /** One round of the loop of do_fwrite, with the buffer at the bytes that are due. */
    method WriteChunk(n: nat, ino: Inode, offset: nat, data: seq<Byte>) returns (ino': Inode)
      requires FsOk(disk) && IsInum(n) && offset / NBYTES_PER_BLOCK < MAX_INDEX
      requires TablesFor(disk, n, offset / NBYTES_PER_BLOCK) && ino == ReadInode(disk, n).(size := ino.size)
      requires offset % NBYTES_PER_BLOCK + |data| <= NBYTES_PER_BLOCK && |FreeBlocks(disk.blockMap)| >= Lacks(disk, n, offset)
      modifies this`disk, this`blockBuf
      ensures FsOk(disk) && ino' == ReadInode(disk, n).(size := ino'.size) && ino' == ino.(direct := ino'.direct)
      ensures Wrote(old(disk), disk, n, offset, data) && Grows(old(disk), disk, n)
      ensures Target(disk, DataRef(n, offset / NBYTES_PER_BLOCK)) != 0
      ensures |FreeBlocks(disk.blockMap)| == |FreeBlocks(old(disk).blockMap)| - Lacks(old(disk), n, offset)
    {
      hide Target, DataRef, MapOk, MetaOk, WordAt, WithWord, Used, InMap, FreeBlocks;
      ghost var d, r := disk, DataRef(n, offset / NBYTES_PER_BLOCK);
      OffsetToBlkIs(disk, n, offset, ino);
      var blk := OffsetToBlk(disk, offset, ino);
      ino' := ino;
      if blk == 0 {
        blk := AllocBlock();
        LinkBlock(d, n, offset, ino, blk);
        LinkInode(disk, offset, blk, ino, n);
        var set' := SetInodeBlk(disk, offset, blk, ino, n);
        disk, ino' := set'.0, set'.1;
        blockBuf := ZeroBlock();
        InMapPositive(d.blockMap, blk);
      } else {
        blockBuf := ReadBlock(disk, blk);
      }
      ghost var d2, base := disk, blockBuf;
      blockBuf := Stored(blockBuf, offset % NBYTES_PER_BLOCK, data);
      disk := WriteBlock(disk, blk, blockBuf);
      DataIsNoTable(n, offset / NBYTES_PER_BLOCK);
      StoreBlock(d2, r, blk, blockBuf);
      forall n', x: nat
        ensures FileByte(disk, n', x) ==
                  if n' == n && offset <= x < offset + |data| then data[x - offset] else FileByte(d, n', x)
      {
        ChunkBytes(d, d2, n, offset, blk, base, data, n', x);
      }
    }
  }

  /** The bytes of the file n from offset on. */
  function FileBytes(d: Disk, n: nat, offset: nat, len: nat): (s: seq<Byte>)
    requires DiskOk(d)
    ensures |s| == len
  {
    seq<Byte>(len, i requires 0 <= i < len => FileByte(d, n, offset + i))
  }

  lemma FileBytesMore(d: Disk, n: nat, offset: nat, len: nat, more: nat)
    requires DiskOk(d)
    ensures FileBytes(d, n, offset, len + more) == FileBytes(d, n, offset, len) + FileBytes(d, n, offset + len, more)
  {
    hide FileByte;
  }

  /** Inside one block the bytes of the file are those of its block. */
  lemma BlockBytes(d: Disk, n: nat, at: nat, k: nat)
    requires DiskOk(d) && at % NBYTES_PER_BLOCK + k <= NBYTES_PER_BLOCK
    requires Target(d, DataRef(n, at / NBYTES_PER_BLOCK)) != 0
    ensures var from := at % NBYTES_PER_BLOCK;
            FileBytes(d, n, at, k) == ReadBlock(d, Target(d, DataRef(n, at / NBYTES_PER_BLOCK)))[from..from + k]
  {
    hide Target, DataRef;
    var b := ReadBlock(d, Target(d, DataRef(n, at / NBYTES_PER_BLOCK)));
    var from := at % NBYTES_PER_BLOCK;
    forall j | from <= j < from + k
      ensures FileByte(d, n, at + (j - from)) == b[j]
    {
      InChunk(at, j - from);
    }
  }

  lemma NothingLands(buff: seq<Byte>, offset: nat)
    ensures Landed(buff, offset, []) == buff
  {
  }

  lemma InChunk(at: nat, i: nat)
    requires at % NBYTES_PER_BLOCK + i < NBYTES_PER_BLOCK
    ensures (at + i) / NBYTES_PER_BLOCK == at / NBYTES_PER_BLOCK
    ensures (at + i) % NBYTES_PER_BLOCK == at % NBYTES_PER_BLOCK + i
  {
  }

  lemma IsAllocated(d: Disk, n: nat, offset: nat, len: nat, x: nat)
    requires DiskOk(d) && Allocated(d, n, offset, len) && offset <= x
    ensures x < offset + len ==> Target(d, DataRef(n, x / NBYTES_PER_BLOCK)) != 0
  {
    hide Target, DataRef;
  }

  lemma GrowsImap(d: Disk, d': Disk, n: nat)
    requires DiskOk(d) && DiskOk(d') && Grows(d, d', n)
    ensures d'.inodeMap == d.inodeMap
  {
  }

  lemma Untouched(d: Disk, n: nat, offset: nat)
    requires DiskOk(d)
    ensures Wrote(d, d, n, offset, []) && Grows(d, d, n) && Allocated(d, n, offset, 0)
  {
  }

  lemma GrowsTables(d: Disk, d': Disk, n: nat, offset: nat, len: nat)
    requires DiskOk(d) && DiskOk(d') && Grows(d, d', n) && TablesIn(d, n, offset, len)
    ensures TablesIn(d', n, offset, len)
  {
    hide Target, DataRef;
    if len > 0 {
      forall i: nat | offset / NBYTES_PER_BLOCK <= i && NBYTES_PER_BLOCK * i < offset + len
        ensures TablesFor(d', n, i)
      {
        assert TablesFor(d, n, i);
        DataIsNoTable(n, i);
      }
    }
  }

  lemma GrowsThen(d: Disk, d1: Disk, d2: Disk, n: nat)
    requires DiskOk(d) && DiskOk(d1) && DiskOk(d2) && Grows(d, d1, n) && Grows(d1, d2, n)
    ensures Grows(d, d2, n)
  {
    hide Target;
  }

  lemma GrowsAllocated(d: Disk, d': Disk, n: nat, offset: nat, len: nat)
    requires DiskOk(d) && DiskOk(d') && Grows(d, d', n) && Allocated(d, n, offset, len)
    ensures Allocated(d', n, offset, len)
  {
    hide Target;
  }

  /** The blocks before x and the block of x make up the blocks before the end of the chunk at x. */
  lemma AllocatedMore(d: Disk, n: nat, offset: nat, done: nat, k: nat)
    requires DiskOk(d) && Allocated(d, n, offset, done) && (offset + done) % NBYTES_PER_BLOCK + k <= NBYTES_PER_BLOCK
    requires Target(d, DataRef(n, (offset + done) / NBYTES_PER_BLOCK)) != 0
    ensures Allocated(d, n, offset, done + k)
  {
    hide Target, DataRef;
  }

  /** What one round of the loop adds to what the rounds before it did. */
  lemma RoundDone(d: Disk, d1: Disk, d2: Disk, n: nat, offset: nat, image: seq<Byte>, done: nat, k: nat)
    requires DiskOk(d) && DiskOk(d1) && DiskOk(d2) && done + k <= |image|
    requires Wrote(d, d1, n, offset, image[..done]) && Grows(d, d1, n) && Allocated(d1, n, offset, done)
    requires Wrote(d1, d2, n, offset + done, image[done..done + k]) && Grows(d1, d2, n)
    requires (offset + done) % NBYTES_PER_BLOCK + k <= NBYTES_PER_BLOCK
    requires Target(d2, DataRef(n, (offset + done) / NBYTES_PER_BLOCK)) != 0
    ensures Wrote(d, d2, n, offset, image[..done + k]) && Grows(d, d2, n) && Allocated(d2, n, offset, done + k)
    ensures d2.inodeMap == d1.inodeMap
  {
    hide Target, DataRef, Wrote, Grows, Allocated;
    WroteThen(d, d1, d2, n, offset, image[..done], image[done..done + k]);
    assert image[..done] + image[done..done + k] == image[..done + k];
    GrowsThen(d, d1, d2, n);
    GrowsAllocated(d1, d2, n, offset, done);
    AllocatedMore(d2, n, offset, done, k);
    GrowsImap(d1, d2, n);
  }

  lemma ChunkTable(d: Disk, n: nat, offset: nat, len: nat, x: nat)
    requires DiskOk(d) && TablesIn(d, n, offset, len) && offset <= x < offset + len
    ensures TablesFor(d, n, x / NBYTES_PER_BLOCK)
  {
    hide Target, TablesFor;
  }

  lemma SizeOnly(d: Disk, n: nat, ino: Inode, at: nat)
    requires FsOk(d) && IsInum(n) && Live(d, n) && ino == ReadInode(d, n).(size := ino.size)
    ensures var d' := WriteInode(d, n, ino);
            FsOk(d') && Wrote(d, d', n, at, []) && Grows(d, d', n) && (forall r :: Target(d', r) == Target(d, r))
            && ReadInode(d', n) == ino
  {
    hide MapOk, MetaOk;
    var d' := WriteInode(d, n, ino);
    forall m | IsInum(m)
      ensures ReadInode(d', m) == if m == n then ino else ReadInode(d, m)
    {
      InodeStored(d, n, ino, m);
    }
    forall r
      ensures Target(d', r) == Target(d, r)
    {
      StoreInode(d, n, ino, r);
      DirectTargets(d, n, r);
    }
    hide Target;
    SameTargets(d, d');
  }

  lemma SameTargets(d: Disk, d': Disk)
    requires FsOk(d) && DiskOk(d') && d'.blockMap == d.blockMap && forall r :: Target(d', r) == Target(d, r)
    ensures FsOk(d')
  {
    hide Target;
  }

  lemma InMapPositive(s: seq<Sector>, b: nat)
    requires InMap(s, b)
    ensures b != 0
  {
  }

  /** What set_inode_blk_num does to inodes: the caller's copy stays the one on the disk, but for the size. */
  lemma LinkInode(d: Disk, offset: nat, b: nat, ino: Inode, n: nat)
    requires DiskOk(d) && IsInum(n) && offset / NBYTES_PER_BLOCK < MAX_INDEX
    requires ino == ReadInode(d, n).(size := ino.size)
    ensures var (d', ino') := SetInodeBlk(d, offset, b, ino, n);
            && DiskOk(d') && ino' == ReadInode(d', n).(size := ino'.size) && ino' == ino.(direct := ino'.direct)
            && d'.blockMap == d.blockMap && d'.inodeMap == d.inodeMap
            && forall m | IsInum(m) && m != n :: ReadInode(d', m) == ReadInode(d, m)
  {
    var i := offset / NBYTES_PER_BLOCK;
    if i < NDIRECT_BLOCKS {
      forall m | IsInum(m)
        ensures ReadInode(WriteInode(d, n, ino.(direct := ino.direct[i := b])), m) ==
                if m == n then ino.(direct := ino.direct[i := b]) else ReadInode(d, m)
      {
        InodeStored(d, n, ino.(direct := ino.direct[i := b]), m);
      }
    }
  }

  // ---------------------------------------------------------------- the copy loops as they stand

  /** Where the chunk that holds byte i of a transfer starts. */
  function ChunkStart(offset: nat, i: nat): (s: nat)
    ensures s <= i
  {
    var first := NBYTES_PER_BLOCK * ((offset + i) / NBYTES_PER_BLOCK);
    if first > offset then first - offset else 0
  }

  lemma SameStart(offset: nat, done: nat, j: nat)
    requires done <= j && (offset + done) % NBYTES_PER_BLOCK + (j - done) < NBYTES_PER_BLOCK
    requires done == 0 || (offset + done) % NBYTES_PER_BLOCK == 0
    ensures ChunkStart(offset, j) == done
  {
    InChunk(offset + done, j - done);
  }

  lemma NextStart(at: nat, len: nat)
    requires len > 0
    ensures ChunkLen(at, len) < len ==> (at + ChunkLen(at, len)) % NBYTES_PER_BLOCK == 0
  {
  }

  /** What do_fwrite as it stands puts into the file for buff: every chunk is the beginning of the buffer. */
  function WriteImage(offset: nat, buff: seq<Byte>): (image: seq<Byte>)
    ensures |image| == |buff|
  {
    seq(|buff|, i requires 0 <= i < |buff| => buff[i - ChunkStart(offset, i)])
  }

  lemma ImageLength(offset: nat, buff: seq<Byte>)
    ensures |WriteImage(offset, buff)| == |buff|
  {
  }

  lemma ImageChunk(offset: nat, buff: seq<Byte>, done: nat)
    requires done < |buff| && (done == 0 || (offset + done) % NBYTES_PER_BLOCK == 0)
    ensures var k := ChunkLen(offset + done, |buff| - done); WriteImage(offset, buff)[done..done + k] == buff[..k]
  {
    var k := ChunkLen(offset + done, |buff| - done);
    forall j | done <= j < done + k
      ensures WriteImage(offset, buff)[j] == buff[j - done]
    {
      SameStart(offset, done, j);
    }
  }

  /** do_fwrite as it stands writes its buffer, whatever the bytes, exactly when the transfer stays inside one block. */
  lemma WriteAsWrittenRight(offset: nat, len: nat)
    ensures (forall buff: seq<Byte> | |buff| == len :: WriteImage(offset, buff) == buff)
            <==> len == 0 || offset % NBYTES_PER_BLOCK + len <= NBYTES_PER_BLOCK
  {
    hide ChunkStart;
    if len == 0 || offset % NBYTES_PER_BLOCK + len <= NBYTES_PER_BLOCK {
      forall i: nat | i < len
        ensures ChunkStart(offset, i) == 0
      {
        SameStart(offset, 0, i);
      }
      forall buff: seq<Byte> | |buff| == len
        ensures WriteImage(offset, buff) == buff
      {
      }
    } else {
      var i := NBYTES_PER_BLOCK - offset % NBYTES_PER_BLOCK;
      var buff: seq<Byte> := seq(len, j => if j == i then 1 else 0);
      BorderStart(offset);
      assert WriteImage(offset, buff)[i] != buff[i];
    }
  }

  /** The chunk behind the next block border starts there. */
  lemma BorderStart(offset: nat)
    ensures var i := NBYTES_PER_BLOCK - offset % NBYTES_PER_BLOCK; ChunkStart(offset, i) == i
  {
    var i := NBYTES_PER_BLOCK - offset % NBYTES_PER_BLOCK;
    DivUnique(offset + i, NBYTES_PER_BLOCK, offset / NBYTES_PER_BLOCK + 1, 0);
  }

  /** What do_fread as it stands leaves in the caller's buffer: every chunk is stored at its beginning. */
  function Landed(buff: seq<Byte>, offset: nat, data: seq<Byte>): (buff': seq<Byte>)
    requires |data| <= |buff|
    ensures |buff'| == |buff|
    decreases |data|
  {
    if data == [] then buff else
    var k := ChunkLen(offset, |data|);
    Landed(Stored(buff, 0, data[..k]), offset + k, data[k..])
  }

  /** One more chunk. */
  lemma {:induction false} LandedMore(buff: seq<Byte>, offset: nat, data: seq<Byte>, chunk: seq<Byte>)
    requires |data| + |chunk| <= |buff| && chunk != [] && (data == [] || (offset + |data|) % NBYTES_PER_BLOCK == 0)
    requires (offset + |data|) % NBYTES_PER_BLOCK + |chunk| <= NBYTES_PER_BLOCK
    ensures Landed(buff, offset, data + chunk) == Stored(Landed(buff, offset, data), 0, chunk)
    decreases |data|
  {
    hide Stored;
    if data == [] {
      assert data + chunk == chunk && ChunkLen(offset, |chunk|) == |chunk|;
      assert chunk[..|chunk|] == chunk && chunk[|chunk|..] == [];
    } else {
      var k := ChunkLen(offset, |data|);
      WholeChunks(offset, |data|, |chunk|);
      assert (data + chunk)[..k] == data[..k] && (data + chunk)[k..] == data[k..] + chunk;
      LandedMore(Stored(buff, 0, data[..k]), offset + k, data[k..], chunk);
    }
  }

  /** The next k bytes of the file, all in one block, land at the beginning of the buffer. */
  lemma LandsNext(d: Disk, n: nat, offset: nat, done: nat, k: nat, buff: seq<Byte>)
    requires DiskOk(d) && k > 0 && done + k <= |buff| && (done == 0 || (offset + done) % NBYTES_PER_BLOCK == 0)
    requires (offset + done) % NBYTES_PER_BLOCK + k <= NBYTES_PER_BLOCK
    requires Target(d, DataRef(n, (offset + done) / NBYTES_PER_BLOCK)) != 0
    ensures var at := offset + done;
            var from := at % NBYTES_PER_BLOCK;
            var block := ReadBlock(d, Target(d, DataRef(n, at / NBYTES_PER_BLOCK)));
            Landed(buff, offset, FileBytes(d, n, offset, done + k))
            == Stored(Landed(buff, offset, FileBytes(d, n, offset, done)), 0, block[from..from + k])
  {
    hide Target, DataRef, Landed, FileByte, Stored;
    BlockBytes(d, n, offset + done, k);
    FileBytesMore(d, n, offset, done, k);
    LandedMore(buff, offset, FileBytes(d, n, offset, done), FileBytes(d, n, offset + done, k));
  }

  lemma WholeChunks(offset: nat, n: nat, more: nat)
    requires n > 0 && (offset + n) % NBYTES_PER_BLOCK == 0
    ensures ChunkLen(offset, n + more) == ChunkLen(offset, n) == NBYTES_PER_BLOCK - offset % NBYTES_PER_BLOCK <= n
  {
  }

  /** A position behind everything that is still to come keeps its byte. */
  lemma {:induction false} LandedKeeps(buff: seq<Byte>, offset: nat, data: seq<Byte>, p: nat)
    requires |data| <= p < |buff|
    ensures Landed(buff, offset, data)[p] == buff[p]
    decreases |data|
  {
    if data != [] {
      var k := ChunkLen(offset, |data|);
      StoredByte(buff, 0, data[..k], p);
      hide Stored;
      LandedKeeps(Stored(buff, 0, data[..k]), offset + k, data[k..], p);
    }
  }

  /** do_fread as it stands delivers the bytes, whatever they are and the buffer held, exactly when the transfer stays inside one block. */
  lemma ReadAsWrittenRight(offset: nat, len: nat)
    ensures (forall buff: seq<Byte>, data: seq<Byte> | |data| == len <= |buff| :: Landed(buff, offset, data)[..len] == data)
            <==> len == 0 || offset % NBYTES_PER_BLOCK + len <= NBYTES_PER_BLOCK
  {
    hide Landed, Stored;
    if len == 0 || offset % NBYTES_PER_BLOCK + len <= NBYTES_PER_BLOCK {
      forall buff: seq<Byte>, data: seq<Byte> | |data| == len <= |buff|
        ensures Landed(buff, offset, data)[..len] == data
      {
        LandedOne(buff, offset, data);
        StoredHere(buff, 0, data);
      }
    } else {
      var buff: seq<Byte>, data: seq<Byte> := seq(len, _ => 0), seq(len, _ => 1);
      LastStays(buff, offset, data);
      assert Landed(buff, offset, data)[..len][len - 1] != data[len - 1];
    }
  }

  /** A transfer of one chunk. */
  lemma LandedOne(buff: seq<Byte>, offset: nat, data: seq<Byte>)
    requires |data| <= |buff| && offset % NBYTES_PER_BLOCK + |data| <= NBYTES_PER_BLOCK
    ensures Landed(buff, offset, data) == Stored(buff, 0, data)
  {
    if data != [] {
      assert data[..|data|] == data && data[|data|..] == [];
      assert ChunkLen(offset, |data|) == |data|;
    }
  }

  /** A transfer of several chunks never reaches the last place. */
  lemma LastStays(buff: seq<Byte>, offset: nat, data: seq<Byte>)
    requires |data| == |buff| && offset % NBYTES_PER_BLOCK + |data| > NBYTES_PER_BLOCK
    ensures Landed(buff, offset, data)[|data| - 1] == buff[|data| - 1]
  {
    var k := ChunkLen(offset, |data|);
    StoredByte(buff, 0, data[..k], |data| - 1);
    hide Stored;
    LandedKeeps(Stored(buff, 0, data[..k]), offset + k, data[k..], |data| - 1);
  }

  /** Two bytes across a block border: the second one arrives in the place of the first, and the other place keeps its junk. */
  lemma ReadAcrossBorder(x: Byte, y: Byte, a: Byte, b: Byte)
    ensures Landed([a, b], 4095, [x, y]) == [y, b]
  {
    assert Stored([a, b], 0, [x, y][..1]) == [x, b];
    assert [x, y][1..] == [y] && [y][1..] == [];
    assert Stored([x, b], 0, [y][..1]) == [y, b];
    assert ChunkLen(4095, 2) == 1 && ChunkLen(4096, 1) == 1;
    assert Landed([x, b], 4096, [y]) == Landed([y, b], 4097, []);
  }
}
