/** The image builder (tools/createimage.c) and the task loader (kernel/loader/loader.c). */
module Image {
  import opened Bytes

  const SECTOR_SIZE := 512
  const PAGE_SIZE := 4096
  const SECTORS_PER_PAGE := 8
  const APP_INFO_OFFSET := 0x1f0

  /** A program header: its type, the bytes of the file it covers, and p_memsz. */
  datatype Segment = Segment(load: bool, bytes: seq<Byte>, memsz: nat)

  datatype Program = Program(name: string, segments: seq<Segment>)

  datatype TaskInfo = TaskInfo(name: string, sectorsNum: nat, filesz: nat, memsz: nat)

  // ---------------------------------------------------------------- sizes

  /** NBYTES2SEC */
  function Sectors(nbytes: nat): nat {
    nbytes / SECTOR_SIZE + (if nbytes % SECTOR_SIZE != 0 then 1 else 0)
  }

  /** ROUND(n, SECTOR_SIZE) */
  function RoundUp(n: nat): nat {
    (n + SECTOR_SIZE - 1) / SECTOR_SIZE * SECTOR_SIZE
  }

  lemma RoundUpIs(n: nat)
    ensures RoundUp(n) == SECTOR_SIZE * Sectors(n) && n <= RoundUp(n) < n + SECTOR_SIZE
  {
  }

  function Zeros(n: nat): (z: seq<Byte>)
    ensures |z| == n
  {
    seq(n, _ => 0)
  }

  predicate Written(s: Segment) {
    s.memsz != 0 && s.load
  }

  /** The bytes of a program that reach the image. */
  function Payload(ss: seq<Segment>): seq<Byte> {
    if ss == [] then [] else (if Written(ss[0]) then ss[0].bytes else []) + Payload(ss[1..])
  }

  function FileSize(ss: seq<Segment>): nat {
    if ss == [] then 0 else |ss[0].bytes| + FileSize(ss[1..])
  }

  function MemSize(ss: seq<Segment>): nat {
    if ss == [] then 0 else ss[0].memsz + MemSize(ss[1..])
  }

  /** What is recorded of a file is the p_filesz and the p_memsz of every program header, each of them once. */
  lemma {:induction false} HeaderSizes(ss: seq<Segment>, i: nat)
    requires i < |ss|
    ensures FileSize(ss) == FileSize(ss[..i]) + |ss[i].bytes| + FileSize(ss[i + 1..])
    ensures MemSize(ss) == MemSize(ss[..i]) + ss[i].memsz + MemSize(ss[i + 1..])
    ensures FileSize([]) == MemSize([]) == 0
  {
    if i > 0 {
      HeaderSizes(ss[1..], i - 1);
      assert ss[..i][1..] == ss[1..][..i - 1];
    }
  }

  /** The file bytes of the loadable headers that occupy memory are written, in the order of the headers. */
  lemma {:induction false} HeaderBytes(ss: seq<Segment>, i: nat)
    requires i < |ss|
    ensures Payload(ss) == Payload(ss[..i]) + (if ss[i].load && ss[i].memsz > 0 then ss[i].bytes else []) + Payload(ss[i + 1..])
    ensures Payload([]) == []
  {
    if i > 0 {
      HeaderBytes(ss[1..], i - 1);
      assert ss[..i][1..] == ss[1..][..i - 1];
    } else {
      assert ss[..0] == [];
    }
  }

  /** All file bytes are in loadable segments, and no segment is larger in the file than in memory. */
  predicate Loadable(p: Program) {
    forall s | s in p.segments :: |s.bytes| <= s.memsz && (!Written(s) ==> s.bytes == [])
  }

  lemma {:induction false} LoadableSizes(ss: seq<Segment>)
    requires forall s | s in ss :: |s.bytes| <= s.memsz && (!Written(s) ==> s.bytes == [])
    ensures |Payload(ss)| == FileSize(ss) <= MemSize(ss)
  {
    if ss != [] {
      assert ss[0] in ss;
      LoadableSizes(ss[1..]);
    }
  }

  function Padded(p: Program): (s: seq<Byte>)
    ensures |s| == RoundUp(|Payload(p.segments)|)
  {
    var s := Payload(p.segments);
    RoundUpIs(|s|);
    s + Zeros(RoundUp(|s|) - |s|)
  }

  /** All programs, each padded to full sectors, one after the other. */
  function Layout(ps: seq<Program>): seq<Byte> {
    if ps == [] then [] else Padded(ps[0]) + Layout(ps[1..])
  }

  lemma {:induction false} LayoutAppend(ps: seq<Program>, p: Program)
    ensures Layout(ps + [p]) == Layout(ps) + Padded(p)
  {
    if ps == [] {
      assert Layout([p]) == Padded(p) + Layout([]);
    } else {
      assert (ps + [p])[1..] == ps[1..] + [p];
      LayoutAppend(ps[1..], p);
    }
  }

  /** The k-th program starts where the ones before it end. */
  lemma {:induction false} LayoutAt(ps: seq<Program>, k: nat)
    requires k < |ps|
    ensures var at := |Layout(ps[..k])|;
            at + |Padded(ps[k])| <= |Layout(ps)| && Layout(ps)[at..at + |Padded(ps[k])|] == Padded(ps[k])
    ensures |Layout(ps)| % SECTOR_SIZE == 0
    decreases |ps|
  {
    LayoutWhole(ps);
    hide RoundUp, Payload, Padded;
    if k > 0 {
      LayoutAt(ps[1..], k - 1);
      assert ps[..k][1..] == ps[1..][..k - 1];
    }
  }

  lemma {:induction false} LayoutWhole(ps: seq<Program>)
    ensures |Layout(ps)| % SECTOR_SIZE == 0
  {
    if ps != [] {
      LayoutWhole(ps[1..]);
      RoundUpIs(|Payload(ps[0].segments)|);
    }
  }

  // ---------------------------------------------------------------- the builder

  class Builder {
    var img: seq<Byte>
    var phyaddr: nat

    ghost predicate Valid()
      reads this
    {
      phyaddr == |img|
    }

    constructor ()
      ensures Valid() && img == []
    {
      img, phyaddr := [], 0;
    }

    /** write_segment */
    method WriteSegment(s: Segment)
      requires Valid()
      modifies this
      ensures Valid() && img == old(img) + (if Written(s) then s.bytes else [])
    {
      if s.memsz != 0 && s.load {
        var i := 0;
        while i < |s.bytes|
          invariant Valid() && i <= |s.bytes| && img == old(img) + s.bytes[..i]
        {
          img := img + [s.bytes[i]];
          phyaddr := phyaddr + 1;
          i := i + 1;
        }
      }
    }

    /** write_padding */
    method WritePadding(newPhyaddr: nat)
      requires Valid() && phyaddr <= newPhyaddr
      modifies this
      ensures Valid() && img == old(img) + Zeros(newPhyaddr - old(phyaddr))
    {
      while phyaddr < newPhyaddr
        invariant Valid() && old(phyaddr) <= phyaddr <= newPhyaddr && img == old(img) + Zeros(phyaddr - old(phyaddr))
      {
        img := img + [0];
        phyaddr := phyaddr + 1;
      }
    }

    /** The program header loop of create_image for one file. */
    method WriteProgram(p: Program) returns (filesz: nat, memsz: nat)
      requires Valid()
      modifies this
      ensures Valid() && img == old(img) + Payload(p.segments)
      ensures filesz == FileSize(p.segments) && memsz == MemSize(p.segments)
    {
      var i := 0;
      filesz, memsz := 0, 0;
      assert p.segments[0..] == p.segments;
      while i < |p.segments|
        invariant Valid() && i <= |p.segments| && img + Payload(p.segments[i..]) == old(img) + Payload(p.segments)
        invariant filesz + FileSize(p.segments[i..]) == FileSize(p.segments)
        invariant memsz + MemSize(p.segments[i..]) == MemSize(p.segments)
      {
        assert p.segments[i..][1..] == p.segments[i + 1..];
        WriteSegment(p.segments[i]);
        filesz := filesz + |p.segments[i].bytes|;
        memsz := memsz + p.segments[i].memsz;
        i := i + 1;
      }
    }

    /** create_image: the file loop, then the numbers in the boot sector. */
    method CreateImage(files: seq<Program>) returns (tasks: seq<TaskInfo>, kernelSectors: nat)
      requires Valid() && img == [] && WellNamed(files) && RoundUp(|Payload(files[0].segments)|) >= SECTOR_SIZE
      modifies this
      ensures |Layout(files)| >= SECTOR_SIZE && img == Stored(Layout(files), APP_INFO_OFFSET, AppInfo(files))
      ensures |img| == |Layout(files)| && kernelSectors == Sectors(FileSize(files[1].segments))
      ensures forall i | SECTOR_SIZE <= i < |img| :: img[i] == Layout(files)[i]
      ensures |tasks| == |files| - 2 && forall i | 2 <= i < |files| :: tasks[i - 2] == InfoOf(files[i])
    {
      hide RoundUp, Payload, FileSize, MemSize, Layout, Sectors;
      LayoutNone();
      var kernelFilesz := 0;
      tasks, kernelSectors := [], 0;
      var i := 0;
      while i < |files|
        invariant Valid() && i <= |files| && img == Layout(files[..i]) && |img| % SECTOR_SIZE == 0
        invariant kernelFilesz == if i < 2 then 0 else FileSize(files[1].segments)
        invariant i >= 2 ==> kernelSectors == Sectors(FileSize(files[1].segments))
        invariant |tasks| == (if i < 2 then 0 else i - 2) && forall j | 2 <= j < i :: tasks[j - 2] == InfoOf(files[j])
      {
        var p := files[i];
        assert files[..i + 1] == files[..i] + [p];
        LayoutAppend(files[..i], p);
        ghost var start := phyaddr;
        var filesz, memsz := WriteProgram(p);
        RoundAfter(start, |Payload(p.segments)|);
        ghost var layout := img + Zeros(RoundUp(phyaddr) - phyaddr);
        PaddedIs(files[..i], p, layout);
        if p.name == "bootblock" {
          WritePadding(RoundUp(phyaddr));
        } else if p.name == "main" {
          kernelFilesz := kernelFilesz + filesz;
          kernelSectors := Sectors(kernelFilesz);
          WritePadding(RoundUp(phyaddr));
        } else {
          WritePadding(RoundUp(phyaddr));
          tasks := tasks + [TaskInfo(p.name, Sectors(filesz), filesz, memsz)];
        }
        i := i + 1;
      }
      assert files[..i] == files;
      BootSector(files);
      var info := Le(kernelFilesz, 4) + Le(|files| - 2, 4) + Le(phyaddr / SECTOR_SIZE, 4) + Le(kernelSectors, 2) + [0x55, 0xaa];
      img := Stored(img, APP_INFO_OFFSET, info);
    }
  }

  lemma LayoutNone()
    ensures Layout([]) == []
  {
  }

  lemma PaddedIs(ps: seq<Program>, p: Program, layout: seq<Byte>)
    requires |Layout(ps)| % SECTOR_SIZE == 0
    requires var n := |Layout(ps)| + |Payload(p.segments)|;
             n <= RoundUp(n) && layout == Layout(ps) + Payload(p.segments) + Zeros(RoundUp(n) - n)
    ensures layout == Layout(ps) + Padded(p)
  {
    RoundAfter(|Layout(ps)|, |Payload(p.segments)|);
    hide RoundUp;
  }

  /** The numbers at the end of the boot sector: kernel size, tasks, sectors, kernel sectors and the signature. */
  function AppInfo(files: seq<Program>): (s: seq<Byte>)
    requires |files| >= 2
    ensures |s| == 16
  {
    Le(FileSize(files[1].segments), 4) + Le(|files| - 2, 4) + Le(|Layout(files)| / SECTOR_SIZE, 4)
    + Le(Sectors(FileSize(files[1].segments)), 2) + [0x55, 0xaa]
  }

  /** What init_task_info reads from the boot sector is what create_image put there. */
  lemma BootNumbers(files: seq<Program>, img: seq<Byte>)
    requires |files| >= 2 && |Layout(files)| >= SECTOR_SIZE && img == Stored(Layout(files), APP_INFO_OFFSET, AppInfo(files))
    requires FileSize(files[1].segments) < 0x100000000 && |files| - 2 < 0x100000000 && |Layout(files)| / SECTOR_SIZE < 0x100000000
    requires Sectors(FileSize(files[1].segments)) < 0x10000
    ensures Decode(img[APP_INFO_OFFSET..APP_INFO_OFFSET + 4]) == FileSize(files[1].segments)
    ensures Decode(img[APP_INFO_OFFSET + 4..APP_INFO_OFFSET + 8]) == |files| - 2
    ensures Decode(img[APP_INFO_OFFSET + 8..APP_INFO_OFFSET + 12]) == |Layout(files)| / SECTOR_SIZE
    ensures Decode(img[APP_INFO_OFFSET + 12..APP_INFO_OFFSET + 14]) == Sectors(FileSize(files[1].segments))
    ensures img[510] == 0x55 && img[511] == 0xaa
  {
    var at, info := APP_INFO_OFFSET, AppInfo(files);
    StoredHere(Layout(files), at, info);
    PowerFour();
    DecodeLe(FileSize(files[1].segments), 4);
    DecodeLe(|files| - 2, 4);
    DecodeLe(|Layout(files)| / SECTOR_SIZE, 4);
    DecodeLe(Sectors(FileSize(files[1].segments)), 2);
    hide Decode, Le, Layout, FileSize, Sectors, Stored;
    assert img[at..at + 4] == info[..4] && img[at + 4..at + 8] == info[4..8] && img[at + 8..at + 12] == info[8..12] by {
      assert img[at..at + 16][..4] == img[at..at + 4];
      assert img[at..at + 16][4..8] == img[at + 4..at + 8];
      assert img[at..at + 16][8..12] == img[at + 8..at + 12];
    }
    assert img[at + 12..at + 14] == info[12..14] by {
      assert img[at..at + 16][12..14] == img[at + 12..at + 14];
    }
    assert info[12..14] == Le(Sectors(FileSize(files[1].segments)), 2);
    assert img[510] == img[at..at + 16][14] && img[511] == img[at..at + 16][15];
    assert info[..4] == Le(FileSize(files[1].segments), 4) && info[4..8] == Le(|files| - 2, 4);
    assert info[8..12] == Le(|Layout(files)| / SECTOR_SIZE, 4);
  }

  /** The command line: bootblock, main, then the tasks, whose names are different from those two. */
  predicate WellNamed(files: seq<Program>) {
    && |files| >= 2 && files[0].name == "bootblock" && files[1].name == "main"
    && forall i | 2 <= i < |files| :: files[i].name != "bootblock" && files[i].name != "main"
  }

  function InfoOf(p: Program): TaskInfo {
    TaskInfo(p.name, Sectors(FileSize(p.segments)), FileSize(p.segments), MemSize(p.segments))
  }

  /** Padding from a sector boundary. */
  lemma RoundAfter(start: nat, n: nat)
    requires start % SECTOR_SIZE == 0
    ensures RoundUp(start + n) == start + RoundUp(n) && start + n <= RoundUp(start + n) && RoundUp(start + n) % SECTOR_SIZE == 0
  {
  }

  lemma BootSector(files: seq<Program>)
    requires |files| >= 2 && RoundUp(|Payload(files[0].segments)|) >= SECTOR_SIZE
    ensures |Layout(files)| >= SECTOR_SIZE
  {
  }

  // ---------------------------------------------------------------- the loader

  /** The number of sectors before the k-th task, as the loop of load_task_img adds them up. */
  function SectorsBefore(tasks: seq<TaskInfo>, k: nat): nat
    requires k <= |tasks|
  {
    if k == 0 then 0 else SectorsBefore(tasks, k - 1) + tasks[k - 1].sectorsNum
  }

  /** What the user memory from USER_VA_START on should hold: the bytes of the file, then zeros to the end of the last page. */
  ghost predicate IsLoaded(mem: seq<Byte>, payload: seq<Byte>, memsz: nat) {
    && |mem| % PAGE_SIZE == 0 && memsz <= |mem| < memsz + PAGE_SIZE
    && forall i | 0 <= i < |mem| :: mem[i] == ByteOf(payload, i)
  }

  /** The sectors from block on hold the payload and its padding. */
  ghost predicate OnDisk(disk: seq<Byte>, block: nat, payload: seq<Byte>) {
    var at, n := SECTOR_SIZE * block, RoundUp(|payload|);
    && at + n <= |disk|
    && forall i | 0 <= i < n :: disk[at + i] == ByteOf(payload, i)
  }

  /** A byte of the payload, zero behind it. */
  function ByteOf(payload: seq<Byte>, i: nat): Byte {
    if i < |payload| then payload[i] else 0
  }

  /** load_task_img; junk is what a frame holds before it is filled. */
  method LoadTaskImg(disk: seq<Byte>, kernelSectors: nat, tasks: seq<TaskInfo>, name: string, junk: nat -> seq<Byte>,
                     ghost k: nat, ghost payload: seq<Byte>) returns (found: bool, mem: seq<Byte>)
    requires forall sz :: |junk(sz)| == PAGE_SIZE
    requires k <= |tasks| && (forall i | 0 <= i < k :: tasks[i].name != name) && (k < |tasks| ==> tasks[k].name == name)
    requires k < |tasks| ==> |payload| <= tasks[k].filesz && Sectors(tasks[k].filesz) == Sectors(|payload|)
                             && OnDisk(disk, kernelSectors + 1 + SectorsBefore(tasks, k), payload)
    ensures found <==> k < |tasks|
    ensures found ==> IsLoaded(mem, payload, tasks[k].memsz)
  {
    hide RoundUp, Sectors, ByteOf, OnDisk, Carries;
    mem := [];
    var block := kernelSectors + 1;
    var idx := 0;
    while idx < |tasks| && tasks[idx].name != name
      invariant idx <= k && block == kernelSectors + 1 + SectorsBefore(tasks, idx)
    {
      block := block + tasks[idx].sectorsNum;
      idx := idx + 1;
    }
    if idx == |tasks| {
      return false, mem;
    }
    found := true;
    var memsz, filesz := tasks[idx].memsz, tasks[idx].filesz;
    ghost var block0 := block;
    DiskHolds(disk, block, payload);
    RoundUpIs(filesz);
    RoundUpIs(|payload|);
    NothingCarried(payload, 0);
    assert Aligned(0);
    hide Aligned, BssFrom;
    var sz := 0;
    while sz < memsz
      invariant sz == |mem| && Aligned(sz) && sz < memsz + PAGE_SIZE
      invariant sz < filesz ==> SECTOR_SIZE * block == SECTOR_SIZE * block0 + sz
      invariant Carries(mem, payload, 0)
      decreases memsz + PAGE_SIZE - sz
    {
      var page := junk(sz);
      ghost var got := 0;
      NothingCarried(payload, sz);
      assert page[..0] == [];
      if sz < filesz {
        var left := filesz - sz;
        var n := if Sectors(left) > SECTORS_PER_PAGE then SECTORS_PER_PAGE else Sectors(left);
        ReadFits(sz, filesz, n);
        var from := SECTOR_SIZE * block;
        page := disk[from..from + SECTOR_SIZE * n] + page[SECTOR_SIZE * n..];
        FromDisk(disk, block0, payload, sz, page, n);
        block := block + n;
        got := SECTOR_SIZE * n;
      }
      if sz + PAGE_SIZE > filesz {
        var bss := BssFrom(sz, filesz);
        BssStart(sz, filesz);
        Zeroed(page, bss, payload, sz, got);
        page := page[..bss] + Zeros(PAGE_SIZE - bss);
      }
      CarriesMore(mem, page, payload);
      NextPage(sz);
      mem := mem + page;
      sz := sz + PAGE_SIZE;
    }
    CarriesAll(mem, payload);
  }

  /** The bytes are those of the padded payload from at on. */
  ghost predicate Carries(bytes: seq<Byte>, payload: seq<Byte>, at: nat) {
    forall i | 0 <= i < |bytes| :: bytes[i] == ByteOf(payload, at + i)
  }

  lemma NothingCarried(payload: seq<Byte>, at: nat)
    ensures Carries([], payload, at)
  {
  }

  lemma CarriesMore(mem: seq<Byte>, page: seq<Byte>, payload: seq<Byte>)
    requires Carries(mem, payload, 0) && Carries(page, payload, |mem|)
    ensures Carries(mem + page, payload, 0)
  {
  }

  lemma CarriesAll(mem: seq<Byte>, payload: seq<Byte>)
    requires Carries(mem, payload, 0) && Aligned(|mem|)
    ensures |mem| % PAGE_SIZE == 0 && forall i | 0 <= i < |mem| :: mem[i] == ByteOf(payload, i)
  {
  }

  lemma DiskHolds(disk: seq<Byte>, block: nat, payload: seq<Byte>)
    requires OnDisk(disk, block, payload)
    ensures SECTOR_SIZE * block + RoundUp(|payload|) <= |disk|
  {
  }

  /** A page read up to got bytes, and zeroed from where the file ends. */
  lemma Zeroed(page: seq<Byte>, bss: nat, payload: seq<Byte>, sz: nat, got: nat)
    requires |page| == PAGE_SIZE && bss <= got <= PAGE_SIZE && |payload| <= sz + bss
    requires Carries(page[..got], payload, sz)
    ensures Carries(page[..bss] + Zeros(PAGE_SIZE - bss), payload, sz)
  {
  }

  /** Where load_task_img starts to zero the page at sz. */
  function BssFrom(sz: nat, filesz: nat): nat {
    if filesz / PAGE_SIZE * PAGE_SIZE == sz then filesz % PAGE_SIZE else 0
  }

  predicate Aligned(sz: nat) {
    sz % PAGE_SIZE == 0
  }

  lemma NextPage(sz: nat)
    requires Aligned(sz)
    ensures Aligned(sz + PAGE_SIZE)
  {
  }

  /** The zeroed tail starts where the file ends, or with the page. */
  lemma BssStart(sz: nat, filesz: nat)
    requires Aligned(sz) && sz + PAGE_SIZE > filesz
    ensures BssFrom(sz, filesz) == if sz <= filesz then filesz - sz else 0
  {
  }

  /** How many sectors one page takes from what is left. */
  lemma ReadFits(sz: nat, filesz: nat, n: nat)
    requires sz < filesz && Aligned(sz)
    requires n == if Sectors(filesz - sz) > SECTORS_PER_PAGE then SECTORS_PER_PAGE else Sectors(filesz - sz)
    ensures SECTOR_SIZE * n <= PAGE_SIZE && sz + SECTOR_SIZE * n <= RoundUp(filesz)
    ensures sz + PAGE_SIZE < filesz ==> n == SECTORS_PER_PAGE
    ensures SECTOR_SIZE * n >= (if filesz - sz < PAGE_SIZE then filesz - sz else PAGE_SIZE)
  {
    var left := filesz - sz;
    assert sz % SECTOR_SIZE == 0;
    RoundAfter(sz, left);
    RoundUpIs(left);
    hide Sectors, RoundUp;
  }

  lemma FromDisk(disk: seq<Byte>, block0: nat, payload: seq<Byte>, sz: nat, page: seq<Byte>, n: nat)
    requires OnDisk(disk, block0, payload) && |page| == PAGE_SIZE && SECTOR_SIZE * n <= PAGE_SIZE
    requires sz + SECTOR_SIZE * n <= RoundUp(|payload|)
    requires var from := SECTOR_SIZE * block0 + sz; page[..SECTOR_SIZE * n] == disk[from..from + SECTOR_SIZE * n]
    ensures Carries(page[..SECTOR_SIZE * n], payload, sz)
    ensures SECTOR_SIZE * n == PAGE_SIZE ==> Carries(page, payload, sz)
  {
    assert |page| == PAGE_SIZE ==> page[..PAGE_SIZE] == page;
    var from := SECTOR_SIZE * block0 + sz;
    hide RoundUp, ByteOf;
    forall i | 0 <= i < SECTOR_SIZE * n
      ensures page[i] == ByteOf(payload, sz + i)
    {
      assert page[i] == page[..SECTOR_SIZE * n][i] == disk[from..from + SECTOR_SIZE * n][i];
      assert disk[SECTOR_SIZE * block0 + (sz + i)] == ByteOf(payload, sz + i);
    }
  }

  // ---------------------------------------------------------------- the round trip

  /** The sizes that create_image records, and that the loader counts with, are those of what it wrote. */
  predicate Honest(p: Program) {
    Sectors(FileSize(p.segments)) == Sectors(|Payload(p.segments)|)
  }

  lemma HasRoom(ss: seq<Segment>)
    ensures forall s | s in ss :: s.memsz <= MemSize(ss)
  {
    hide MemSize;
    forall i | 0 <= i < |ss|
      ensures ss[i].memsz <= MemSize(ss)
    {
      HeaderSizes(ss, i);
    }
  }

  lemma {:induction false} FileSizeBound(ss: seq<Segment>)
    ensures |Payload(ss)| <= FileSize(ss)
  {
    if ss != [] {
      FileSizeBound(ss[1..]);
    }
  }

  lemma SectorsMono(a: nat, b: nat)
    requires a <= b
    ensures Sectors(a) <= Sectors(b)
  {
  }

  /** The sector at which load_task_img looks for the k-th task. */
  function LoaderBlock(files: seq<Program>, k: nat): nat
    requires k + 2 <= |files|
  {
    if k == 0 then Sectors(FileSize(files[1].segments)) + 1
    else LoaderBlock(files, k - 1) + Sectors(FileSize(files[k + 1].segments))
  }

  lemma {:induction false} LoaderBlockIs(files: seq<Program>, tasks: seq<TaskInfo>, k: nat)
    requires k + 2 <= |files| && |tasks| == |files| - 2 && forall i | 2 <= i < |files| :: tasks[i - 2] == InfoOf(files[i])
    ensures LoaderBlock(files, k) == Sectors(FileSize(files[1].segments)) + 1 + SectorsBefore(tasks, k)
  {
    if k > 0 {
      LoaderBlockIs(files, tasks, k - 1);
    }
  }

  /**
   The loader looks for the k-th task where the builder put it exactly when the kernel and all tasks
   before it have no file bytes outside loadable segments that would make up a sector.
   */
  lemma {:induction false} LoaderFinds(files: seq<Program>, k: nat)
    requires k + 2 <= |files| && RoundUp(|Payload(files[0].segments)|) == SECTOR_SIZE
    ensures SECTOR_SIZE * LoaderBlock(files, k) >= |Layout(files[..k + 2])|
    ensures SECTOR_SIZE * LoaderBlock(files, k) == |Layout(files[..k + 2])| <==> forall i | 1 <= i < k + 2 :: Honest(files[i])
  {
    hide RoundUp, Sectors, Payload, FileSize, Layout, Padded, Honest;
    LayoutStep(files, k);
    if k == 0 {
      LayoutOne(files[..1]);
    } else {
      LoaderFinds(files, k - 1);
    }
  }

  /** One program more: what the image grows by, and what the loader counts for it. */
  lemma LayoutStep(files: seq<Program>, k: nat)
    requires k + 2 <= |files|
    ensures var wrote, counted := |Layout(files[..k + 2])| - |Layout(files[..k + 1])|, Sectors(FileSize(files[k + 1].segments));
            SECTOR_SIZE * counted >= wrote && (SECTOR_SIZE * counted == wrote <==> Honest(files[k + 1]))
  {
    var p := files[k + 1];
    FileSizeBound(p.segments);
    SectorsMono(|Payload(p.segments)|, FileSize(p.segments));
    RoundUpIs(|Payload(p.segments)|);
    assert files[..k + 2] == files[..k + 1] + [p];
    LayoutAppend(files[..k + 1], p);
    hide RoundUp, Sectors, Payload, FileSize, Layout;
  }

  lemma LayoutOne(ps: seq<Program>)
    requires |ps| == 1
    ensures Layout(ps) == Padded(ps[0])
  {
    assert Layout(ps[1..]) == [];
  }

  lemma LoadableHonest(p: Program)
    requires Loadable(p)
    ensures Honest(p) && |Payload(p.segments)| == FileSize(p.segments) <= MemSize(p.segments)
  {
    LoadableSizes(p.segments);
  }

  /** What was built is found on the disk where the loader looks. */
  lemma BuiltOnDisk(files: seq<Program>, img: seq<Byte>, k: nat)
    requires k + 2 < |files| && RoundUp(|Payload(files[0].segments)|) == SECTOR_SIZE
    requires forall i | 1 <= i < k + 2 :: Honest(files[i])
    requires |img| == |Layout(files)| && forall i | SECTOR_SIZE <= i < |img| :: img[i] == Layout(files)[i]
    ensures OnDisk(img, LoaderBlock(files, k), Payload(files[k + 2].segments))
  {
    LoaderFinds(files, k);
    LayoutAt(files, k + 2);
    var p, at := files[k + 2], SECTOR_SIZE * LoaderBlock(files, k);
    LoaderBlockPositive(files, k);
    PaddedBytes(p);
    hide RoundUp, Sectors, Payload, Layout, LoaderBlock, Honest, Padded, ByteOf;
    SameWindow(Layout(files), img, at, Padded(p));
  }

  lemma PaddedBytes(p: Program)
    ensures forall i | 0 <= i < |Padded(p)| :: Padded(p)[i] == ByteOf(Payload(p.segments), i)
  {
    RoundUpIs(|Payload(p.segments)|);
  }

  /** Outside the boot sector the image is the layout. */
  lemma SameWindow(layout: seq<Byte>, img: seq<Byte>, at: nat, window: seq<Byte>)
    requires |img| == |layout| && (forall i | SECTOR_SIZE <= i < |img| :: img[i] == layout[i])
    requires SECTOR_SIZE <= at && at + |window| <= |layout| && layout[at..at + |window|] == window
    ensures forall i | 0 <= i < |window| :: img[at + i] == window[i]
  {
    forall i | 0 <= i < |window|
      ensures img[at + i] == window[i]
    {
      assert layout[at + i] == layout[at..at + |window|][i];
    }
  }

  lemma {:induction false} LoaderBlockPositive(files: seq<Program>, k: nat)
    requires k + 2 <= |files|
    ensures LoaderBlock(files, k) >= 1
  {
    if k > 0 {
      LoaderBlockPositive(files, k - 1);
    }
  }

  /**
   Image round trip: loading the k-th task, the first of its name, fills the user memory with exactly its
   loadable bytes and zeros, whenever the sizes recorded for the kernel, the tasks before it and itself
   take as many sectors as what was written.
   */
  method BuildThenLoad(files: seq<Program>, name: string, junk: nat -> seq<Byte>, ghost k: nat)
      returns (found: bool, mem: seq<Byte>)
    requires WellNamed(files) && RoundUp(|Payload(files[0].segments)|) == SECTOR_SIZE
    requires forall i | 1 <= i < |files| && i <= k + 2 :: Honest(files[i])
    requires forall sz :: |junk(sz)| == PAGE_SIZE
    requires k + 2 <= |files| && (forall i | 2 <= i < k + 2 :: files[i].name != name)
    requires k + 2 < |files| ==> files[k + 2].name == name
    ensures found <==> k + 2 < |files|
    ensures found ==> IsLoaded(mem, Payload(files[k + 2].segments), MemSize(files[k + 2].segments))
    ensures found ==> forall s | s in files[k + 2].segments :: s.memsz <= |mem|
  {
    hide RoundUp, Sectors, Payload, Layout, FileSize, MemSize, OnDisk;
    var b := new Builder();
    var tasks, kernelSectors := b.CreateImage(files);
    assert forall i | 0 <= i < |tasks| :: tasks[i] == InfoOf(files[i + 2]);
    LoaderBlockIs(files, tasks, k);
    if k < |tasks| {
      BuiltOnDisk(files, b.img, k);
      FileSizeBound(files[k + 2].segments);
      assert Honest(files[k + 2]);
      HasRoom(files[k + 2].segments);
    }
    found, mem := LoadTaskImg(b.img, kernelSectors, tasks, name, junk, k,
      if k < |tasks| then Payload(files[k + 2].segments) else []);
  }

  /** The round trip for programs whose file bytes are all in loadable segments: the whole program is in memory. */
  method BuildThenLoadable(files: seq<Program>, name: string, junk: nat -> seq<Byte>, ghost k: nat)
      returns (found: bool, mem: seq<Byte>)
    requires WellNamed(files) && RoundUp(|Payload(files[0].segments)|) == SECTOR_SIZE
    requires forall i | 1 <= i < |files| :: Loadable(files[i])
    requires forall sz :: |junk(sz)| == PAGE_SIZE
    requires k + 2 <= |files| && (forall i | 2 <= i < k + 2 :: files[i].name != name)
    requires k + 2 < |files| ==> files[k + 2].name == name
    ensures found <==> k + 2 < |files|
    ensures found ==> IsLoaded(mem, Payload(files[k + 2].segments), MemSize(files[k + 2].segments))
    ensures found ==> |Payload(files[k + 2].segments)| == FileSize(files[k + 2].segments) <= |mem|
  {
    hide RoundUp, Sectors, Payload, FileSize, MemSize, Loadable, Honest;
    forall i | 1 <= i < |files|
      ensures Honest(files[i]) && |Payload(files[i].segments)| == FileSize(files[i].segments) <= MemSize(files[i].segments)
    {
      LoadableHonest(files[i]);
    }
    found, mem := BuildThenLoad(files, name, junk, k);
  }

  /** A program with 513 bytes in a segment that is not loaded. */
  function Stowaway(): Program {
    Program("stowaway", [Segment(false, Zeros(513), 513)])
  }

  /** Behind such a program the loader looks two sectors too far. */
  lemma LoaderMisses(boot: Program, kernel: Program, task: Program)
    requires RoundUp(|Payload(boot.segments)|) == SECTOR_SIZE && Honest(kernel)
    ensures var files := [boot, kernel, Stowaway(), task];
            && SECTOR_SIZE * LoaderBlock(files, 1) == |Layout(files[..3])| + 2 * SECTOR_SIZE
            && !Honest(Stowaway())
  {
    var files, p := [boot, kernel, Stowaway(), task], Stowaway();
    assert p.segments[1..] == [];
    assert FileSize(p.segments) == 513 && Payload(p.segments) == [];
    LoaderFinds(files, 0);
    assert files[..3] == files[..2] + [p];
    LayoutAppend(files[..2], p);
    assert |Padded(p)| == 0 && Sectors(513) == 2;
    hide Layout, RoundUp, Sectors, Payload, FileSize, Padded;
    assert forall i | 1 <= i < 2 :: files[i] == kernel;
    assert LoaderBlock(files, 1) == LoaderBlock(files, 0) + 2;
  }
}
