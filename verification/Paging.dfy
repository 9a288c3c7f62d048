/** Demand paging with swap: kernel/mm/mm.c and the page-fault handler of kernel/irq/irq.c. */
module Paging {
  import opened Seqs
  import opened Arithmetic
  import opened PageTable
  import opened FrameAllocator
  import opened SwapBooks
  import opened Sv39

  /** What a leaf PTE word says about the page k, against the finite map it implements. */
  ghost predicate EntryMeans(e: nat, leaf: Mappings, k: Key) {
    if k !in leaf then e == 0 else
    e != 0 && UserLeaf(e) && match leaf[k]
              case InMemory(kva) => Present(e) && PteKva(e) == kva
              case OnDisk => !Present(e)
  }

  lemma ZeroEntry(e: nat, leaf: Mappings, k: Key)
    requires EntryMeans(e, leaf, k)
    ensures e == 0 <==> k !in leaf
  {
  }

  /** The three-level walk computes the finite map leaf, for every page of every root. */
  ghost predicate Refines(mem: Memory, tables: Tables, leaf: Mappings) {
    && (forall k | k in leaf :: IsRoot(tables, k.0) && UserPage(k.1))
    && (forall r: nat, u: nat | IsRoot(tables, r) && UserPage(u) :: EntryMeans(Entry(mem, r, u), leaf, (r, u)))
  }

  lemma RefinesSame(mem: Memory, mem': Memory, tables: Tables, tables': Tables, leaf: Mappings)
    requires Refines(mem, tables, leaf)
    requires forall r | r in tables || r in tables' :: IsRoot(tables', r) <==> IsRoot(tables, r)
    requires SameEntries(mem, mem', tables')
    ensures Refines(mem', tables', leaf)
  {
    forall r: nat, u: nat | IsRoot(tables', r) && UserPage(u)
      ensures EntryMeans(Entry(mem', r, u), leaf, (r, u))
    {
      assert IsRoot(tables, r) && EntryMeans(Entry(mem, r, u), leaf, (r, u));
      assert Entry(mem', r, u) == Entry(mem, r, u);
    }
  }

  lemma RefinesStore(mem: Memory, mem': Memory, tables: Tables, leaf: Mappings, k: Key, pte: nat, m: Mapping)
    requires Refines(mem, tables, leaf) && IsRoot(tables, k.0) && UserPage(k.1)
    requires forall r: nat, u: nat | IsRoot(tables, r) && UserPage(u) ::
               Entry(mem', r, u) == if (r, u) == k then pte else Entry(mem, r, u)
    requires EntryMeans(pte, leaf[k := m], k)
    ensures Refines(mem', tables, leaf[k := m])
  {
    forall r: nat, u: nat | IsRoot(tables, r) && UserPage(u)
      ensures EntryMeans(Entry(mem', r, u), leaf[k := m], (r, u))
    {
      assert EntryMeans(Entry(mem, r, u), leaf, (r, u));
    }
  }

  lemma LeafRights(kva: nat)
    requires KERNEL_VM_OFFSET <= kva
    ensures UserRights(MakePte(kva, PAGE_PRESENT + PAGE_RWXU)) && Present(MakePte(kva, PAGE_PRESENT + PAGE_RWXU))
  {
    var pfn := (kva - KERNEL_VM_OFFSET) / PAGE_SIZE;
    DivUnique(1024 * pfn + 31, 2, 512 * pfn + 15, 1);
    DivUnique(512 * pfn + 15, 32, 16 * pfn, 15);
  }

  lemma MappedPte(kva: nat, leaf: Mappings, k: Key)
    requires IsPage(kva)
    ensures EntryMeans(MakePte(kva, PAGE_PRESENT + PAGE_RWXU), leaf[k := InMemory(kva)], k)
  {
    hide MakePte, UserRights, PteKva, HasBit;
    LeafRights(kva);
    PteRoundTrip(kva, PAGE_PRESENT + PAGE_RWXU);
  }

  lemma UnmappedPte(e: nat, leaf: Mappings, k: Key)
    requires EntryMeans(e, leaf, k) && k in leaf && leaf[k].InMemory? && IsPage(leaf[k].kva)
    ensures EntryMeans(UnsetBit(e, PAGE_PRESENT), leaf[k := OnDisk], k)
  {
    UnsetPresent(e);
  }

  /** Freeing a frame that is not a table overwrites its first word only: no translation changes. */
  lemma FreedFrame(mem: Memory, mem': Memory, tables: Tables, leaf: Mappings, page: nat, word: nat)
    requires TablesOk(mem, tables) && Refines(mem, tables, leaf)
    requires page !in tables && page in mem && |mem[page]| == WORDS_PER_PAGE
    requires mem' == Put(mem, page, 0, word)
    ensures TablesOk(mem', tables) && Refines(mem', tables, leaf)
  {
    TablesFrame(mem, mem', tables);
    RefinesSame(mem, mem', tables, tables, leaf);
  }

  lemma MappedHasTables(mem: Memory, tables: Tables, leaf: Mappings, k: Key)
    requires TablesOk(mem, tables) && Refines(mem, tables, leaf) && k in leaf
    ensures IsRoot(tables, k.0) && UserPage(k.1) && TablesMissing(mem, k.0, k.1) == 0
  {
    assert EntryMeans(Entry(mem, k.0, k.1), leaf, (k.0, k.1));
  }

  lemma TouchedPte(e: nat, leaf: Mappings, k: Key)
    requires EntryMeans(e, leaf, k) && k in leaf && leaf[k].InMemory?
    ensures EntryMeans(SetBit(e, PAGE_ACCESSED), leaf[k := leaf[k]], k)
    ensures EntryMeans(SetBit(SetBit(e, PAGE_ACCESSED), PAGE_DIRTY), leaf[k := leaf[k]], k)
  {
    SetAccessed(e);
    SetDirty(SetBit(e, PAGE_ACCESSED));
  }

  /** The handler has marked the PTE as accessed, and after a store as dirty. */
  predicate Marked(pte: nat, isStore: bool) {
    pte / 64 % 2 == 1 && (isStore ==> pte / 128 % 2 == 1)
  }

  lemma StoredEntry(mem: Memory, tables: Tables, root: nat, uva: nat, pte: nat)
    requires TablesOk(mem, tables) && IsRoot(tables, root) && UserAddress(uva) && TablesMissing(mem, root, uva) == 0
    ensures LeafOf(mem, root, uva) in mem && Vpn0(uva) < |mem[LeafOf(mem, root, uva)]|
    ensures Entry(Put(mem, LeafOf(mem, root, uva), Vpn0(uva), pte), root, uva) == pte
  {
    StoreLeaf(mem, tables, root, uva, pte);
  }

  lemma SlotIsMapped(leaf: Mappings, data: set<nat>, b: Books, slot: map<Key, nat>, k: Key)
    requires BooksOk(leaf, data, b, slot, {})
    ensures k in slot <==> k in leaf
  {
    if k in slot {
      var d := slot[k];
      assert DescriptorOk(b, slot, d) && KeyOf(b.pages[d]) == k;
      if d in b.present {
        PresentPage(leaf, data, b, slot, {}, d);
      } else {
        SwappedPage(leaf, data, b, slot, {}, d);
      }
    }
  }

  lemma NewRootRefines(mem: Memory, tables: Tables, leaf: Mappings, c: nat)
    requires Refines(mem, tables, leaf) && c !in tables
    requires forall u: nat | UserAddress(u) :: Entry(mem, c, u) == 0
    ensures Refines(mem, tables[c := Root], leaf)
  {
    forall r: nat, u: nat | IsRoot(tables[c := Root], r) && UserPage(u)
      ensures EntryMeans(Entry(mem, r, u), leaf, (r, u))
    {
      if r != c {
        assert IsRoot(tables, r) && EntryMeans(Entry(mem, r, u), leaf, (r, u));
      } else {
        assert (r, u) !in leaf;
      }
    }
  }

  lemma PresentMeans(e: nat, leaf: Mappings, k: Key, mapped: bool)
    requires mapped <==> k in leaf
    requires mapped ==> EntryMeans(e, leaf, k)
    ensures mapped ==> (Present(e) <==> leaf[k].InMemory?)
    ensures mapped && Present(e) ==> leaf[k] == InMemory(PteKva(e))
  {
  }

  /**
   What the hardware makes of the page tables: it reaches the frame of every page in memory, for every
   kind of access, and traps everywhere else.
   */
  lemma HardwareSees(mem: Memory, tables: Tables, leaf: Mappings, root: nat, va: nat, access: Access)
    requires TablesOk(mem, tables) && Refines(mem, tables, leaf) && IsRoot(tables, root) && UserAddress(va)
    ensures var k := (root, PageOf(va));
            if k in leaf && leaf[k].InMemory?
            then leaf[k].kva >= KERNEL_VM_OFFSET
                 && Translate(mem, root, va, access) == Mapped(leaf[k].kva - KERNEL_VM_OFFSET + va % PAGE_SIZE)
            else Translate(mem, root, va, access) == Fault
  {
    hide TablesOk, Translate, UserLeaf, GetPa;
    EntryOfPage(mem, root, va);
    HardwareWalk(mem, tables, root, va, access);
    var e := Entry(mem, root, va);
    assert EntryMeans(e, leaf, (root, PageOf(va)));
  }

  /** How many descriptors of the queue belong to the page directory. */
  function CountOf(pages: seq<PageInfo>, queue: seq<nat>, pgdir: nat): nat {
    if queue == [] then 0 else
    (if queue[0] < |pages| && pages[queue[0]].pgdir == pgdir then 1 else 0) + CountOf(pages, queue[1..], pgdir)
  }

  lemma CountNext(pages: seq<PageInfo>, queue: seq<nat>, i: nat, pgdir: nat)
    requires i < |queue| && queue[i] < |pages|
    ensures CountOf(pages, queue[i..], pgdir)
            == (if pages[queue[i]].pgdir == pgdir then 1 else 0) + CountOf(pages, queue[i + 1..], pgdir)
  {
    assert queue[i..][0] == queue[i] && queue[i..][1..] == queue[i + 1..];
  }

  lemma {:induction false} SameCount(pages: seq<PageInfo>, pages': seq<PageInfo>, queue: seq<nat>, pgdir: nat)
    requires |pages'| == |pages| && forall d | 0 <= d < |pages| :: pages'[d].pgdir == pages[d].pgdir
    ensures CountOf(pages', queue, pgdir) == CountOf(pages, queue, pgdir)
  {
    if queue != [] {
      SameCount(pages, pages', queue[1..], pgdir);
    }
  }

  function WordIndex(va: nat): (i: nat)
    ensures i < WORDS_PER_PAGE
  {
    va % PAGE_SIZE / 8
  }

  /** A page that nobody mentioned before reads as zeros. */
  function Touched(contents: map<Key, seq<nat>>, k: Key): map<Key, seq<nat>> {
    if k in contents then contents else contents[k := ZeroPage()]
  }

  function StoreWord(contents: map<Key, seq<nat>>, k: Key, i: nat, word: nat): map<Key, seq<nat>> {
    var page := Touched(contents, k)[k];
    if i >= |page| then contents else
    var words: seq<nat> := page[i := word];
    contents[k := words]
  }

  /** Touching the page first makes no difference to a store. */
  lemma TouchThenStore(contents: map<Key, seq<nat>>, k: Key, i: nat, word: nat)
    requires i < WORDS_PER_PAGE
    ensures StoreWord(Touched(contents, k), k, i, word) == StoreWord(contents, k, i, word)
  {
  }

  lemma SameData(mem: Memory, mem': Memory, data: set<nat>, kva: nat)
    requires forall a | a in data && a != kva :: a in mem && a in mem' && mem'[a] == mem[a]
    ensures forall a | a in data && a != kva :: PageAt(mem', a) == PageAt(mem, a)
  {
  }

  lemma StoreBooks(mem: Memory, mem': Memory, leaf: Mappings, data: set<nat>,
                   b: Books, slot: map<Key, nat>, k: Key, i: nat, word: nat)
    requires BooksOk(leaf, data, b, slot, {}) && k in leaf && leaf[k].InMemory?
    requires leaf[k].kva in mem && |mem[leaf[k].kva]| == WORDS_PER_PAGE && i < WORDS_PER_PAGE
    requires mem' == Put(mem, leaf[k].kva, i, word)
    ensures View(mem', b, slot) == StoreWord(View(mem, b, slot), k, i, word)
  {
    MappedPage(leaf, data, b, slot, k);
    forall x | x in slot && x != k
      ensures Content(mem', b, slot[x]) == Content(mem, b, slot[x])
    {
      assert DescriptorOk(b, slot, slot[x]) && KeyOf(b.pages[slot[x]]) == x;
      assert slot[x] != slot[k];
    }
  }

  lemma GrowRefines(mem0: Memory, mem1: Memory, tables: Tables, leaf: Mappings, t: nat, i: nat, c: nat)
    requires TablesOk(mem0, tables) && Refines(mem0, tables, leaf)
    requires forall x | x in tables :: x in mem1 && mem1[x] == mem0[x]
    requires t in tables && !tables[t].Leaf?
    requires i < WORDS_PER_PAGE && (tables[t] == Root ==> i < 256) && mem0[t][i] == 0
    requires IsPage(c) && c !in tables && c in mem1 && mem1[c] == ZeroPage()
    ensures var mem' := Put(mem1, t, i, MakePte(c, PAGE_PRESENT));
            var tables' := tables[c := ChildRole(tables, t, i)];
            TablesOk(mem', tables') && Refines(mem', tables', leaf)
  {
    TablesFrame(mem0, mem1, tables);
    LinkTable(mem1, tables, t, i, c);
    var mem' := Put(mem1, t, i, MakePte(c, PAGE_PRESENT));
    var tables' := tables[c := ChildRole(tables, t, i)];
    RefinesSame(mem0, mem1, tables, tables, leaf);
    RefinesSame(mem1, mem', tables, tables', leaf);
  }

  class VirtualMemory {
    const frames: Frames
    /** MAX_PFN descriptors, of which MAX_PRESENT_PFN may be in memory. */
    const maxPages: nat
    const maxPresent: nat

    var pages: seq<PageInfo>
    var present: seq<nat>
    var swapped: seq<nat>
    var presentPagesNum: int
    var pageId: nat
    var disk: Disk
    var diskSectorsStartId: nat

    ghost var tables: Tables
    ghost var leaf: Mappings
    ghost var slot: map<Key, nat>
    ghost var pending: set<Key>

    /** The allocator and the page tables are in order and implement leaf. */
    ghost predicate PagingOk()
      reads this, frames
    {
      && frames.Valid()
      && TablesOk(frames.mem, tables) && tables.Keys <= frames.used
      && Refines(frames.mem, tables, leaf)
    }

    ghost function BooksNow(): Books
      reads this
    {
      Books(pages, present, swapped, disk, diskSectorsStartId)
    }

    /** The frames that may hold user pages: handed out, and not tables. */
    ghost function DataFrames(): set<nat>
      reads this, frames
    {
      frames.used - tables.Keys
    }

    ghost predicate Inv()
      reads this, frames
    {
      && PagingOk()
      && BooksOk(leaf, DataFrames(), BooksNow(), slot, pending)
      && |pages| == maxPages
      && presentPagesNum == |present| <= maxPresent && 1 <= maxPresent
    }

    /** Between kernel calls every mapped page is entered in the books. */
    ghost predicate Valid()
      reads this, frames
    {
      Inv() && pending == {}
    }

    /** Every mapped page of every address space with its words, wherever they are kept. */
    ghost function Contents(): map<Key, seq<nat>>
      reads this, frames
    {
      View(frames.mem, BooksNow(), slot)
    }

    /** The index tables that a first access to the page of va allocates. */
    ghost function TablesNeeded(va: nat, pgdir: nat): nat
      reads this, frames
    {
      if (pgdir, PageOf(va)) in leaf then 0 else TablesMissing(frames.mem, pgdir, PageOf(va))
    }

    /**
     Memory is not exhausted for an access to va. A page in memory needs nothing; a swapped one a frame,
     unless swap_out frees one first; a new one a descriptor, a frame and the tables it lacks.
     */
    ghost predicate CanTouch(va: nat, pgdir: nat)
      reads this, frames
      requires frames.Valid()
    {
      var k := (pgdir, PageOf(va));
      if k !in leaf then
        |present| + |swapped| < maxPages && frames.Room() >= 1 + TablesMissing(frames.mem, pgdir, PageOf(va))
      else leaf[k].InMemory? || frames.Room() > 0 || |present| == maxPresent
    }

    constructor (physical: Memory, maxPages: nat, maxPresent: nat, firstSector: nat, sectors: Disk)
      requires Physical(physical)
      requires 1 <= maxPresent
      ensures Valid() && Contents() == map[] && tables == map[] && fresh(frames)
      ensures this.maxPages == maxPages && this.maxPresent == maxPresent
    {
      frames := new Frames(physical);
      this.maxPages, this.maxPresent := maxPages, maxPresent;
      pages := seq(maxPages, _ => PageInfo(0, 0, 0, 0, 0));
      present, swapped, presentPagesNum, pageId := [], [], 0, 0;
      disk, diskSectorsStartId := sectors, firstSector;
      tables, leaf, slot, pending := map[], map[], map[], {};
    }

    /** clear_pgdir */
    method ClearPgdir(page: nat)
      requires page in frames.mem && |frames.mem[page]| == WORDS_PER_PAGE
      modifies frames`mem
      ensures frames.mem == old(frames.mem)[page := ZeroPage()]
    {
      var i := 0;
      while i < WORDS_PER_PAGE
        invariant 0 <= i <= WORDS_PER_PAGE
        invariant frames.mem.Keys == old(frames.mem).Keys && |frames.mem[page]| == WORDS_PER_PAGE
        invariant forall a | a in frames.mem && a != page :: frames.mem[a] == old(frames.mem)[a]
        invariant forall j | 0 <= j < i :: frames.mem[page][j] == 0
      {
        frames.mem := Put(frames.mem, page, i, 0);
        i := i + 1;
      }
      assert frames.mem[page] == ZeroPage();
    }

    /** Allocates a table and hangs it into the empty entry i of t. */
    method GrowTable(t: nat, i: nat) returns (c: nat)
      requires PagingOk() && frames.Room() > 0
      requires t in tables && !tables[t].Leaf? && i < WORDS_PER_PAGE && (tables[t] == Root ==> i < 256)
      requires frames.mem[t][i] == 0
      modifies frames, this`tables
      ensures PagingOk() && frames.Room() == old(frames.Room()) - 1
      ensures IsPage(c) && c !in old(frames.used) && frames.used == old(frames.used) + {c}
      ensures tables == old(tables)[c := ChildRole(old(tables), t, i)]
      ensures frames.mem[c] == ZeroPage()
      ensures frames.mem[t] == old(frames.mem)[t][i := MakePte(c, PAGE_PRESENT)]
      ensures forall a | a in old(frames.used) && a != t :: frames.mem[a] == old(frames.mem)[a]
    {
      hide TablesOk, Refines, FreeOk, Available, IsPage, ChildRole;
      ghost var mem0 := frames.mem;
      UsedPages(frames.mem, frames.freeList, frames.free, frames.used);
      c := frames.Kalloc();
      ghost var mem1 := frames.mem;
      UsedPages(frames.mem, frames.freeList, frames.free, frames.used);
      frames.mem := Put(frames.mem, t, i, MakePte(c, PAGE_PRESENT));
      ClearPgdir(c);
      assert frames.mem == Put(mem1, t, i, MakePte(c, PAGE_PRESENT));
      GrowRefines(mem0, mem1, tables, leaf, t, i, c);
      FreeFrame(mem1, frames.mem, frames.freeList, frames.free, frames.used);
      tables := tables[c := ChildRole(tables, t, i)];
    }

    /** A store to the leaf PTE of uva, whose new value means m. */
    method StorePte(table: nat, i: nat, pte: nat, ghost pgdir: nat, ghost uva: nat, ghost m: Mapping)
      requires PagingOk() && IsRoot(tables, pgdir) && UserPage(uva)
      requires TablesMissing(frames.mem, pgdir, uva) == 0
      requires table == LeafOf(frames.mem, pgdir, uva) && i == Vpn0(uva)
      requires EntryMeans(pte, leaf[(pgdir, uva) := m], (pgdir, uva))
      modifies frames`mem, this`leaf
      ensures PagingOk() && table in tables && i < |old(frames.mem)[table]|
      ensures frames.mem == Put(old(frames.mem), table, i, pte)
      ensures leaf == old(leaf)[(pgdir, uva) := m]
      ensures TablesMissing(frames.mem, pgdir, uva) == 0
    {
      hide FreeOk, Refines, EntryMeans;
      StoreLeaf(frames.mem, tables, pgdir, uva, pte);
      ghost var mem0 := frames.mem;
      frames.mem := Put(frames.mem, table, i, pte);
      leaf := leaf[(pgdir, uva) := m];
      UsedPages(mem0, frames.freeList, frames.free, frames.used);
      FreeFrame(mem0, frames.mem, frames.freeList, frames.free, frames.used);
      RefinesStore(mem0, frames.mem, tables, old(leaf), (pgdir, uva), pte, m);
    }

    /** map_uva_to_kva: afterwards the walk of uva ends at kva, and no other page has moved. */
    method MapUvaToKva(uva: nat, kva: nat, pgdir: nat)
      requires PagingOk() && IsRoot(tables, pgdir) && UserPage(uva)
      requires IsPage(kva) && kva in DataFrames()
      requires frames.Room() >= TablesMissing(frames.mem, pgdir, uva)
      modifies frames, this`tables, this`leaf
      ensures PagingOk()
      ensures frames.Room() == old(frames.Room() - TablesMissing(frames.mem, pgdir, uva))
      ensures leaf == old(leaf)[(pgdir, uva) := InMemory(kva)]
      ensures TablesMissing(frames.mem, pgdir, uva) == 0
      ensures old(TablesMissing(frames.mem, pgdir, uva)) == 0 ==> tables == old(tables) && frames.used == old(frames.used)
      ensures old(frames.used) <= frames.used
      ensures frames.used - old(frames.used) == tables.Keys - old(tables).Keys
      ensures old(tables).Keys <= tables.Keys
      ensures forall t | t in tables :: tables[t] == Root ==> t in old(tables) && old(tables)[t] == Root
      ensures forall t | t in old(tables) :: t in tables && tables[t] == old(tables)[t]
      ensures forall a | a in old(DataFrames()) :: a in DataFrames() && frames.mem[a] == old(frames.mem)[a]
    {
      hide TablesOk, Refines, FreeOk, Available, IsPage, PteKva, EntryMeans;
      var vpn2, vpn1, vpn0 := Vpn2(uva), Vpn1(uva), Vpn0(uva);
      VpnJoin(uva);
      UsedPages(frames.mem, frames.freeList, frames.free, frames.used);
      WalkStaysInTables(frames.mem, tables, pgdir, uva);
      if frames.mem[pgdir][vpn2] == 0 {
        var c := GrowTable(pgdir, vpn2);
        PteRoundTrip(c, PAGE_PRESENT);
        UsedPages(frames.mem, frames.freeList, frames.free, frames.used);
      }
      var pmd := PteKva(frames.mem[pgdir][vpn2]);
      WalkStaysInTables(frames.mem, tables, pgdir, uva);
      assert pmd in tables && tables[pmd] == Middle(pgdir, vpn2);
      if frames.mem[pmd][vpn1] == 0 {
        var c := GrowTable(pmd, vpn1);
        PteRoundTrip(c, PAGE_PRESENT);
        UsedPages(frames.mem, frames.freeList, frames.free, frames.used);
      }
      var leafTable := PteKva(frames.mem[pmd][vpn1]);
      MappedPte(kva, leaf, (pgdir, uva));
      StorePte(leafTable, vpn0, MakePte(kva, PAGE_PRESENT + PAGE_RWXU), pgdir, uva, InMemory(kva));
    }

    /** get_pte_of_uva: where the leaf PTE is, if the page is mapped. */
    method GetPteOfUva(uva: nat, pgdir: nat) returns (found: bool, table: nat, i: nat)
      requires PagingOk() && IsRoot(tables, pgdir) && UserAddress(uva)
      ensures found <==> (pgdir, PageOf(uva)) in leaf
      ensures found ==>
                && TablesMissing(frames.mem, pgdir, uva) == 0
                && table == LeafOf(frames.mem, pgdir, uva) && i == Vpn0(uva)
                && table in frames.mem && i < |frames.mem[table]|
                && EntryMeans(frames.mem[table][i], leaf, (pgdir, PageOf(uva)))
    {
      hide FreeOk, PteKva, EntryMeans, IsPage;
      UsedPages(frames.mem, frames.freeList, frames.free, frames.used);
      WalkStaysInTables(frames.mem, tables, pgdir, uva);
      EntryOfPage(frames.mem, pgdir, uva);
      assert EntryMeans(Entry(frames.mem, pgdir, uva), leaf, (pgdir, PageOf(uva)));
      ZeroEntry(Entry(frames.mem, pgdir, uva), leaf, (pgdir, PageOf(uva)));
      found, table, i := false, 0, 0;
      var vpn2 := Vpn2(uva);
      if frames.mem[pgdir][vpn2] == 0 {
        return;
      }
      var vpn1 := Vpn1(uva);
      var pmd := PteKva(frames.mem[pgdir][vpn2]);
      if frames.mem[pmd][vpn1] == 0 {
        return;
      }
      var vpn0 := Vpn0(uva);
      var pte := PteKva(frames.mem[pmd][vpn1]);
      if frames.mem[pte][vpn0] == 0 {
        return;
      }
      found, table, i := true, pte, vpn0;
    }

    /** get_kva_of_uva: 0 for an unmapped address, and frame plus offset for one in memory. */
    method GetKvaOfUva(uva: nat, pgdir: nat) returns (kva: nat)
      requires PagingOk() && IsRoot(tables, pgdir) && UserAddress(uva)
      ensures kva == 0 <==> (pgdir, PageOf(uva)) !in leaf
      ensures kva != 0 && leaf[(pgdir, PageOf(uva))].InMemory? ==>
                kva == leaf[(pgdir, PageOf(uva))].kva + uva % PAGE_SIZE
    {
      hide FreeOk, TablesOk, Refines, Entry, LeafOf, TablesMissing;
      var found, table, i := GetPteOfUva(uva, pgdir);
      if !found {
        return 0;
      }
      kva := GetPa(frames.mem[table][i]) + uva % PAGE_SIZE + KERNEL_VM_OFFSET;
    }

    /** Clears the present bit of a page in memory and frees its frame. */
    method UnmapAndFree(uva: nat, pgdir: nat, kva: nat)
      requires PagingOk() && (pgdir, uva) in leaf && leaf[(pgdir, uva)] == InMemory(kva)
      requires kva in DataFrames()
      modifies this`leaf, frames
      ensures PagingOk() && frames.Room() == old(frames.Room()) + 1
      ensures leaf == old(leaf)[(pgdir, uva) := OnDisk]
      ensures frames.used == old(frames.used) - {kva}
      ensures forall a | a in old(DataFrames()) && a != kva :: frames.mem[a] == old(frames.mem)[a]
    {
      hide TablesOk, Refines, FreeOk, Available, EntryMeans, IsPage, UnsetBit, Entry, PteKva, TablesMissing, LeafOf;
      UsedPages(frames.mem, frames.freeList, frames.free, frames.used);
      KeyIsUser(pgdir, uva);
      var found, table, i := GetPteOfUva(uva, pgdir);
      UnmappedPte(frames.mem[table][i], leaf, (pgdir, uva));
      StorePte(table, i, UnsetBit(frames.mem[table][i], PAGE_PRESENT), pgdir, uva, OnDisk);
      ghost var mem1 := frames.mem;
      UsedPages(frames.mem, frames.freeList, frames.free, frames.used);
      frames.Kfree(kva);
      FreedFrame(mem1, frames.mem, tables, leaf, kva, old(frames.freeList));
    }

    /** swap_out: the oldest present page goes to fresh sectors and its frame is freed. */
    method SwapOut() returns (ghost out: PageInfo)
      requires Inv() && present != []
      modifies this`pages, this`present, this`swapped, this`presentPagesNum, this`disk, this`diskSectorsStartId
      modifies this`leaf, frames
      ensures Inv() && Contents() == old(Contents())
      ensures present == old(present)[1..] && swapped == old(swapped) + [old(present)[0]]
      ensures frames.Room() == old(frames.Room()) + 1
      ensures old(present)[0] < |pages| && out == old(pages)[old(present)[0]]
      ensures leaf == old(leaf)[KeyOf(out) := OnDisk]
      ensures DataFrames() == old(DataFrames()) - {out.kva}
      ensures forall a | a in DataFrames() :: PageAt(frames.mem, a) == PageAt(old(frames.mem), a)
      ensures forall d | 0 <= d < |pages| :: KeyOf(pages[d]) == KeyOf(old(pages)[d]) && pages[d].kva == old(pages)[d].kva
    {
      hide TablesOk, Refines, FreeOk, Available, BooksOk, IsPage, View, Physical, IsRoot, AfterSwapOut;
      ghost var b0, mem0, data0 := BooksNow(), frames.mem, DataFrames();
      UsedPages(frames.mem, frames.freeList, frames.free, frames.used);
      PresentPage(leaf, data0, b0, slot, pending, present[0]);
      AfterSwapOutIs(mem0, b0);
      var p := WriteOut();
      out := p;
      UnmapAndFree(p.uva, p.pgdir, p.kva);
      presentPagesNum := presentPagesNum - 1;
      UsedPages(frames.mem, frames.freeList, frames.free, frames.used);
      assert DataFrames() == data0 - {p.kva};
      SameData(mem0, frames.mem, data0, p.kva);
      SwapOutBooks(mem0, frames.mem, old(leaf), data0, b0, slot, pending);
    }

    /** The first half of swap_out: the oldest page changes queues and is written to fresh sectors. */
    method WriteOut() returns (p: PageInfo)
      requires present != [] && present[0] < |pages| && |PageAt(frames.mem, pages[present[0]].kva)| == WORDS_PER_PAGE
      modifies this`pages, this`present, this`swapped, this`disk, this`diskSectorsStartId
      ensures p == old(pages)[old(present)[0]] && BooksNow() == AfterSwapOut(frames.mem, old(BooksNow()))
    {
      hide SdWrite;
      var d := present[0];
      present := present[1..];
      swapped := swapped + [d];
      p := pages[d];
      disk := SdWrite(disk, diskSectorsStartId, PageAt(frames.mem, p.kva));
      pages := pages[d := p.(sectorId := diskSectorsStartId)];
      diskSectorsStartId := diskSectorsStartId + SECTORS_PER_PAGE;
    }

    /** Mapped pages are user pages of known roots. */
    lemma KeyIsUser(pgdir: nat, uva: nat)
      requires Refines(frames.mem, tables, leaf) && (pgdir, uva) in leaf
      ensures IsRoot(tables, pgdir) && UserPage(uva) && PageOf(uva) == uva
    {
    }

    /** A fresh zeroed frame, outside the tables. */
    method AllocFrame() returns (kva: nat)
      requires PagingOk() && frames.Room() > 0
      modifies frames
      ensures PagingOk() && frames.Room() == old(frames.Room()) - 1
      ensures IsPage(kva) && kva !in old(frames.used) && frames.used == old(frames.used) + {kva}
      ensures kva in frames.mem && frames.mem[kva] == ZeroPage()
      ensures forall a | a in old(frames.used) :: frames.mem[a] == old(frames.mem)[a]
      ensures forall r: nat, u: nat | IsRoot(tables, r) && UserAddress(u) ::
                TablesMissing(frames.mem, r, u) == old(TablesMissing(frames.mem, r, u))
    {
      hide TablesOk, Refines, FreeOk, Available, IsPage, TablesMissing;
      ghost var mem0 := frames.mem;
      UsedPages(frames.mem, frames.freeList, frames.free, frames.used);
      kva := frames.Kalloc();
      TablesFrame(mem0, frames.mem, tables);
      RefinesSame(mem0, frames.mem, tables, tables, leaf);
    }

    /** Words stored into a frame that is not a table, by the user or by a sector read. */
    method WriteFrame(kva: nat, words: seq<nat>)
      requires PagingOk() && kva in DataFrames() && |words| == WORDS_PER_PAGE
      modifies frames`mem
      ensures PagingOk() && frames.mem == old(frames.mem)[kva := words]
    {
      hide TablesOk, Refines, FreeOk, IsPage;
      ghost var mem0 := frames.mem;
      UsedPages(frames.mem, frames.freeList, frames.free, frames.used);
      frames.mem := frames.mem[kva := words];
      TablesFrame(mem0, frames.mem, tables);
      RefinesSame(mem0, frames.mem, tables, tables, leaf);
      FreeFrame(mem0, frames.mem, frames.freeList, frames.free, frames.used);
    }

    /** Maps a page that already has its tables to a fresh frame and fills the frame. */
    method BringIn(uva: nat, pgdir: nat, words: seq<nat>) returns (kva: nat)
      requires PagingOk() && (pgdir, uva) in leaf && |words| == WORDS_PER_PAGE && frames.Room() > 0
      modifies this`leaf, this`tables, frames
      ensures PagingOk() && frames.Room() == old(frames.Room()) - 1
      ensures kva !in old(frames.used) && frames.used == old(frames.used) + {kva} && tables == old(tables)
      ensures leaf == old(leaf)[(pgdir, uva) := InMemory(kva)]
      ensures PageAt(frames.mem, kva) == words
      ensures forall a | a in old(DataFrames()) :: PageAt(frames.mem, a) == PageAt(old(frames.mem), a)
    {
      hide TablesOk, Refines, FreeOk, Available, IsPage, TablesMissing;
      MappedHasTables(frames.mem, tables, leaf, (pgdir, uva));
      UsedPages(frames.mem, frames.freeList, frames.free, frames.used);
      kva := AllocFrame();
      MapUvaToKva(uva, kva, pgdir);
      WriteFrame(kva, words);
      UsedPages(frames.mem, frames.freeList, frames.free, frames.used);
    }

    /** swap_in: the page d gets a fresh frame with the words of its sectors. */
    method SwapIn(d: nat)
      requires Inv() && d in swapped && |present| < maxPresent && frames.Room() > 0
      modifies this`pages, this`present, this`swapped, this`presentPagesNum, this`leaf, this`tables, frames
      ensures Inv() && Contents() == old(Contents())
      ensures present == old(present) + [d] && swapped == Without(old(swapped), d)
      ensures frames.Room() == old(frames.Room()) - 1
      ensures tables == old(tables)
      ensures |pages| == |old(pages)| && forall x | 0 <= x < |pages| :: KeyOf(pages[x]) == KeyOf(old(pages)[x])
      ensures d < |pages| && leaf == old(leaf)[KeyOf(pages[d]) := InMemory(pages[d].kva)]
    {
      hide TablesOk, Refines, FreeOk, Available, BooksOk, IsPage, View, Without;
      ghost var b0, mem0, data0 := BooksNow(), frames.mem, DataFrames();
      SwappedPage(leaf, data0, b0, slot, pending, d);

      swapped := Without(swapped, d);
      present := present + [d];
      var p := pages[d];
      var kva := BringIn(p.uva, p.pgdir, SdRead(disk, p.sectorId));
      pages := pages[d := p.(kva := kva, sectorId := 0)];
      presentPagesNum := presentPagesNum + 1;

      assert DataFrames() == data0 + {kva};
      assert BooksNow() == AfterSwapIn(b0, d, kva);
      SwapInBooks(mem0, frames.mem, old(leaf), data0, b0, slot, pending, d, kva);
    }

    /** kalloc and map_uva_to_kva: the page is mapped but not yet entered in the books. */
    method MapFreshFrame(uva: nat, pgdir: nat) returns (kva: nat)
      requires Valid() && IsRoot(tables, pgdir) && UserPage(uva) && (pgdir, uva) !in slot
      requires frames.Room() >= 1 + TablesMissing(frames.mem, pgdir, uva)
      modifies this`leaf, this`tables, this`pending, frames
      ensures Inv() && pending == {(pgdir, uva)} && Contents() == old(Contents())
      ensures frames.Room() == old(frames.Room() - 1 - TablesMissing(frames.mem, pgdir, uva))
      ensures leaf == old(leaf)[(pgdir, uva) := InMemory(kva)]
      ensures kva in DataFrames() && kva !in old(DataFrames()) && PageAt(frames.mem, kva) == ZeroPage()
      ensures forall r :: IsRoot(tables, r) <==> old(IsRoot(tables, r))
    {
      hide TablesOk, Refines, FreeOk, Available, BooksOk, IsPage, View, TablesMissing;
      ghost var mem0, data0 := frames.mem, DataFrames();
      UsedPages(frames.mem, frames.freeList, frames.free, frames.used);
      kva := AllocFrame();
      ghost var data1 := DataFrames();
      MapUvaToKva(uva, kva, pgdir);
      UsedPages(frames.mem, frames.freeList, frames.free, frames.used);
      BooksFrame(mem0, frames.mem, old(leaf), data0, DataFrames(), BooksNow(), slot, {});
      PendingBooks(old(leaf), DataFrames(), DataFrames(), BooksNow(), slot, (pgdir, uva), InMemory(kva));
      pending := {(pgdir, uva)};
    }

    /** add_new_pre_page: the first unused descriptor is taken; there must be one. */
    method AddNewPrePage(uva: nat, kva: nat, pgdir: nat)
      requires Inv() && pending == {(pgdir, uva)} && (pgdir, uva) !in slot
      requires (pgdir, uva) in leaf && leaf[(pgdir, uva)] == InMemory(kva) && kva in DataFrames()
      requires forall x | x in present :: x < |pages| && pages[x].kva != kva
      requires |present| < maxPresent && |present| + |swapped| < maxPages
      modifies this`pages, this`present, this`presentPagesNum, this`pageId, this`slot, this`pending
      ensures Valid()
      ensures exists d: nat :: present == old(present) + [d] && slot == old(slot)[(pgdir, uva) := d]
      ensures Contents() == old(Contents())[(pgdir, uva) := PageAt(frames.mem, kva)]
    {
      hide TablesOk, Refines, FreeOk, BooksOk, View;
      FreeDescriptor(leaf, DataFrames(), BooksNow(), slot, pending);
      var d := 0;
      while pages[d].pageId != 0
        invariant 0 <= d < |pages| && forall i | 0 <= i < d :: pages[i].pageId != 0
        decreases |pages| - d
      {
        d := d + 1;
      }
      ghost var b0 := BooksNow();
      pageId := pageId + 1;
      var info := PageInfo(uva, kva, pgdir, pageId, pages[d].sectorId);
      pages := pages[d := info];
      present := present + [d];
      presentPagesNum := presentPagesNum + 1;
      AddBooks(frames.mem, leaf, DataFrames(), b0, slot, pending, d, info);
      slot := slot[(pgdir, uva) := d];
      pending := {};
      assert BooksNow() == AfterAdd(b0, d, info);
      assert {KeyOf(info)} - {KeyOf(info)} == {};
    }

    /** alloc_page_helper: a zeroed page appears at uva; if memory is full the oldest page goes to disk. */
    method AllocPageHelper(uva: nat, pgdir: nat) returns (kva: nat)
      requires Valid() && IsRoot(tables, pgdir) && UserPage(uva) && (pgdir, uva) !in slot
      requires frames.Room() >= 1 + TablesMissing(frames.mem, pgdir, uva) && |present| + |swapped| < maxPages
      modifies this, frames
      ensures Valid() && Contents() == old(Contents())[(pgdir, uva) := ZeroPage()]
      ensures frames.Room() + |present| == old(frames.Room() + |present| - TablesMissing(frames.mem, pgdir, uva))
      ensures forall r :: IsRoot(tables, r) <==> old(IsRoot(tables, r))
      ensures (pgdir, uva) in leaf && leaf[(pgdir, uva)] == InMemory(kva)
      ensures |present| + |swapped| == |old(present)| + |old(swapped)| + 1
      ensures |old(present)| < maxPresent ==> swapped == old(swapped) && old(present) <= present
      ensures |old(present)| == maxPresent ==>
                swapped == old(swapped) + [old(present)[0]] && old(present)[1..] <= present
    {
      hide TablesOk, Refines, FreeOk, Available, BooksOk, IsPage, View, Entry;
      PresentFrames(leaf, DataFrames(), BooksNow(), slot, pending);
      kva := MapFreshFrame(uva, pgdir);
      if presentPagesNum >= maxPresent {
        ghost var before := present;
        ghost var out := SwapOut();
        assert before[0] in before;
        assert forall x | x in present :: x in before;
      }
      AddNewPrePage(uva, kva, pgdir);
    }

    /** find_page_with_uva, on one of the two queues. */
    method FindPageWithUva(uva: nat, pgdir: nat, queue: seq<nat>) returns (found: bool, d: nat)
      requires forall i | 0 <= i < |queue| :: queue[i] < |pages|
      ensures found ==> d in queue && d < |pages| && KeyOf(pages[d]) == (pgdir, uva)
      ensures !found ==> forall i | 0 <= i < |queue| :: KeyOf(pages[queue[i]]) != (pgdir, uva)
    {
      found, d := false, 0;
      for i := 0 to |queue|
        invariant forall j | 0 <= j < i :: KeyOf(pages[queue[j]]) != (pgdir, uva)
      {
        if pages[queue[i]].uva == uva && pages[queue[i]].pgdir == pgdir {
          return true, queue[i];
        }
      }
    }

    /** swap_in_all_pages: stops early only because the present queue is full. */
    method SwapInAllPages(pgdir: nat)
      requires Valid()
      requires frames.Room() >= CountOf(pages, swapped, pgdir) || frames.Room() + |present| >= maxPresent
      modifies this`pages, this`present, this`swapped, this`presentPagesNum, this`leaf, this`tables, frames
      ensures Valid() && Contents() == old(Contents()) && tables == old(tables)
      ensures old(present) <= present
      ensures |present| + |swapped| == |old(present)| + |old(swapped)|
      ensures frames.Room() + |present| == old(frames.Room() + |present|)
      ensures |present| == maxPresent || forall i | 0 <= i < |swapped| :: swapped[i] < |pages| && pages[swapped[i]].pgdir != pgdir
    {
      hide TablesOk, Refines, FreeOk, Available, BooksOk, View, Without, CountOf;
      QueueBounds(leaf, DataFrames(), BooksNow(), slot, pending);
      var i := 0;
      assert swapped[0..] == swapped;
      while i < |swapped|
        invariant 0 <= i <= |swapped|
        invariant Valid() && Contents() == old(Contents()) && tables == old(tables)
        invariant frames.Room() >= CountOf(pages, swapped[i..], pgdir) || frames.Room() + |present| >= maxPresent
        invariant frames.Room() + |present| == old(frames.Room() + |present|)
        invariant old(present) <= present
        invariant |present| + |swapped| == |old(present)| + |old(swapped)|
        invariant forall j | 0 <= j < |swapped| :: swapped[j] < |pages|
        invariant |present| == maxPresent || forall j | 0 <= j < i :: pages[swapped[j]].pgdir != pgdir
        decreases |swapped| - i
      {
        QueueBounds(leaf, DataFrames(), BooksNow(), slot, pending);
        var d := swapped[i];
        CountNext(pages, swapped, i, pgdir);
        if pages[d].pgdir == pgdir && presentPagesNum < maxPresent {
          WithoutAt(swapped, i);
          ghost var before, pages0 := swapped, pages;
          SwapIn(d);
          SameCount(pages0, pages, before[i + 1..], pgdir);
          assert swapped[i..] == before[i + 1..];
          QueueBounds(leaf, DataFrames(), BooksNow(), slot, pending);
          assert forall j | 0 <= j < i :: swapped[j] == before[j];
        } else {
          i := i + 1;
        }
      }
    }

    /** Setting the accessed and dirty bits is invisible to translation. */
    method MarkAccess(uva: nat, pgdir: nat, isStore: bool)
      requires Valid() && (pgdir, uva) in leaf && leaf[(pgdir, uva)].InMemory?
      modifies frames`mem, this`leaf
      ensures Valid() && leaf == old(leaf) && Contents() == old(Contents()) && frames.Room() == old(frames.Room())
      ensures tables == old(tables) && Marked(Entry(frames.mem, pgdir, uva), isStore)
    {
      hide TablesOk, Refines, FreeOk, BooksOk, View, SetBit, HasBit, EntryMeans, IsPage, TablesMissing, LeafOf;
      ghost var mem0 := frames.mem;
      UsedPages(frames.mem, frames.freeList, frames.free, frames.used);
      KeyIsUser(pgdir, uva);
      var found, table, i := GetPteOfUva(uva, pgdir);
      var pte := SetBit(frames.mem[table][i], PAGE_ACCESSED);
      if isStore {
        pte := SetBit(pte, PAGE_DIRTY);
      }
      MarkedBits(frames.mem[table][i]);
      TouchedPte(frames.mem[table][i], leaf, (pgdir, uva));
      StoredEntry(frames.mem, tables, pgdir, uva, pte);
      StorePte(table, i, pte, pgdir, uva, leaf[(pgdir, uva)]);
      assert leaf == old(leaf);
      UsedPages(frames.mem, frames.freeList, frames.free, frames.used);
      BooksFrame(mem0, frames.mem, leaf, DataFrames(), DataFrames(), BooksNow(), slot, {});
    }

    /** Brings a page back from disk, making room first if the present queue is full. */
    method FaultIn(uva: nat, pgdir: nat)
      requires Valid() && (pgdir, uva) in leaf && leaf[(pgdir, uva)] == OnDisk
      requires frames.Room() > 0 || |present| == maxPresent
      modifies this, frames
      ensures Valid() && Contents() == old(Contents()) && tables == old(tables)
      ensures frames.Room() + |present| == old(frames.Room() + |present|)
      ensures (pgdir, uva) in leaf && leaf[(pgdir, uva)].InMemory?
      ensures |present| + |swapped| == |old(present)| + |old(swapped)|
    {
      hide TablesOk, Refines, FreeOk, Available, BooksOk, View, Without;
      MappedPage(leaf, DataFrames(), BooksNow(), slot, (pgdir, uva));
      QueueBounds(leaf, DataFrames(), BooksNow(), slot, pending);
      var found, d := FindPageWithUva(uva, pgdir, swapped);
      assert swapped[IndexOf(swapped, slot[(pgdir, uva)])] == slot[(pgdir, uva)];
      if presentPagesNum >= maxPresent {
        ghost var out := SwapOut();
      }
      SwapIn(d);
    }

    /** handle_page_fault, for an address whose page is unmapped or not present. */
    method HandlePageFault(stval: nat, isStore: bool, pgdir: nat)
      requires Valid() && IsRoot(tables, pgdir) && UserAddress(stval) && CanTouch(stval, pgdir)
      requires (pgdir, PageOf(stval)) in leaf ==> leaf[(pgdir, PageOf(stval))] == OnDisk
      modifies this, frames
      ensures Valid() && forall r :: IsRoot(tables, r) <==> old(IsRoot(tables, r))
      ensures frames.Room() + |present| == old(frames.Room() + |present| - TablesNeeded(stval, pgdir))
      ensures |present| + |swapped| == old(|present| + |swapped|) + old(if (pgdir, PageOf(stval)) in leaf then 0 else 1)
      ensures (pgdir, PageOf(stval)) in leaf && leaf[(pgdir, PageOf(stval))].InMemory?
      ensures Marked(Entry(frames.mem, pgdir, PageOf(stval)), isStore)
      ensures Contents() == if (pgdir, PageOf(stval)) in old(leaf) then old(Contents())
                            else old(Contents())[(pgdir, PageOf(stval)) := ZeroPage()]
    {
      hide TablesOk, Refines, FreeOk, Available, BooksOk, View;
      var faultUva := PageOf(stval);
      EntryOfPage(frames.mem, pgdir, stval);
      SlotIsMapped(leaf, DataFrames(), BooksNow(), slot, (pgdir, faultUva));
      var faultKva := GetKvaOfUva(faultUva, pgdir);
      if faultKva == 0 {
        var kva := AllocPageHelper(faultUva, pgdir);
      } else {
        FaultIn(faultUva, pgdir);
      }
      MarkAccess(faultUva, pgdir, isStore);
    }

    /** A page for a new page directory, as create_pcb allocates it: nothing is mapped in it. */
    method NewPgdir() returns (pgdir: nat)
      requires Valid() && frames.Room() > 0
      modifies this`tables, frames
      ensures Valid() && Contents() == old(Contents()) && leaf == old(leaf)
      ensures frames.Room() == old(frames.Room()) - 1
      ensures pgdir !in old(tables) && tables == old(tables)[pgdir := Root]
    {
      hide TablesOk, Refines, FreeOk, Available, BooksOk, View, IsPage;
      ghost var mem0, data0 := frames.mem, DataFrames();
      UsedPages(frames.mem, frames.freeList, frames.free, frames.used);
      pgdir := AllocFrame();
      UsedPages(frames.mem, frames.freeList, frames.free, frames.used);
      NewRoot(frames.mem, tables, pgdir);
      NewRootRefines(frames.mem, tables, leaf, pgdir);
      tables := tables[pgdir := Root];
      assert DataFrames() == data0;
      BooksFrame(mem0, frames.mem, leaf, data0, DataFrames(), BooksNow(), slot, {});
    }

    /** share_pgtable: the kernel half is copied in, no user page is affected. */
    method SharePgtable(pgdir: nat, kernelDir: seq<nat>)
      requires Valid() && IsRoot(tables, pgdir)
      requires |kernelDir| == WORDS_PER_PAGE && forall i | 0 <= i < 256 :: kernelDir[i] == 0
      modifies frames`mem
      ensures Valid() && Contents() == old(Contents()) && frames.Room() == old(frames.Room())
      ensures pgdir in frames.mem && |frames.mem[pgdir]| == WORDS_PER_PAGE
      ensures pgdir in old(frames.mem) && |old(frames.mem)[pgdir]| == WORDS_PER_PAGE
      ensures frames.mem == old(frames.mem)[pgdir := frames.mem[pgdir]]
      ensures forall i | 0 <= i < WORDS_PER_PAGE ::
                frames.mem[pgdir][i] == if kernelDir[i] != 0 then kernelDir[i] else old(frames.mem)[pgdir][i]
    {
      hide TablesOk, Refines, FreeOk, BooksOk, View, IsPage;
      UsedPages(frames.mem, frames.freeList, frames.free, frames.used);
      for i := 0 to WORDS_PER_PAGE
        invariant Valid() && Contents() == old(Contents()) && pgdir in frames.mem && |frames.mem[pgdir]| == WORDS_PER_PAGE
        invariant frames.mem == old(frames.mem)[pgdir := frames.mem[pgdir]]
        invariant forall j | 0 <= j < WORDS_PER_PAGE ::
                    frames.mem[pgdir][j] == if j < i && kernelDir[j] != 0 then kernelDir[j] else old(frames.mem)[pgdir][j]
      {
        if kernelDir[i] != 0 {
          ghost var mem0 := frames.mem;
          UsedPages(frames.mem, frames.freeList, frames.free, frames.used);
          StoreKernelEntry(frames.mem, tables, pgdir, i, kernelDir[i]);
          frames.mem := Put(frames.mem, pgdir, i, kernelDir[i]);
          RefinesSame(mem0, frames.mem, tables, tables, leaf);
          FreeFrame(mem0, frames.mem, frames.freeList, frames.free, frames.used);
          BooksFrame(mem0, frames.mem, leaf, DataFrames(), DataFrames(), BooksNow(), slot, {});
        }
      }
    }

    /**
     free_page_with_uva as it stands: the descriptor is cleared before the frame is freed, so that kfree is
     given 0. A frame stays handed out that was a page's and is named by no descriptor any more exactly when
     the page was in memory; a swapped page has no frame to lose.
     */
    method FreePageAsWritten(uva: nat, pgdir: nat)
      requires Valid() && (pgdir, uva) in leaf
      modifies this`pages, this`present, this`swapped, this`presentPagesNum, frames
      ensures leaf == old(leaf) && frames.Valid() && frames.used == old(frames.used) && frames.free == old(frames.free)
      ensures presentPagesNum == |present| && |present| + |swapped| == |old(present)| + |old(swapped)| - 1
      ensures leaf[(pgdir, uva)].InMemory? ==> Leaked(old(pages), old(present), pages, present, frames.used, leaf[(pgdir, uva)].kva)
      ensures (exists f :: Leaked(old(pages), old(present), pages, present, frames.used, f)) <==> leaf[(pgdir, uva)].InMemory?
    {
      hide TablesOk, Refines, FreeOk, BooksOk, Available, DescriptorOk, Names, Leaked, Without;
      ghost var b0, used := BooksNow(), frames.used;
      MappedPage(leaf, DataFrames(), b0, slot, (pgdir, uva));
      ghost var own := slot[(pgdir, uva)];
      PresentFrames(leaf, DataFrames(), b0, slot, {});
      QueueBounds(leaf, DataFrames(), b0, slot, {});
      assert forall i | 0 <= i < |present| :: present[i] in present;
      assert leaf[(pgdir, uva)].InMemory? ==> present[IndexOf(present, own)] == own;
      var found, d := FindPageWithUva(uva, pgdir, present);
      if found {
        PresentPage(leaf, DataFrames(), b0, slot, {}, d);
        FreedPresent(leaf, DataFrames(), b0, slot, d, used);
        pages := pages[d := Reset(pages[d])];
        present := Without(present, d);
        frames.Kfree(pages[d].kva);
        presentPagesNum := presentPagesNum - 1;
        return;
      }
      found, d := FindPageWithUva(uva, pgdir, swapped);
      assert swapped[IndexOf(swapped, own)] == own;
      pages := pages[d := Reset(pages[d])];
      FreedSwapped(leaf, DataFrames(), b0, slot, d, used, pages);
      swapped := Without(swapped, d);
      frames.Kfree(pages[d].kva);
    }

    /** What the hardware does at an access: translate, and trap while the leaf is not valid. */
    method Touch(va: nat, isStore: bool, pgdir: nat) returns (kva: nat)
      requires Valid() && IsRoot(tables, pgdir) && UserAddress(va) && CanTouch(va, pgdir)
      modifies this, frames
      ensures Valid() && forall r :: IsRoot(tables, r) <==> old(IsRoot(tables, r))
      ensures frames.Room() + |present| == old(frames.Room() + |present| - TablesNeeded(va, pgdir))
      ensures |present| + |swapped| == old(|present| + |swapped|) + old(if (pgdir, PageOf(va)) in leaf then 0 else 1)
      ensures (pgdir, PageOf(va)) in leaf && leaf[(pgdir, PageOf(va))] == InMemory(kva)
      ensures Contents() == Touched(old(Contents()), (pgdir, PageOf(va)))
    {
      hide TablesOk, Refines, FreeOk, Available, BooksOk, TablesMissing, Translate;
      SlotIsMapped(leaf, DataFrames(), BooksNow(), slot, (pgdir, PageOf(va)));
      var access := if isStore then WriteAccess else ReadAccess;
      HardwareSees(frames.mem, tables, leaf, pgdir, va, access);
      var found := Translate(frames.mem, pgdir, va, access);
      if found.Fault? {
        HandlePageFault(va, isStore, pgdir);
        HardwareSees(frames.mem, tables, leaf, pgdir, va, access);
        found := Translate(frames.mem, pgdir, va, access);
      }
      kva := found.pa - va % PAGE_SIZE + KERNEL_VM_OFFSET;
    }

    /** A user load of the 64-bit word at va. */
    method UserLoad(va: nat, pgdir: nat) returns (word: nat)
      requires Valid() && IsRoot(tables, pgdir) && UserAddress(va) && CanTouch(va, pgdir)
      modifies this, frames
      ensures Valid() && forall r :: IsRoot(tables, r) <==> old(IsRoot(tables, r))
      ensures frames.Room() + |present| == old(frames.Room() + |present| - TablesNeeded(va, pgdir))
      ensures |present| + |swapped| == old(|present| + |swapped|) + old(if (pgdir, PageOf(va)) in leaf then 0 else 1)
      ensures Contents() == Touched(old(Contents()), (pgdir, PageOf(va)))
      ensures (pgdir, PageOf(va)) in Contents() && |Contents()[(pgdir, PageOf(va))]| == WORDS_PER_PAGE
      ensures word == Contents()[(pgdir, PageOf(va))][WordIndex(va)]
    {
      hide TablesOk, Refines, FreeOk, Available, BooksOk, PteKva;
      var kva := Touch(va, false, pgdir);
      UsedPages(frames.mem, frames.freeList, frames.free, frames.used);
      MappedPage(leaf, DataFrames(), BooksNow(), slot, (pgdir, PageOf(va)));
      word := frames.mem[kva][WordIndex(va)];
    }

    /** A user store of a 64-bit word at va. */
    method UserStore(va: nat, word: nat, pgdir: nat)
      requires Valid() && IsRoot(tables, pgdir) && UserAddress(va) && CanTouch(va, pgdir)
      modifies this, frames
      ensures Valid() && forall r :: IsRoot(tables, r) <==> old(IsRoot(tables, r))
      ensures frames.Room() + |present| == old(frames.Room() + |present| - TablesNeeded(va, pgdir))
      ensures |present| + |swapped| == old(|present| + |swapped|) + old(if (pgdir, PageOf(va)) in leaf then 0 else 1)
      ensures Contents() == StoreWord(old(Contents()), (pgdir, PageOf(va)), WordIndex(va), word)
    {
      hide TablesOk, Refines, FreeOk, Available, BooksOk, PteKva, View, StoreWord, Touched, IsPage, TablesMissing, EntryMeans;
      TouchThenStore(Contents(), (pgdir, PageOf(va)), WordIndex(va), word);
      var kva := Touch(va, true, pgdir);
      UsedPages(frames.mem, frames.freeList, frames.free, frames.used);
      MappedPage(leaf, DataFrames(), BooksNow(), slot, (pgdir, PageOf(va)));
      ghost var mem0, contents0 := frames.mem, Contents();
      WriteFrame(kva, frames.mem[kva][WordIndex(va) := word]);
      StoreBooks(mem0, frames.mem, leaf, DataFrames(), BooksNow(), slot, (pgdir, PageOf(va)), WordIndex(va), word);
    }

    lemma ContentsAreMapped()
      requires Valid()
      ensures forall k | k in Contents() :: IsRoot(tables, k.0)
    {
      forall k | k in Contents()
        ensures IsRoot(tables, k.0)
      {
        SlotIsMapped(leaf, DataFrames(), BooksNow(), slot, k);
      }
    }
  }
}
