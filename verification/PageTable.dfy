/**
 Page-table words and the three-level Sv39 walk (arch/riscv/include/pgtable.h, kernel/mm/mm.c).

 A word is a natural number; shifts and masks by constants are written as multiplication,
 division and remainder by the corresponding powers of two. Module PteBits states the same laws for
 the bit expressions of the source, on 64-bit words.
 */
module PageTable {
  import opened Arithmetic

  const PAGE_SIZE := 0x1000
  const WORDS_PER_PAGE := 512
  const FREEMEM_KERNEL := 0xffff_ffc0_5200_0000
  const FREEMEM_KERNEL_STOP := 0xffff_ffc0_6000_0000
  const KERNEL_VM_OFFSET := 0xffff_ffc0_0000_0000

  const PAGE_PRESENT := 0x01
  const PAGE_RWXU := 0x1e
  const PAGE_ACCESSED := 0x40
  const PAGE_DIRTY := 0x80

  /** Physical memory: page base address (kernel virtual) to its 512 words. */
  type Memory = map<nat, seq<nat>>

  predicate IsPage(a: nat) {
    a % PAGE_SIZE == 0 && FREEMEM_KERNEL <= a < FREEMEM_KERNEL_STOP
  }

  function ZeroPage(): (z: seq<nat>)
    ensures |z| == WORDS_PER_PAGE
    ensures forall i | 0 <= i < WORDS_PER_PAGE :: z[i] == 0
  {
    seq(WORDS_PER_PAGE, _ => 0)
  }

  // ---------------------------------------------------------------- PTE words

  function GetPa(entry: nat): nat {
    entry % 0x40_0000_0000_0000 / 1024 * PAGE_SIZE
  }

  /** The page a PTE points at, as a kernel virtual address: pa2kva(get_pa(entry)). */
  function PteKva(entry: nat): nat {
    GetPa(entry) + KERNEL_VM_OFFSET
  }

  /** set_pfn(&e, kva2pa(kva) >> 12) followed by set_attribute(&e, attributes). */
  function MakePte(kva: nat, attributes: nat): nat
    requires KERNEL_VM_OFFSET <= kva
  {
    (kva - KERNEL_VM_OFFSET) / PAGE_SIZE * 1024 + attributes
  }

  predicate HasBit(entry: nat, bit: nat)
    requires bit != 0
  {
    entry / bit % 2 == 1
  }

  function SetBit(entry: nat, bit: nat): nat
    requires bit != 0
  {
    if HasBit(entry, bit) then entry else entry + bit
  }

  function UnsetBit(entry: nat, bit: nat): nat
    requires bit != 0
  {
    if HasBit(entry, bit) then entry - bit else entry
  }

  predicate Present(entry: nat) {
    HasBit(entry, PAGE_PRESENT)
  }

  /** Packing an allocatable page and unpacking it gives the page and the attributes back. */
  lemma PteRoundTrip(kva: nat, attributes: nat)
    requires IsPage(kva) && attributes < 1024
    ensures PteKva(MakePte(kva, attributes)) == kva
    ensures MakePte(kva, attributes) % 1024 == attributes
    ensures 1024 <= MakePte(kva, attributes) < 0x40_0000_0000_0000
  {
    var pfn := (kva - KERNEL_VM_OFFSET) / PAGE_SIZE;
    assert MakePte(kva, attributes) / 1024 == pfn;
    assert pfn < 0x1000_0000;
  }

  /** The frame address depends on the bits above the ten attribute bits only. */
  lemma FrameOnly(entry: nat, entry': nat)
    requires entry / 1024 == entry' / 1024
    ensures GetPa(entry) == GetPa(entry')
  {
    FrameBits(entry);
    FrameBits(entry');
  }

  lemma FrameBits(entry: nat)
    ensures GetPa(entry) == entry / 1024 % 0x1000_0000_0000 * PAGE_SIZE
  {
    var q, a := entry / 1024, entry % 1024;
    var k, r := q / 0x1000_0000_0000, q % 0x1000_0000_0000;
    assert entry == 0x40_0000_0000_0000 * k + (1024 * r + a);
    assert 1024 * r + a < 0x40_0000_0000_0000;
    assert entry % 0x40_0000_0000_0000 == 1024 * r + a;
  }

  /** Adding a clear bit between the present bit and the frame leaves both alone. */
  lemma AddAccessed(entry: nat)
    requires entry / 64 % 2 == 0
    ensures (entry + 64) / 1024 == entry / 1024 && (entry + 64) % 64 == entry % 64
  {
    var h, r := entry / 128, entry % 128;
    DivUnique(entry, 64, 2 * h + r / 64, r % 64);
    assert r < 64;
    var low := 128 * (h % 8) + r;
    DivUnique(entry, 1024, h / 8, low);
    DivUnique(entry + 64, 1024, h / 8, low + 64);
    DivUnique(entry + 64, 64, entry / 64 + 1, entry % 64);
  }

  lemma AddDirty(entry: nat)
    requires entry / 128 % 2 == 0
    ensures (entry + 128) / 1024 == entry / 1024 && (entry + 128) % 64 == entry % 64
  {
    var h, r := entry / 256, entry % 256;
    DivUnique(entry, 128, 2 * h + r / 128, r % 128);
    assert r < 128;
    var low := 256 * (h % 4) + r;
    DivUnique(entry, 1024, h / 4, low);
    DivUnique(entry + 128, 1024, h / 4, low + 128);
    DivUnique(entry + 128, 64, entry / 64 + 2, entry % 64);
  }

  lemma NoReservedBits(entry: nat, entry': nat)
    requires entry / 1024 == entry' / 1024
    ensures entry < 0x40_0000_0000_0000 <==> entry' < 0x40_0000_0000_0000
  {
  }

  /** Bits 1 to 5 of a leaf entry: read, write, execute and user are set, global is not. */
  predicate UserRights(entry: nat) {
    entry / 2 % 32 == 15
  }

  /** A user page's entry: all rights, and the bits above the frame number, which are reserved, clear. */
  predicate UserLeaf(entry: nat) {
    UserRights(entry) && entry < 0x40_0000_0000_0000
  }

  /** The six low bits decide what an entry is and who may use it. */
  lemma LowBits(entry: nat, entry': nat)
    requires entry % 64 == entry' % 64
    ensures Present(entry) == Present(entry') && UserRights(entry) == UserRights(entry')
  {
    LowSix(entry);
    LowSix(entry');
  }

  lemma LowSix(entry: nat)
    ensures entry % 2 == entry % 64 % 2 && entry / 2 % 32 == entry % 64 / 2
  {
    var q, r := entry / 64, entry % 64;
    DivUnique(entry, 2, 32 * q + r / 2, r % 2);
    DivUnique(32 * q + r / 2, 32, q, r / 2);
  }

  /** Setting the accessed or dirty bit keeps the frame, the present bit and the rights. */
  lemma SetAccessed(entry: nat)
    ensures PteKva(SetBit(entry, PAGE_ACCESSED)) == PteKva(entry)
    ensures Present(SetBit(entry, PAGE_ACCESSED)) == Present(entry)
    ensures UserLeaf(SetBit(entry, PAGE_ACCESSED)) == UserLeaf(entry)
  {
    hide GetPa;
    if !HasBit(entry, PAGE_ACCESSED) {
      AddAccessed(entry);
      FrameOnly(entry + PAGE_ACCESSED, entry);
      LowBits(entry + PAGE_ACCESSED, entry);
      NoReservedBits(entry + PAGE_ACCESSED, entry);
    }
  }

  lemma SetDirty(entry: nat)
    ensures PteKva(SetBit(entry, PAGE_DIRTY)) == PteKva(entry)
    ensures Present(SetBit(entry, PAGE_DIRTY)) == Present(entry)
    ensures UserLeaf(SetBit(entry, PAGE_DIRTY)) == UserLeaf(entry)
  {
    hide GetPa;
    if !HasBit(entry, PAGE_DIRTY) {
      AddDirty(entry);
      FrameOnly(entry + PAGE_DIRTY, entry);
      LowBits(entry + PAGE_DIRTY, entry);
      NoReservedBits(entry + PAGE_DIRTY, entry);
    }
  }

  /** A bit that is set stays set when the other one is set too. */
  lemma MarkedBits(entry: nat)
    ensures HasBit(SetBit(entry, PAGE_ACCESSED), PAGE_ACCESSED)
    ensures var both := SetBit(SetBit(entry, PAGE_ACCESSED), PAGE_DIRTY);
            HasBit(both, PAGE_ACCESSED) && HasBit(both, PAGE_DIRTY)
  {
    var one := SetBit(entry, PAGE_ACCESSED);
    assert (entry + 64) / 64 == entry / 64 + 1;
    assert (one + 128) / 64 == one / 64 + 2 && (one + 128) / 128 == one / 128 + 1;
  }

  /** Clearing the present bit of a mapped page keeps the frame, and the entry stays non-zero. */
  lemma UnsetPresent(entry: nat)
    requires Present(entry)
    ensures !Present(UnsetBit(entry, PAGE_PRESENT))
    ensures PteKva(UnsetBit(entry, PAGE_PRESENT)) == PteKva(entry)
    ensures UserLeaf(UnsetBit(entry, PAGE_PRESENT)) == UserLeaf(entry)
    ensures IsPage(PteKva(entry)) ==> UnsetBit(entry, PAGE_PRESENT) != 0
  {
    FrameOnly(UnsetBit(entry, PAGE_PRESENT), entry);
    NoReservedBits(UnsetBit(entry, PAGE_PRESENT), entry);
    FrameBits(entry);
  }

  // ---------------------------------------------------------------- virtual page numbers

  predicate UserAddress(uva: nat) {
    uva < 0x40_0000_0000
  }

  predicate UserPage(uva: nat) {
    UserAddress(uva) && uva % PAGE_SIZE == 0
  }

  function PageOf(uva: nat): nat {
    uva - uva % PAGE_SIZE
  }

  function Vpn2(uva: nat): nat { uva % 0x80_0000_0000 / 0x4000_0000 }
  function Vpn1(uva: nat): nat { uva % 0x80_0000_0000 / 0x20_0000 % 512 }
  function Vpn0(uva: nat): nat { uva % 0x80_0000_0000 / 0x1000 % 512 }

  function UvaFromVpns(vpn2: nat, vpn1: nat, vpn0: nat): nat {
    ((vpn2 * 512 + vpn1) * 512 + vpn0) * PAGE_SIZE
  }

  /** get_uva_from_vpns undoes the split of an address into its three page numbers ... */
  lemma VpnJoin(uva: nat)
    requires UserAddress(uva)
    ensures UvaFromVpns(Vpn2(uva), Vpn1(uva), Vpn0(uva)) == uva - uva % PAGE_SIZE
    ensures Vpn2(uva) < 256 && Vpn1(uva) < 512 && Vpn0(uva) < 512
  {
    assert uva / 0x4000_0000 == uva / 0x1000 / 512 / 512;
    assert uva / 0x20_0000 == uva / 0x1000 / 512;
  }

  /** ... and the split undoes the join. */
  lemma VpnSplit(vpn2: nat, vpn1: nat, vpn0: nat)
    requires vpn2 < 256 && vpn1 < 512 && vpn0 < 512
    ensures var uva := UvaFromVpns(vpn2, vpn1, vpn0);
            UserPage(uva) && Vpn2(uva) == vpn2 && Vpn1(uva) == vpn1 && Vpn0(uva) == vpn0
  {
    var uva := UvaFromVpns(vpn2, vpn1, vpn0);
    assert uva / 0x1000 == (vpn2 * 512 + vpn1) * 512 + vpn0;
    assert uva / 0x20_0000 == vpn2 * 512 + vpn1;
    assert uva / 0x4000_0000 == vpn2;
  }

  // ---------------------------------------------------------------- the walk

  function At(mem: Memory, page: nat, i: nat): nat {
    if page in mem && i < |mem[page]| then mem[page][i] else 0
  }

  function Put(mem: Memory, page: nat, i: nat, word: nat): Memory
    requires page in mem && i < |mem[page]|
  {
    var words: seq<nat> := mem[page][i := word];
    mem[page := words]
  }

  /** The leaf PTE of uva under root, or 0 when the walk meets an empty entry. */
  function Entry(mem: Memory, root: nat, uva: nat): nat {
    var e2 := At(mem, root, Vpn2(uva));
    if e2 == 0 then 0 else
    var e1 := At(mem, PteKva(e2), Vpn1(uva));
    if e1 == 0 then 0 else
    At(mem, PteKva(e1), Vpn0(uva))
  }

  /** How many tables map_uva_to_kva has to allocate before it can store the leaf PTE. */
  function TablesMissing(mem: Memory, root: nat, uva: nat): nat {
    var e2 := At(mem, root, Vpn2(uva));
    if e2 == 0 then 2 else
    if At(mem, PteKva(e2), Vpn1(uva)) == 0 then 1 else 0
  }

  /** What a table page is for: Middle hangs below entry i of a root, Leaf below entry j of a Middle. */
  datatype Role = Root | Middle(root: nat, i: nat) | Leaf(middle: nat, j: nat)

  type Tables = map<nat, Role>

  ghost predicate ParentOk(mem: Memory, tables: Tables, t: nat)
    requires t in tables && IsPage(t)
  {
    match tables[t]
    case Root => true
    case Middle(r, i) =>
      && r in tables && tables[r] == Root && i < 256
      && At(mem, r, i) == MakePte(t, PAGE_PRESENT)
    case Leaf(m, j) =>
      && m in tables && tables[m].Middle? && j < 512
      && At(mem, m, j) == MakePte(t, PAGE_PRESENT)
  }

  /** A non-zero entry of a root (user half) or middle table leads to the table hanging there. */
  ghost predicate ChildOk(mem: Memory, tables: Tables, t: nat, i: nat)
    requires t in tables
  {
    At(mem, t, i) != 0 ==>
      var c := PteKva(At(mem, t, i));
      match tables[t]
      case Root => i < 256 ==> c in tables && tables[c] == Middle(t, i)
      case Middle(_, _) => c in tables && tables[c] == Leaf(t, i)
      case Leaf(_, _) => true
  }

  /** The tables form trees: every table has one parent entry, and entries only lead to tables. */
  ghost predicate TablesOk(mem: Memory, tables: Tables) {
    && (forall t | t in tables :: IsPage(t) && t in mem && |mem[t]| == WORDS_PER_PAGE)
    && (forall t | t in tables :: ParentOk(mem, tables, t))
    && (forall t, i: nat | t in tables && i < WORDS_PER_PAGE :: ChildOk(mem, tables, t, i))
  }

  ghost predicate IsRoot(tables: Tables, root: nat) {
    root in tables && tables[root] == Root
  }

  /** Every leaf PTE of every root is the same in both memories. */
  ghost predicate SameEntries(mem: Memory, mem': Memory, tables: Tables) {
    forall r: nat, u: nat | IsRoot(tables, r) && UserAddress(u) :: Entry(mem', r, u) == Entry(mem, r, u)
  }

  /** Writes outside the tables do not disturb any translation. */
  lemma TablesFrame(mem: Memory, mem': Memory, tables: Tables)
    requires TablesOk(mem, tables)
    requires forall t | t in tables :: t in mem' && mem'[t] == mem[t]
    ensures TablesOk(mem', tables)
    ensures SameEntries(mem, mem', tables)
    ensures forall r: nat, u: nat | IsRoot(tables, r) && UserAddress(u) :: TablesMissing(mem', r, u) == TablesMissing(mem, r, u)
  {
    forall t, i: nat | t in tables && i < WORDS_PER_PAGE
      ensures ChildOk(mem', tables, t, i)
    {
      assert ChildOk(mem, tables, t, i);
    }
    forall t | t in tables
      ensures ParentOk(mem', tables, t)
    {
      assert ParentOk(mem, tables, t);
    }
    forall r: nat, u: nat | IsRoot(tables, r) && UserAddress(u)
      ensures Entry(mem', r, u) == Entry(mem, r, u)
      ensures TablesMissing(mem', r, u) == TablesMissing(mem, r, u)
    {
      WalkStaysInTables(mem, tables, r, u);
    }
  }

  /** The pages a walk visits are the tables that hang on the path of the address. */
  lemma WalkStaysInTables(mem: Memory, tables: Tables, r: nat, u: nat)
    requires TablesOk(mem, tables) && IsRoot(tables, r) && UserAddress(u)
    ensures Vpn2(u) < 256 && Vpn1(u) < 512 && Vpn0(u) < 512
    ensures var e2 := At(mem, r, Vpn2(u));
            e2 != 0 ==>
              var m := PteKva(e2);
              && m in tables && tables[m] == Middle(r, Vpn2(u))
              && var e1 := At(mem, m, Vpn1(u));
                 e1 != 0 ==> PteKva(e1) in tables && tables[PteKva(e1)] == Leaf(m, Vpn1(u))
  {
    VpnJoin(u);
    assert ChildOk(mem, tables, r, Vpn2(u));
    var e2 := At(mem, r, Vpn2(u));
    if e2 != 0 {
      assert ChildOk(mem, tables, PteKva(e2), Vpn1(u));
    }
  }

  function ChildRole(tables: Tables, t: nat, i: nat): Role
    requires t in tables && !tables[t].Leaf?
  {
    if tables[t] == Root then Middle(t, i) else Leaf(t, i)
  }

  /** Hanging a fresh zeroed page into an empty entry keeps the trees and every translation. */
  lemma LinkTable(mem: Memory, tables: Tables, t: nat, i: nat, c: nat)
    requires TablesOk(mem, tables) && t in tables && !tables[t].Leaf?
    requires i < WORDS_PER_PAGE && (tables[t] == Root ==> i < 256) && mem[t][i] == 0
    requires IsPage(c) && c !in tables && c in mem && mem[c] == ZeroPage()
    ensures var mem' := Put(mem, t, i, MakePte(c, PAGE_PRESENT));
            var tables' := tables[c := ChildRole(tables, t, i)];
            TablesOk(mem', tables') && SameEntries(mem, mem', tables')
  {
    var pte := MakePte(c, PAGE_PRESENT);
    var mem' := Put(mem, t, i, pte);
    var tables' := tables[c := ChildRole(tables, t, i)];
    PteRoundTrip(c, PAGE_PRESENT);
    forall x | x in tables'
      ensures ParentOk(mem', tables', x)
    {
      if x != c {
        assert ParentOk(mem, tables, x);
        PteRoundTrip(x, PAGE_PRESENT);
      }
    }
    forall x, j: nat | x in tables' && j < WORDS_PER_PAGE
      ensures ChildOk(mem', tables', x, j)
    {
      if x != c && (x != t || j != i) {
        assert ChildOk(mem, tables, x, j);
      }
    }
    forall r: nat, u: nat | IsRoot(tables', r) && UserAddress(u)
      ensures Entry(mem', r, u) == Entry(mem, r, u)
    {
      WalkStaysInTables(mem, tables, r, u);
    }
  }

  /** The leaf table the walk of u ends in, when the path exists. */
  function LeafOf(mem: Memory, r: nat, u: nat): nat {
    PteKva(At(mem, PteKva(At(mem, r, Vpn2(u))), Vpn1(u)))
  }

  /** Two walks end in the same leaf entry only for the same page of the same root. */
  lemma WalkInjective(mem: Memory, tables: Tables, r: nat, u: nat, r': nat, u': nat)
    requires TablesOk(mem, tables) && IsRoot(tables, r) && IsRoot(tables, r')
    requires UserAddress(u) && UserAddress(u')
    requires TablesMissing(mem, r, u) == 0 && TablesMissing(mem, r', u') == 0
    requires LeafOf(mem, r, u) == LeafOf(mem, r', u') && Vpn0(u) == Vpn0(u')
    ensures r == r' && u / PAGE_SIZE == u' / PAGE_SIZE
  {
    WalkStaysInTables(mem, tables, r, u);
    WalkStaysInTables(mem, tables, r', u');
    VpnJoin(u);
    VpnJoin(u');
  }

  /** Storing a leaf PTE changes the translation of that one page of that one root. */
  lemma StoreLeaf(mem: Memory, tables: Tables, root: nat, uva: nat, pte: nat)
    requires TablesOk(mem, tables) && IsRoot(tables, root) && UserAddress(uva)
    requires TablesMissing(mem, root, uva) == 0
    ensures LeafOf(mem, root, uva) in tables && Vpn0(uva) < WORDS_PER_PAGE
    ensures var l := LeafOf(mem, root, uva);
            var mem' := Put(mem, l, Vpn0(uva), pte);
            && TablesOk(mem', tables)
            && (forall r: nat, u: nat | IsRoot(tables, r) && UserAddress(u) ::
                  && TablesMissing(mem', r, u) == TablesMissing(mem, r, u)
                  && Entry(mem', r, u) ==
                     if r == root && u / PAGE_SIZE == uva / PAGE_SIZE then pte else Entry(mem, r, u))
  {
    WalkStaysInTables(mem, tables, root, uva);
    var l := LeafOf(mem, root, uva);
    var mem' := Put(mem, l, Vpn0(uva), pte);
    forall t | t in tables
      ensures ParentOk(mem', tables, t)
    {
      assert ParentOk(mem, tables, t);
    }
    forall t, i: nat | t in tables && i < WORDS_PER_PAGE
      ensures ChildOk(mem', tables, t, i)
    {
      assert ChildOk(mem, tables, t, i);
    }
    forall r: nat, u: nat | IsRoot(tables, r) && UserAddress(u)
      ensures TablesMissing(mem', r, u) == TablesMissing(mem, r, u)
      ensures Entry(mem', r, u) ==
              if r == root && u / PAGE_SIZE == uva / PAGE_SIZE then pte else Entry(mem, r, u)
    {
      WalkStaysInTables(mem, tables, r, u);
      SamePageSameVpns(u, uva);
      if TablesMissing(mem, r, u) == 0 && LeafOf(mem, r, u) == l && Vpn0(u) == Vpn0(uva) {
        WalkInjective(mem, tables, r, u, root, uva);
      }
    }
  }

  lemma SamePageSameVpns(u: nat, u': nat)
    requires UserAddress(u) && UserAddress(u')
    ensures u / PAGE_SIZE == u' / PAGE_SIZE ==> Vpn2(u) == Vpn2(u') && Vpn1(u) == Vpn1(u') && Vpn0(u) == Vpn0(u')
  {
    assert u / 0x4000_0000 == u / 0x1000 / 0x4_0000 && u' / 0x4000_0000 == u' / 0x1000 / 0x4_0000;
    assert u / 0x20_0000 == u / 0x1000 / 0x200 && u' / 0x20_0000 == u' / 0x1000 / 0x200;
  }

  /** All addresses of a page walk to the same leaf PTE. */
  lemma EntryOfPage(mem: Memory, root: nat, uva: nat)
    requires UserAddress(uva)
    ensures UserPage(PageOf(uva))
    ensures Entry(mem, root, uva) == Entry(mem, root, PageOf(uva))
    ensures TablesMissing(mem, root, uva) == TablesMissing(mem, root, PageOf(uva))
    ensures LeafOf(mem, root, uva) == LeafOf(mem, root, PageOf(uva)) && Vpn0(uva) == Vpn0(PageOf(uva))
  {
    assert PageOf(uva) / PAGE_SIZE == uva / PAGE_SIZE;
    SamePageSameVpns(uva, PageOf(uva));
  }

  /** A fresh zeroed page becomes a root with nothing mapped. */
  lemma NewRoot(mem: Memory, tables: Tables, c: nat)
    requires TablesOk(mem, tables) && IsPage(c) && c !in tables && c in mem && mem[c] == ZeroPage()
    ensures TablesOk(mem, tables[c := Root])
    ensures forall u: nat | UserAddress(u) :: Entry(mem, c, u) == 0
  {
    var tables' := tables[c := Root];
    forall t | t in tables'
      ensures ParentOk(mem, tables', t)
    {
      assert t != c ==> ParentOk(mem, tables, t);
    }
    forall t, i: nat | t in tables' && i < WORDS_PER_PAGE
      ensures ChildOk(mem, tables', t, i)
    {
      assert t != c ==> ChildOk(mem, tables, t, i);
    }
  }

  /** Entries of the kernel half of a root take no part in user translations. */
  lemma StoreKernelEntry(mem: Memory, tables: Tables, root: nat, i: nat, word: nat)
    requires TablesOk(mem, tables) && IsRoot(tables, root) && 256 <= i < WORDS_PER_PAGE
    ensures TablesOk(Put(mem, root, i, word), tables)
    ensures SameEntries(mem, Put(mem, root, i, word), tables)
  {
    var mem' := Put(mem, root, i, word);
    forall t | t in tables
      ensures ParentOk(mem', tables, t)
    {
      assert ParentOk(mem, tables, t);
    }
    forall t, j: nat | t in tables && j < WORDS_PER_PAGE
      ensures ChildOk(mem', tables, t, j)
    {
      assert ChildOk(mem, tables, t, j);
    }
    forall r: nat, u: nat | IsRoot(tables, r) && UserAddress(u)
      ensures Entry(mem', r, u) == Entry(mem, r, u)
    {
      WalkStaysInTables(mem, tables, r, u);
    }
  }
}
