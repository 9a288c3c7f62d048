/**
 The translation of user accesses that the hardware performs in Sv39 mode, as the RISC-V privileged
 architecture defines it, and its view of the kernel's page tables. The hardware sets the accessed and
 dirty bits by itself or leaves them alone; they take no part in the result.
 */
module Sv39 {
  import opened Arithmetic
  import opened PageTable

  datatype Access = ReadAccess | WriteAccess | ExecAccess

  datatype Translation = Fault | Mapped(pa: nat)

  /** How much memory an entry of the level covers. */
  function Span(level: nat): nat
    requires level <= 2
  {
    match level case 0 => 0x1000 case 1 => 0x20_0000 case 2 => 0x4000_0000
  }

  predicate IsValid(e: nat) { e % 2 == 1 }
  predicate Readable(e: nat) { e / 2 % 2 == 1 }
  predicate Writable(e: nat) { e / 4 % 2 == 1 }
  predicate Executable(e: nat) { e / 8 % 2 == 1 }
  predicate ForUser(e: nat) { e / 16 % 2 == 1 }

  function Frame(e: nat): nat { e / 1024 % 0x1000_0000_0000 * 0x1000 }

  predicate Allows(e: nat, access: Access) {
    match access
    case ReadAccess => Readable(e)
    case WriteAccess => Writable(e)
    case ExecAccess => Executable(e)
  }

  /**
   The walk from the table at the kernel address page on: an invalid entry, one with reserved bits or the
   reserved rights, a pointer on the last level, a misaligned superpage and missing rights are faults.
   */
  function Walk(mem: Memory, page: nat, va: nat, access: Access, level: nat): Translation
    requires level <= 2
    decreases level
  {
    var e := At(mem, page, va / Span(level) % 512);
    if !IsValid(e) || (Writable(e) && !Readable(e)) || e >= 0x40_0000_0000_0000 then Fault
    else if !Readable(e) && !Executable(e) then
      if level == 0 then Fault else Walk(mem, Frame(e) + KERNEL_VM_OFFSET, va, access, level - 1)
    else if !ForUser(e) || !Allows(e, access) || Frame(e) % Span(level) != 0 then Fault
    else Mapped(Frame(e) + va % Span(level))
  }

  /** satp names the root table. */
  function Translate(mem: Memory, root: nat, va: nat, access: Access): Translation {
    Walk(mem, root, va, access, 2)
  }

  // ---------------------------------------------------------------- the kernel's entries as the hardware reads them

  lemma PointerBits(e: nat)
    requires e % 1024 == 1
    ensures IsValid(e) && !Readable(e) && !Writable(e) && !Executable(e)
  {
    var q := e / 1024;
    assert e == 1024 * q + 1;
    DivUnique(e, 2, 512 * q, 1);
    DivUnique(e, 4, 256 * q, 1);
    DivUnique(e, 8, 128 * q, 1);
  }

  lemma LeafBits(e: nat, access: Access)
    requires UserRights(e)
    ensures Readable(e) && Writable(e) && Executable(e) && ForUser(e) && Allows(e, access)
  {
    var q, v := e / 64, e % 2;
    LowSix(e);
    assert e % 64 / 2 == 15 && e == 64 * q + 30 + v;
    LeafWord(2 * q, v);
  }

  lemma LeafWord(q: nat, v: nat)
    requires v < 2
    ensures var e := 32 * q + 30 + v; Readable(e) && Writable(e) && Executable(e) && ForUser(e)
  {
    var e := 32 * q + 30 + v;
    DivUnique(e, 2, 16 * q + 15, v);
    DivUnique(e, 4, 8 * q + 7, 2 + v);
    DivUnique(e, 8, 4 * q + 3, 6 + v);
    DivUnique(e, 16, 2 * q + 1, 14 + v);
    DivUnique(16 * q + 15, 2, 8 * q + 7, 1);
    DivUnique(8 * q + 7, 2, 4 * q + 3, 1);
    DivUnique(4 * q + 3, 2, 2 * q + 1, 1);
    DivUnique(2 * q + 1, 2, q, 1);
  }

  lemma FrameIs(e: nat)
    ensures Frame(e) == GetPa(e)
  {
    FrameBits(e);
  }

  /** The hardware splits an address as the kernel does. */
  lemma SameIndices(va: nat)
    requires UserAddress(va)
    ensures va / Span(2) % 512 == Vpn2(va) && va / Span(1) % 512 == Vpn1(va) && va / Span(0) % 512 == Vpn0(va)
  {
    assert va % 0x80_0000_0000 == va && va / 0x4000_0000 < 256;
  }

  /** A pointer of the kernel leads the hardware to the same table. */
  lemma FollowsPointer(mem: Memory, page: nat, va: nat, access: Access, level: nat, c: nat)
    requires 0 < level <= 2 && IsPage(c) && At(mem, page, va / Span(level) % 512) == MakePte(c, PAGE_PRESENT)
    ensures Walk(mem, page, va, access, level) == Walk(mem, c, va, access, level - 1)
  {
    var e := MakePte(c, PAGE_PRESENT);
    PteRoundTrip(c, PAGE_PRESENT);
    PointerBits(e);
    FrameIs(e);
    hide Walk, IsValid, Readable, Writable, Executable, PteKva;
  }

  lemma EmptyEntry(mem: Memory, page: nat, va: nat, access: Access, level: nat)
    requires level <= 2 && At(mem, page, va / Span(level) % 512) % 2 == 0
    ensures Walk(mem, page, va, access, level) == Fault
  {
  }

  lemma LastLevel(mem: Memory, page: nat, va: nat, access: Access, e: nat)
    requires At(mem, page, va / Span(0) % 512) == e && e % 2 == 1 && UserLeaf(e)
    ensures Walk(mem, page, va, access, 0) == Mapped(GetPa(e) + va % PAGE_SIZE)
  {
    LeafBits(e, access);
    FrameIs(e);
    hide GetPa, Frame, Readable, Writable, Executable, ForUser, Allows;
    assert Frame(e) % 0x1000 == 0 by {
      FrameBits(e);
    }
  }

  /**
   The hardware finds what the kernel's own walk finds: a fault where the leaf entry is missing or not
   present, and the frame of the entry where it is a user page's.
   */
  lemma HardwareWalk(mem: Memory, tables: Tables, root: nat, va: nat, access: Access)
    requires TablesOk(mem, tables) && IsRoot(tables, root) && UserAddress(va)
    ensures var e := Entry(mem, root, va);
            && (!Present(e) ==> Translate(mem, root, va, access) == Fault)
            && (Present(e) && UserLeaf(e) ==>
                  Translate(mem, root, va, access) == Mapped(GetPa(e) + va % PAGE_SIZE))
  {
    WalkStaysInTables(mem, tables, root, va);
    SameIndices(va);
    var e2 := At(mem, root, Vpn2(va));
    if e2 == 0 {
      EmptyEntry(mem, root, va, access, 2);
      return;
    }
    var m := PteKva(e2);
    assert ParentOk(mem, tables, m);
    FollowsPointer(mem, root, va, access, 2, m);
    var e1 := At(mem, m, Vpn1(va));
    if e1 == 0 {
      EmptyEntry(mem, m, va, access, 1);
      return;
    }
    var l := PteKva(e1);
    assert ParentOk(mem, tables, l);
    FollowsPointer(mem, m, va, access, 1, l);
    var e := At(mem, l, Vpn0(va));
    hide Walk, UserRights, GetPa, PteKva, TablesOk;
    if !Present(e) {
      EmptyEntry(mem, l, va, access, 0);
    } else if UserLeaf(e) {
      LastLevel(mem, l, va, access, e);
    }
  }
}
