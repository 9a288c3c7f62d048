/**
 The bit expressions of arch/riscv/include/pgtable.h and of the walk in kernel/mm/mm.c, word for
 word on 64-bit words, with the laws that module PageTable states in arithmetic.
 */
module PteBits {

  type Word = bv64

  const PAGE_PRESENT: Word := 1
  const KERNEL_VM_OFFSET: Word := 0xffff_ffc0_0000_0000
  const PTE_PPN_AND_ATTR_MASK: Word := 0x3f_ffff_ffff_ffff
  const VA_MASK: Word := 0x7f_ffff_ffff

  function Kva2Pa(kva: Word): Word { kva - KERNEL_VM_OFFSET }
  function Pa2Kva(pa: Word): Word { pa + KERNEL_VM_OFFSET }
  function GetPa(entry: Word): Word { ((entry & PTE_PPN_AND_ATTR_MASK) >> 10) << 12 }
  function SetPfn(pfn: Word): Word { 0 | (pfn << 10) }
  function SetAttribute(entry: Word, bits: Word): Word { entry | bits }
  function UnsetAttribute(entry: Word, bits: Word): Word { entry & !bits }

  function Vpn2(uva: Word): Word { (uva & VA_MASK) >> 30 }
  function Vpn1(uva: Word): Word { ((uva & VA_MASK) >> 21) & 0x1ff }
  function Vpn0(uva: Word): Word { ((uva & VA_MASK) >> 12) & 0x1ff }
  function UvaFromVpns(vpn2: Word, vpn1: Word, vpn0: Word): Word { ((vpn2 << 18) | (vpn1 << 9) | vpn0) << 12 }

  /** Whatever page-aligned kernel address is mapped, with whatever attributes, is found again. */
  lemma PackUnpack(kva: Word, bits: Word)
    requires kva & 0xfff == 0 && kva >= KERNEL_VM_OFFSET && bits & !0x3ff == 0
    ensures var entry := SetAttribute(SetPfn(Kva2Pa(kva) >> 12), bits);
            Pa2Kva(GetPa(entry)) == kva && entry & 0x3ff == bits
  {
  }

  /** Attribute bits and frame do not disturb each other. */
  lemma SetKeepsFrame(entry: Word, bits: Word)
    requires bits & !0x3ff == 0
    ensures GetPa(SetAttribute(entry, bits)) == GetPa(entry)
  {
  }

  lemma UnsetKeepsFrame(entry: Word, bits: Word)
    requires bits & !0x3ff == 0
    ensures GetPa(UnsetAttribute(entry, bits)) == GetPa(entry)
  {
  }

  /** A mapped user page stays distinguishable from an unmapped one when its present bit goes. */
  lemma UnsetPresentNonZero(kva: Word)
    requires kva & 0xfff == 0 && kva > KERNEL_VM_OFFSET
    ensures UnsetAttribute(SetAttribute(SetPfn(Kva2Pa(kva) >> 12), PAGE_PRESENT), PAGE_PRESENT) != 0
  {
  }

  lemma JoinSplit(uva: Word)
    ensures UvaFromVpns(Vpn2(uva), Vpn1(uva), Vpn0(uva)) == uva & VA_MASK & !0xfff
    ensures Vpn2(uva) < 512 && Vpn1(uva) < 512 && Vpn0(uva) < 512
  {
  }

  lemma SplitJoin(vpn2: Word, vpn1: Word, vpn0: Word)
    requires vpn2 < 512 && vpn1 < 512 && vpn0 < 512
    ensures var uva := UvaFromVpns(vpn2, vpn1, vpn0);
            Vpn2(uva) == vpn2 && Vpn1(uva) == vpn1 && Vpn0(uva) == vpn0
  {
  }

  /** The or with the page offset in get_kva_of_uva is an addition: the two have no bit in common. */
  lemma OffsetOr(entry: Word, uva: Word)
    ensures GetPa(entry) | (uva & 0xfff) == GetPa(entry) + (uva & 0xfff)
  {
  }
}
