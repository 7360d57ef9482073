/** Two-level page tables as the processor walks them (Intel SDM Volume 3A, section 4.3, 32-bit paging with CR4.PSE
    clear) and as kernel/memory.c addresses them through the directory entry that points to the directory. */
module Paging {
  import opened Basics

  const TOP: int := 0x1_0000_0000

  /** Physical memory is a sequence of 32-bit words; `a` is the address of one of them. */
  predicate InRam(ram: seq<int>, a: int) { 0 <= a && a % 4 == 0 && a / 4 < |ram| }

  predicate Present(entry: int) { entry % 2 == 1 }

  /** Bits 31..12 of an entry. */
  function FrameOf(entry: int): int { entry - entry % PAGE }

  function PdeIdx(v: int): int { v / 0x40_0000 }
  function PteIdx(v: int): int { v / PAGE % 1024 }

  predicate Address(v: int) { 0 <= v < TOP }

  /** Where the walk finds v's page-directory entry, and its page-table entry once that one is present. */
  function PdeAt(dir: int, v: int): int { dir + 4 * PdeIdx(v) }
  function PteAt(pde: int, v: int): int { FrameOf(pde) + 4 * PteIdx(v) }

  /** The hardware walk. */
  function Walk(ram: seq<int>, dir: int, v: int): Option<int> {
    if !InRam(ram, PdeAt(dir, v)) then None
    else
      var pde := ram[PdeAt(dir, v) / 4];
      if !Present(pde) || !InRam(ram, PteAt(pde, v)) then None
      else
        var pte := ram[PteAt(pde, v) / 4];
        if !Present(pte) then None else Some(FrameOf(pte) + v % PAGE)
  }

  // ------------------------------------------------------ address arithmetic of memory.c

  function PtePtr(v: int): int { 0xffc0_0000 + v / 0x40_0000 * 0x1000 + PteIdx(v) * 4 }

  function PdePtr(v: int): int { 0xffff_f000 + PdeIdx(v) * 4 }

  /** addr_v2p(vaddr), given what reading *pte_ptr(vaddr) yields. */
  function AddrV2P(pte: int, v: int): int { FrameOf(pte) + v % PAGE }

  /** Entry 1023 of the directory points to the directory. */
  predicate SelfMapped(ram: seq<int>, dir: int) {
    && 0 <= dir && dir % PAGE == 0 && InRam(ram, dir + 4092)
    && Present(ram[(dir + 4092) / 4]) && FrameOf(ram[(dir + 4092) / 4]) == dir
  }

  lemma PtePtrIndices(v: int)
    requires Address(v)
    ensures Address(PtePtr(v)) && PdeIdx(PtePtr(v)) == 1023
    ensures PteIdx(PtePtr(v)) == PdeIdx(v) && PtePtr(v) % PAGE == 4 * PteIdx(v)
  {
    var d, t := v / 0x40_0000, PteIdx(v);
    assert PtePtr(v) == 0xffc0_0000 + d * 0x1000 + t * 4;
    assert PtePtr(v) / PAGE == 0xffc00 + d;
  }

  /** Walking pte_ptr(v) leads to the word that holds v's page-table entry. */
  lemma PtePtrReachesPte(ram: seq<int>, dir: int, v: int)
    requires Address(v) && SelfMapped(ram, dir)
    requires Present(ram[PdeAt(dir, v) / 4])
    ensures Walk(ram, dir, PtePtr(v)) == Some(PteAt(ram[PdeAt(dir, v) / 4], v))
  {
    PtePtrIndices(v);
  }

  /** Walking pde_ptr(v) leads to the word that holds v's page-directory entry. */
  lemma PdePtrReachesPde(ram: seq<int>, dir: int, v: int)
    requires Address(v) && SelfMapped(ram, dir)
    ensures Walk(ram, dir, PdePtr(v)) == Some(PdeAt(dir, v))
  {
    assert PdeIdx(PdePtr(v)) == 1023 && PteIdx(PdePtr(v)) == 1023 && PdePtr(v) % PAGE == 4 * PdeIdx(v);
  }

  /** pde_ptr is pte_ptr applied twice. */
  lemma PdePtrIsPtePtrTwice(v: int)
    requires Address(v)
    ensures PdePtr(v) == PtePtr(PtePtr(v))
  {
    PtePtrIndices(v);
  }

  /** addr_v2p, reading through the self-map, agrees with the walk for every mapped address. */
  lemma AddrV2PIsWalk(ram: seq<int>, dir: int, v: int, p: int)
    requires Address(v) && SelfMapped(ram, dir) && Walk(ram, dir, v) == Some(p)
    ensures var a := Walk(ram, dir, PtePtr(v));
            a.Some? && InRam(ram, a.value) && AddrV2P(ram[a.value / 4], v) == p
  {
    PtePtrReachesPte(ram, dir, v);
  }
}
