/** What the entries permit: section 4.6 of the Intel SDM, Volume 3A, and the words that the code puts into entries. */
module PageAccess {
  import opened Basics
  import opened Paging
  import opened MemoryModel
  import opened MemoryInvariants
  import opened MemorySafety
  import opened MemoryAllocation
  import MemoryRuns
  import opened MemoryTheorems
  import opened MachineFacts

  /** The two entries that the walk of v goes through. */
  function PdeOf(ram: seq<int>, dir: int, v: int): int
    requires InRam(ram, PdeAt(dir, v))
  {
    ram[PdeAt(dir, v) / 4]
  }

  function PteOf(ram: seq<int>, dir: int, v: int): int
    requires InRam(ram, PdeAt(dir, v)) && InRam(ram, PteAt(PdeOf(ram, dir, v), v))
  {
    ram[PteAt(PdeOf(ram, dir, v), v) / 4]
  }

  /** A program in user mode may use v: U/S, bit 2, is set in both entries. */
  predicate UserAccess(ram: seq<int>, dir: int, v: int)
    requires Walk(ram, dir, v).Some?
  {
    PdeOf(ram, dir, v) / 4 % 2 == 1 && PteOf(ram, dir, v) / 4 % 2 == 1
  }

  /** It may write there: R/W, bit 1, is set in both entries. */
  predicate WriteAccess(ram: seq<int>, dir: int, v: int)
    requires Walk(ram, dir, v).Some?
  {
    PdeOf(ram, dir, v) / 2 % 2 == 1 && PteOf(ram, dir, v) / 2 % 2 == 1
  }

  lemma BitsOf(entry: int, k: int)
    requires entry == 4096 * k + 7
    ensures entry / 4 == 2 * (512 * k) + 1 && entry / 2 == 2 * (1024 * k + 1) + 1
  {
  }

  lemma SevenBits(entry: int)
    requires entry % 4096 == 7
    ensures entry / 4 % 2 == 1 && entry / 2 % 2 == 1
  {
    var k := entry / 4096;
    BitsOf(entry, k);
    Odd(entry / 4, 512 * k);
    Odd(entry / 2, 1024 * k + 1);
  }

  lemma FlagsAreSeven(entry: int)
    requires (entry - FLAGS) % PAGE == 0
    ensures entry % 4096 == 7
  {
    var k := (entry - FLAGS) / PAGE;
    assert entry == 4096 * k + 7;
  }

  lemma EntryEndsInSeven(s: State, base: int, k: int)
    requires EntryPage(s, base) && 0 <= k < 1024 && Present(Entry(s.ram, base, k))
    requires Inv(s)
    ensures Entry(s.ram, base, k) % 4096 == 7
  {
    hide Inv, Entry, EntryPage;
    EntryFrame(s, base, k);
    FlagsAreSeven(Entry(s.ram, base, k));
  }

  /** In every run every present entry of every directory and page table is a frame with the flags user, writable and
      present. */
  lemma PresentEntries(ss: seq<State>, ops: seq<MemoryRuns.Op>, i: nat, base: int, k: int)
    requires MemoryTheorems.IsRun(ss, ops) && i < |ss|
    requires EntryPage(ss[i], base) && 0 <= k < 1024 && Present(Entry(ss[i].ram, base, k))
    ensures Entry(ss[i].ram, base, k) % 4096 == 7
  {
    MemoryTheorems.RunInv(ss, ops, i);
    hide Inv, IsRun, Entry, EntryPage;
    EntryEndsInSeven(ss[i], base, k);
  }

  lemma WalkedEntries(s: State, d: int, v: int)
    requires d in s.dirs && Address(v) && Walk(s.ram, d, v).Some?
    requires Inv(s)
    ensures PdeOf(s.ram, d, v) % 4096 == 7 && PteOf(s.ram, d, v) % 4096 == 7
  {
    InvRegions(s);
    WalkEntries(s, d, v);
    hide Inv, Walk, Entry, Regions, PdeIdx, PteIdx;
    TableIsEntryPage(s, d, PdeIdx(v));
    EntryEndsInSeven(s, d, PdeIdx(v));
    EntryEndsInSeven(s, FrameOf(Entry(s.ram, d, PdeIdx(v))), PteIdx(v));
  }

  /** In every run every address that is translated at all, the kernel's included, may be read and written by programs
      in user mode. */
  lemma OpenToPrograms(ss: seq<State>, ops: seq<MemoryRuns.Op>, i: nat, d: int, v: int)
    requires MemoryTheorems.IsRun(ss, ops) && i < |ss| && d in ss[i].dirs && Address(v) && Walk(ss[i].ram, d, v).Some?
    ensures UserAccess(ss[i].ram, d, v) && WriteAccess(ss[i].ram, d, v)
  {
    MemoryTheorems.RunInv(ss, ops, i);
    hide Inv, IsRun, Walk;
    WalkedEntries(ss[i], d, v);
    SevenBits(PdeOf(ss[i].ram, d, v));
    SevenBits(PteOf(ss[i].ram, d, v));
  }

  // ------------------------------------------------------------------ page_table_add

  /** v is translated to `frame`, by a page-table entry with the three flags. */
  ghost predicate Maps(ram: seq<int>, dir: int, v: int, frame: int) {
    Walk(ram, dir, v) == Some(frame + v % 4096) && PteOf(ram, dir, v) == frame + 7
  }

  lemma EntryInTable(ram: seq<int>, dir: int, v: int, f: int, frame: int)
    requires Address(v) && GoodFrame(ram, dir) && GoodFrame(ram, f) && frame % PAGE == 0
    requires ram[dir / 4 + PdeIdx(v)] - FLAGS == f && ram[f / 4 + PteIdx(v)] - FLAGS == frame
    ensures Maps(ram, dir, v, frame) && PdeOf(ram, dir, v) == f + 7
  {
    FrameOfEntry(f);
    FrameOfEntry(frame);
    IndexRanges(v);
    EntryWord(ram, dir, PdeIdx(v));
    EntryWord(ram, f, PteIdx(v));
    hide PdeIdx, PteIdx, FrameOf, Present;
  }

  lemma MapsOld(ram: seq<int>, dir: int, v: int, f: int, frame: int)
    requires Address(v) && GoodFrame(ram, dir) && GoodFrame(ram, f) && f != dir && frame % PAGE == 0
    requires ram[dir / 4 + PdeIdx(v)] == f + FLAGS
    ensures 0 <= f / 4 + PteIdx(v) < |ram| && Maps(ram[f / 4 + PteIdx(v) := frame + FLAGS], dir, v, frame)
  {
    IndexRanges(v);
    OtherPageWord(dir, PdeIdx(v), f);
    var r := ram[f / 4 + PteIdx(v) := frame + FLAGS];
    assert r[dir / 4 + PdeIdx(v)] == f + FLAGS;
    hide Maps, PdeIdx, PteIdx;
    EntryInTable(r, dir, v, f, frame);
  }

  lemma MapsNew(ram: seq<int>, dir: int, v: int, f: int, frame: int)
    requires Address(v) && GoodFrame(ram, dir) && GoodFrame(ram, f) && f != dir && frame % PAGE == 0 && PdeIdx(v) < 1023
    ensures 0 <= dir / 4 + PdeIdx(v) < |ram| && 0 <= f / 4 + PteIdx(v) < |ram|
    ensures var r := ZeroPage(ram[dir / 4 + PdeIdx(v) := f + FLAGS], f)[f / 4 + PteIdx(v) := frame + FLAGS];
            Maps(r, dir, v, frame) && PdeOf(r, dir, v) == f + 7
  {
    IndexRanges(v);
    FilledWords(ram, dir, PdeIdx(v), f, PteIdx(v), f + FLAGS);
    var r1 := ZeroPage(ram[dir / 4 + PdeIdx(v) := f + FLAGS], f);
    OtherPageWord(dir, PdeIdx(v), f);
    hide Maps, PdeIdx, PteIdx, ZeroPage;
    var r := r1[f / 4 + PteIdx(v) := frame + FLAGS];
    assert r[dir / 4 + PdeIdx(v)] == f + FLAGS;
    EntryInTable(r, dir, v, f, frame);
  }

  lemma AddsToOld(s: State, v: int, f: int, frame: int)
    requires Address(v) && SelfMapped(s.ram, s.cr3) && Reachable(s.ram, s.cr3, v) && frame % PAGE == 0
    requires f == FrameOf(PdeOf(s.ram, s.cr3, v)) && PdeOf(s.ram, s.cr3, v) == f + FLAGS
    requires Present(PdeOf(s.ram, s.cr3, v)) && GoodFrame(s.ram, f) && f != s.cr3
    ensures var r := PageTableAdd(s, v, frame); r.Mapped? ==> Maps(r.s.ram, s.cr3, v, frame)
  {
    hide SelfMapped, PdeIdx, PteIdx, Maps, FrameOf, FreeBit, ZeroPage, Present;
    SelfMappedWords(s.ram, s.cr3, v);
    EntryWord(s.ram, f, PteIdx(v));
    MapsOld(s.ram, s.cr3, v, f, frame);
  }

  lemma AddsToNew(s: State, v: int, frame: int)
    requires TableReady(s, v) && |s.kernel.bits| >= 8 && frame % PAGE == 0 && !Present(PdeOf(s.ram, s.cr3, v))
    ensures var r := PageTableAdd(s, v, frame);
      r.Mapped? ==> Maps(r.s.ram, s.cr3, v, frame)
                    && PdeOf(r.s.ram, s.cr3, v) == FrameAt(s.kernel, FreeBit(s.kernel)) + 7
  {
    hide SelfMapped, PdeIdx, PteIdx, Maps, FrameOf, FreeBit, ZeroPage, Present, FrameAt, PageTableAdd;
    TableReadyParts(s, v);
    SelfMappedWords(s.ram, s.cr3, v);
    AddedWithTable(s, v, frame);
    if FreeBit(s.kernel) != -1 {
      WithTableIs(s, v, frame);
      MapsNew(s.ram, s.cr3, v, FrameAt(s.kernel, FreeBit(s.kernel)), frame);
    }
  }

  /** The directory entry of v, if present, refers to a page of entries that is not the active directory. */
  ghost predicate OldTable(s: State, v: int)
    requires InRam(s.ram, PdeAt(s.cr3, v))
  {
    var f := FrameOf(PdeOf(s.ram, s.cr3, v));
    Present(PdeOf(s.ram, s.cr3, v)) ==> GoodFrame(s.ram, f) && f != s.cr3 && PdeOf(s.ram, s.cr3, v) == f + FLAGS
  }

  lemma PageTableAddMaps(s: State, v: int, frame: int)
    requires TableReady(s, v) && |s.kernel.bits| >= 8 && frame % PAGE == 0 && OldTable(s, v)
    ensures var r := PageTableAdd(s, v, frame); r.Mapped? ==> Maps(r.s.ram, s.cr3, v, frame)
  {
    hide Maps, FrameOf, FreeBit, Present, FrameAt, PageTableAdd;
    if Present(PdeOf(s.ram, s.cr3, v)) {
      AddsToOld(s, v, FrameOf(PdeOf(s.ram, s.cr3, v)), frame);
    } else {
      AddsToNew(s, v, frame);
    }
  }

  lemma TableNotDir(s: State, e: int)
    requires 0 <= e < 1023 && Present(Entry(s.ram, s.cr3, e))
    requires Inv(s)
    ensures Entry(s.ram, s.cr3, e) - FLAGS != s.cr3
  {
    InvRegions(s);
    PresentDirEntry(s, s.cr3, e);
    if e < 768 && !BootAlias(s.cr3, e) { OwnerNotDir(s, Entry(s.ram, s.cr3, e) - FLAGS, s.cr3); }
    KernelTablePage(if 768 <= e then e else 768);
    hide Entry;
  }

  lemma InvOldTable(s: State, v: int)
    requires Address(v) && PdeIdx(v) < 1023
    requires Inv(s)
    ensures InRam(s.ram, PdeAt(s.cr3, v)) && OldTable(s, v)
  {
    ActiveDir(s);
    InvRegions(s);
    WalkEntries(s, s.cr3, v);
    hide Inv, Walk, Entry, Regions, PdeIdx, PteIdx;
    if Present(PdeOf(s.ram, s.cr3, v)) {
      TableIsEntryPage(s, s.cr3, PdeIdx(v));
      TableNotDir(s, PdeIdx(v));
    }
  }

  /** One page of malloc_page or get_a_page: if the call goes on, v is translated to the pool's first free frame. */
  lemma MapOneMaps(s: State, pf: Kind, v: int)
    requires Address(v) && PdeIdx(v) < 1023 && Reachable(s.ram, s.cr3, v)
    requires Inv(s)
    ensures var r, p := MapOne(s, pf, v), if pf.PfKernel? then s.kernel else s.user;
            r.Mapped? ==> FreeBit(p) != -1 && Maps(r.s.ram, s.cr3, v, p.start + FreeBit(p) * 4096)
  {
    hide Maps, FrameOf, FreeBit, Present, PageTableAdd, TurnReady, PdeIdx, PteIdx, TableReady, Reachable;
    var p := if pf.PfKernel? then s.kernel else s.user;
    InvTurnReady(s, v);
    TurnReadyParts(s, v);
    InvOldTable(s, v);
    assert p.start % PAGE == 0;
    hide Inv;
    if FreeBit(p) != -1 {
      var b, f := FreeBit(p), FrameAt(p, FreeBit(p));
      assert f % PAGE == 0;
      if pf.PfKernel? {
        PageTableAddMaps(s.(kernel := Take(p, b), owner := s.owner[f := Heap((v - K_HEAP_START) / PAGE)]), v, f);
      } else {
        PageTableAddMaps(s.(user := Take(p, b)), v, f);
      }
    }
  }
}
