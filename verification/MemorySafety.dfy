/** malloc_page and create_page_dir keep the books, never touch a translation, and never give a frame out twice. */
module MemorySafety {
  import opened Basics
  import opened Paging
  import opened Bitmap
  import opened MemoryModel
  import opened MemoryInvariants

  // ---------------------------------------------------------------- translations

  /** The pages the hardware walk reads entries from. */
  ghost predicate EntryPage(s: State, base: int) {
    || base in s.dirs
    || (base in s.owner && s.owner[base].Table?)
    || (0x10_1000 <= base < 0x20_0000 && base % PAGE == 0)
  }

  /** No present entry is changed. */
  ghost predicate Grows(s: State, s': State) {
    && |s'.ram| == |s.ram|
    && (forall base :: EntryPage(s, base) ==> EntryPage(s', base))
    && (forall base, k :: EntryPage(s, base) && 0 <= k < 1024 && Present(Entry(s.ram, base, k)) ==>
          Entry(s'.ram, base, k) == Entry(s.ram, base, k))
  }

  lemma GrowsTrans(a: State, b: State, c: State)
    requires Grows(a, b) && Grows(b, c)
    ensures Grows(a, c)
  {
    hide Entry, EntryPage;
  }

  /** Entry k of page base is a word of memory. */
  lemma EntryWord(ram: seq<int>, base: int, k: int)
    requires GoodFrame(ram, base) && 0 <= k < 1024
    ensures InRam(ram, base + 4 * k) && (base + 4 * k) / 4 == base / 4 + k
    ensures ram[(base + 4 * k) / 4] == Entry(ram, base, k)
  {
  }

  lemma IndexRanges(v: int)
    requires Address(v)
    ensures 0 <= PdeIdx(v) < 1024 && 0 <= PteIdx(v) < 1024
  {
  }

  /** The walk in terms of entries. */
  lemma WalkEntries(s: State, d: int, v: int)
    requires Regions(s) && Address(v) && d in s.dirs
    ensures var pde := Entry(s.ram, d, PdeIdx(v));
      && 0 <= PdeIdx(v) < 1024 && 0 <= PteIdx(v) < 1024
      && InRam(s.ram, PdeAt(d, v)) && s.ram[PdeAt(d, v) / 4] == pde
      && (Present(pde) && GoodFrame(s.ram, FrameOf(pde)) ==>
            && InRam(s.ram, PteAt(pde, v)) && s.ram[PteAt(pde, v) / 4] == Entry(s.ram, FrameOf(pde), PteIdx(v))
            && Walk(s.ram, d, v) == (if Present(Entry(s.ram, FrameOf(pde), PteIdx(v)))
                                     then Some(FrameOf(Entry(s.ram, FrameOf(pde), PteIdx(v))) + v % PAGE) else None))
      && (!Present(pde) ==> Walk(s.ram, d, v) == None)
  {
    IndexRanges(v);
    EntryWord(s.ram, d, PdeIdx(v)) by { assert GoodFrame(s.ram, d); }
    hide PdeIdx, PteIdx, Present, FrameOf, Entry, Regions;
    var pde := Entry(s.ram, d, PdeIdx(v));
    if GoodFrame(s.ram, FrameOf(pde)) { EntryWord(s.ram, FrameOf(pde), PteIdx(v)); }
    hide GoodFrame, InRam;
  }

  lemma Odd(x: int, m: int)
    requires x == 2 * m + 1
    ensures Present(x)
  {
  }

  lemma PageRemainder(x: int, k: int)
    requires x == PAGE * k + FLAGS
    ensures x % PAGE == FLAGS
  {
    assert x / PAGE == k;
  }

  lemma FrameOfEntry(f: int)
    requires f % PAGE == 0
    ensures FrameOf(f + FLAGS) == f && Present(f + FLAGS)
  {
    var k := f / PAGE;
    assert f == PAGE * k;
    PageRemainder(f + FLAGS, k);
    hide Present;
    Odd(f + FLAGS, 2048 * k + 3);
  }

  lemma KernelTablePage(e: int)
    requires 768 <= e < 1023
    ensures KernelTable(e) % PAGE == 0 && 0x10_1000 <= KernelTable(e) && KernelTable(e) + PAGE <= 0x20_0000
  {
  }

  /** The table that a present directory entry refers to. */
  lemma PresentDirEntry(s: State, d: int, e: int)
    requires DirsOk(s) && TablesOk(s) && d in s.dirs && 0 <= e < 1024 && Present(Entry(s.ram, d, e))
    ensures var t := Entry(s.ram, d, e) - FLAGS;
      if e < 768 && !BootAlias(d, e) then Owns(s.owner, t, Table(d, e))
      else if e < 1023 then t == KernelTable(if e < 768 then 768 else e)
      else t == d
  {
    hide Entry;
  }

  /** A present directory entry leads to a page of entries. */
  lemma TableIsEntryPage(s: State, d: int, e: int)
    requires Inv(s) && d in s.dirs && 0 <= e < 1024 && Present(Entry(s.ram, d, e))
    ensures var t := FrameOf(Entry(s.ram, d, e));
            EntryPage(s, t) && GoodFrame(s.ram, t) && Entry(s.ram, d, e) == t + FLAGS
  {
    InvRegions(s);
    PresentDirEntry(s, d, e);
    assert 0x20_0000 <= 4 * |s.ram|;
    hide Inv, Entry;
    var t := Entry(s.ram, d, e) - FLAGS;
    KernelTablePage(if 768 <= e < 1023 then e else 768);
    assert EntryPage(s, t) && GoodFrame(s.ram, t);
    FrameOfEntry(t);
  }

  /** Whatever was translated is translated the same. */
  lemma TranslationsKept(s: State, s': State, d: int, v: int)
    requires Inv(s) && Regions(s') && Grows(s, s') && Address(v) && d in s.dirs && d in s'.dirs
    requires Walk(s.ram, d, v).Some?
    ensures Walk(s'.ram, d, v) == Walk(s.ram, d, v)
  {
    InvRegions(s);
    WalkEntries(s, d, v);
    WalkEntries(s', d, v);
    hide Inv, Walk, Regions, Entry;
    TableIsEntryPage(s, d, PdeIdx(v));
    assert EntryPage(s, d);
  }

  // ------------------------------------------------------------------- one page

  /** What one or more mappings leave alone. */
  ghost predicate SameSpaces(s: State, s': State) {
    && s'.cr3 == s.cr3 && s'.run == s.run && s'.dirs == s.dirs && s'.heap == s.heap && s'.procs == s.procs
    && s'.kernel.start == s.kernel.start && |s'.kernel.bits| == |s.kernel.bits|
    && s'.user.start == s.user.start && |s'.user.bits| == |s.user.bits|
  }

  lemma HeapAddrIndices(i: int)
    requires 0 <= i < HEAP_ENTRIES
    ensures Address(HeapAddr(i)) && PdeIdx(HeapAddr(i)) == 768 + (256 + i) / 1024 && 768 <= PdeIdx(HeapAddr(i)) < 1023
    ensures PteIdx(HeapAddr(i)) == HeapIdx(i) && HeapAddr(i) % PAGE == 0
  {
    assert HeapAddr(i) == 0x40_0000 * 768 + PAGE * (256 + i);
  }

  lemma HeapDirEntry(s: State, d: int, i: int)
    requires DirsOk(s) && d in s.dirs && 0 <= i < HEAP_ENTRIES
    ensures Entry(s.ram, d, PdeIdx(HeapAddr(i))) == HeapTable(i) + FLAGS
  {
    HeapAddrIndices(i);
  }

  /** Every directory maps heap page i through the same entry of the same boot table. */
  lemma HeapWalk(s: State, d: int, i: int)
    requires Inv(s) && d in s.dirs && 0 <= i < HEAP_ENTRIES
    ensures var pde := Entry(s.ram, d, PdeIdx(HeapAddr(i)));
      && InRam(s.ram, PdeAt(d, HeapAddr(i))) && s.ram[PdeAt(d, HeapAddr(i)) / 4] == pde
      && Present(pde) && FrameOf(pde) == HeapTable(i) && GoodFrame(s.ram, HeapTable(i))
      && InRam(s.ram, PteAt(pde, HeapAddr(i)))
      && PteAt(pde, HeapAddr(i)) / 4 == HeapTable(i) / 4 + HeapIdx(i)
      && Walk(s.ram, d, HeapAddr(i)) == if Present(HeapPte(s.ram, i)) then Some(FrameOf(HeapPte(s.ram, i))) else None
  {
    InvRegions(s);
    assert 0x20_0000 <= 4 * |s.ram|;
    HeapDirEntry(s, d, i);
    hide Inv;
    HeapAddrIndices(i);
    HeapTables(i);
    WalkEntries(s, d, HeapAddr(i));
    FrameOfEntry(HeapTable(i));
    hide Entry, Walk, Regions, KernelTable, HeapTable, HeapIdx, HeapAddr;
  }

  ghost predicate FreshHeapPage(s: State, i: int) {
    0 <= i < HeapPages(s) && i < |s.heap| && s.heap[i] && !Present(HeapPte(s.ram, i))
  }

  lemma HeapPageNo(i: int)
    ensures (HeapAddr(i) - K_HEAP_START) / PAGE == i
  {
  }

  /** The words of heap page i's entries. */
  lemma HeapWords(s: State, i: int)
    requires Inv(s) && FreshHeapPage(s, i)
    ensures var v := HeapAddr(i);
      && Reachable(s.ram, s.cr3, v) && 0 <= HeapIdx(i) < 1024 && GoodFrame(s.ram, HeapTable(i))
      && var pde := s.ram[PdeAt(s.cr3, v) / 4];
         && Present(pde) && PteAt(pde, v) / 4 == HeapTable(i) / 4 + HeapIdx(i) && !Present(s.ram[PteAt(pde, v) / 4])
  {
    HeapWalk(s, s.cr3, i);
    HeapTables(i);
    hide Inv, HeapTable, HeapIdx, HeapAddr, PdeAt, PteAt, Walk, Present;
  }

  lemma MapOneHeap(s: State, i: int)
    requires FreshHeapPage(s, i)
    requires Inv(s)
    ensures Reachable(s.ram, s.cr3, HeapAddr(i))
    ensures MapOne(s, PfKernel, HeapAddr(i))
         == if FreeBit(s.kernel) == -1 then NoFrame(s) else Mapped(MapHeap(s, i, FreeBit(s.kernel)))
  {
    hide Inv, HeapAddr, HeapTable, HeapIdx, PdeAt, PteAt, Present, FreeBit, PageTableAdd, Reachable, GoodFrame,
      SetEntry, PoolsOk;
    InvParts(s);
    HeapWords(s, i);
    HeapPageNo(i);
    var b := FreeBit(s.kernel);
    if b != -1 {
      FreeBitRange(s.kernel);
      var f := FrameAt(s.kernel, b);
      var s1 := s.(kernel := Take(s.kernel, b), owner := s.owner[f := Heap(i)]);
      AddToTable(s1, HeapAddr(i), HeapTable(i), HeapIdx(i), f);
    }
  }

  lemma MapHeapGrows(s: State, i: int, b: int)
    requires Inv(s) && FreshHeapPage(s, i) && 0 <= b < |s.kernel.bits| - 8 && !s.kernel.bits[b]
    ensures Grows(s, MapHeap(s, i, b))
  {
    HeapTables(i);
    SetEntryAt(s.ram, HeapTable(i), HeapIdx(i), FrameAt(s.kernel, b) + FLAGS);
    InvRegions(s);
    assert FrameAt(s.kernel, b) !in s.owner;
    hide Inv, Entry, SetEntry, KernelTable;
  }

  // ----------------------------------------------------------- loops in malloc_page

  /** Pages i .. i+cnt of the heap went from unmapped to mapped, each to a frame that was free; nothing else moved. */
  ghost predicate HeapRunMapped(s: State, s': State, i: int, cnt: nat) {
    && (forall j :: 0 <= j < HeapPages(s) && !(i <= j < i + cnt) ==> HeapPte(s'.ram, j) == HeapPte(s.ram, j))
    && (forall j :: i <= j < i + cnt ==>
          var f := HeapPte(s'.ram, j) - FLAGS;
          f % PAGE == 0 && InPool(s.kernel, f) && f !in s.owner && Owns(s'.owner, f, Heap(j)))
    && (forall f :: f in s.owner ==> Owns(s'.owner, f, s.owner[f]))
    && s'.user == s.user && s'.uowner == s.uowner
  }

  ghost function FreeFrames(p: Pool): set<int> { set b | 0 <= b < |p.bits| - 8 && !p.bits[b] }

  /** palloc fails exactly on a pool without free frames, and otherwise takes one. */
  lemma FreeFramesTaken(p: Pool)
    requires |p.bits| >= 8
    ensures FreeBit(p) == -1 <==> FreeFrames(p) == {}
    ensures FreeBit(p) != -1 ==> |FreeFrames(Take(p, FreeBit(p)))| == |FreeFrames(p)| - 1
  {
    var b := FreeBit(p);
    if b == -1 {
      forall x ensures x !in FreeFrames(p) {
        if x in FreeFrames(p) { assert Run(p.bits, |p.bits| - 8, 1, x); }
      }
    } else {
      assert b in FreeFrames(p);
      assert FreeFrames(Take(p, b)) == FreeFrames(p) - {b};
    }
  }

  /** What mapping cnt fresh heap pages from page i on does: all of them, or as many as there are free frames. */
  ghost predicate HeapLoop(s: State, i: int, cnt: nat, r: MapResult) {
    var f := |FreeFrames(s.kernel)|;
    && !r.MapStops? && (r.Mapped? <==> cnt <= f)
    && HeapRunMapped(s, r.s, i, if cnt <= f then cnt else f)
    && |FreeFrames(r.s.kernel)| == if cnt <= f then f - cnt else 0
  }

  lemma OneMoreMapped(s: State, s1: State, f: int, s2: State, i: int, cnt: nat)
    requires s1.owner == s.owner[f := Heap(i)] && f !in s.owner && InPool(s.kernel, f) && f % PAGE == 0
    requires s1.user == s.user && s1.uowner == s.uowner && |s1.heap| == |s.heap|
    requires s1.kernel.start == s.kernel.start && |s1.kernel.bits| == |s.kernel.bits|
    requires 0 <= i < HeapPages(s)
    requires forall j :: 0 <= j < HeapPages(s) ==> HeapPte(s1.ram, j) == if j == i then f + FLAGS else HeapPte(s.ram, j)
    requires HeapRunMapped(s1, s2, i + 1, cnt)
    ensures HeapRunMapped(s, s2, i, cnt + 1)
  {
    hide HeapPte;
    assert HeapPte(s2.ram, i) == HeapPte(s1.ram, i);
    forall j | i <= j < i + cnt + 1
      ensures var g := HeapPte(s2.ram, j) - FLAGS;
              g % PAGE == 0 && InPool(s.kernel, g) && g !in s.owner && Owns(s2.owner, g, Heap(j))
    {
      assert j == i || (i + 1 <= j < i + 1 + cnt);
      assert f in s1.owner && Owns(s2.owner, f, s1.owner[f]);
    }
    forall g | g in s.owner ensures Owns(s2.owner, g, s.owner[g]) { assert g in s1.owner && g != f; }
  }

  lemma FreeKernelFrame(s: State, b: int)
    requires Sizes(s) && PoolsOk(s) && 0 <= b < |s.kernel.bits| - 8 && !s.kernel.bits[b]
    ensures var f := FrameAt(s.kernel, b);
            f !in s.owner && InPool(s.kernel, f) && f % PAGE == 0
  {
  }

  lemma MapHeapPtes(s: State, i: int, b: int)
    requires Sizes(s) && 0 <= i < HeapPages(s) && 0 <= b < |s.kernel.bits| - 8
    ensures forall j :: 0 <= j < HeapPages(s) ==>
              HeapPte(MapHeap(s, i, b).ram, j) == if j == i then FrameAt(s.kernel, b) + FLAGS else HeapPte(s.ram, j)
  {
    HeapTables(i);
    SetEntryAt(s.ram, HeapTable(i), HeapIdx(i), FrameAt(s.kernel, b) + FLAGS);
    forall j | 0 <= j < HeapPages(s)
      ensures HeapPte(MapHeap(s, i, b).ram, j) == if j == i then FrameAt(s.kernel, b) + FLAGS else HeapPte(s.ram, j)
    {
      HeapTables(j);
      hide Entry, SetEntry, KernelTable, HeapTable, HeapIdx;
      if HeapTable(i) == HeapTable(j) && HeapIdx(i) == HeapIdx(j) { HeapPtesApart(i, j); }
    }
  }

  /** The loop of malloc_page over fresh heap pages never stops on an ASSERT; it maps them all, or runs out of frames
      having mapped the first few. */
  lemma {:induction false} MapHeapPages(s: State, i: int, cnt: nat)
    requires Inv(s) && forall j :: i <= j < i + cnt ==> FreshHeapPage(s, j)
    ensures var r := MapPages(s, PfKernel, HeapAddr(i), cnt);
            HeapLoop(s, i, cnt, r) && Inv(r.s) && SameSpaces(s, r.s) && Grows(s, r.s)
    decreases cnt
  {
    hide Inv, FreeBit, MapOne, HeapPte, MapHeap, Grows, Reachable, FreeFrames, Take, FrameAt;
    InvParts(s);
    FreeFramesTaken(s.kernel);
    GrowsSelf(s);
    assert HeapRunMapped(s, s, i, 0);
    var b := FreeBit(s.kernel);
    if cnt > 0 {
      assert FreshHeapPage(s, i);
      MapOneHeap(s, i);
      if b != -1 {
        FreeBitIsFree(s);
        var s1 := MapHeap(s, i, b);
        HeapTurn(s, i, b);
        assert HeapAddr(i) + PAGE == HeapAddr(i + 1);
        forall j | i + 1 <= j < i + cnt ensures FreshHeapPage(s1, j) {
          assert FreshHeapPage(s, j);
          assert HeapPte(s1.ram, j) == HeapPte(s.ram, j);
        }
        MapHeapPages(s1, i + 1, cnt - 1);
        var r := MapPages(s1, PfKernel, HeapAddr(i + 1), cnt - 1);
        GrowsTrans(s, s1, r.s);
        var f := |FreeFrames(s1.kernel)|;
        OneMoreMapped(s, s1, FrameAt(s.kernel, b), r.s, i, if cnt - 1 <= f then cnt - 1 else f);
      }
    }
  }

  /** One turn of that loop. */
  lemma HeapTurn(s: State, i: int, b: int)
    requires Inv(s) && FreshHeapPage(s, i) && 0 <= b < |s.kernel.bits| - 8 && !s.kernel.bits[b]
    ensures var s1, f := MapHeap(s, i, b), FrameAt(s.kernel, b);
      && Inv(s1) && Grows(s, s1) && SameSpaces(s, s1) && s1.user == s.user && s1.uowner == s.uowner
      && s1.kernel == Take(s.kernel, b) && s1.owner == s.owner[f := Heap(i)]
      && f !in s.owner && InPool(s.kernel, f) && f % PAGE == 0
      && forall j :: 0 <= j < HeapPages(s) ==> HeapPte(s1.ram, j) == if j == i then f + FLAGS else HeapPte(s.ram, j)
  {
    MapHeapFields(s, i, b);
    MapHeapKept(s, i, b);
    MapHeapGrows(s, i, b);
    MapHeapPtes(s, i, b);
    FreeKernelFrame(s, b);
    hide Inv, Grows, HeapPte, InPool;
  }

  lemma GrowsSelf(s: State)
    ensures Grows(s, s)
  {
  }

  lemma InvParts(s: State)
    requires Inv(s)
    ensures Sizes(s) && PoolsOk(s)
  {
  }

  lemma FreeBitIsFree(s: State)
    requires Inv(s) && FreeBit(s.kernel) != -1
    ensures 0 <= FreeBit(s.kernel) < |s.kernel.bits| - 8 && !s.kernel.bits[FreeBit(s.kernel)]
  {
  }

  lemma MapHeapFields(s: State, i: int, b: int)
    requires Sizes(s) && 0 <= i < HeapPages(s) && 0 <= b < |s.kernel.bits| - 8
    ensures var s1 := MapHeap(s, i, b);
      && SameSpaces(s, s1) && s1.user == s.user && s1.uowner == s.uowner
      && s1.owner == s.owner[FrameAt(s.kernel, b) := Heap(i)]
  {
  }

  // ------------------------------------------------------------------- user pages

  /** A user page that the active directory can map without upsetting the books: the boot directory shares its first
      table with the heap, and an address pool that covers the page must have handed it out. */
  ghost predicate PlacedUserPage(s: State, page: int) {
    && 0 <= page < 768 * 1024 && !BootAlias(s.cr3, page / 1024) && PageBitSet(s, s.cr3, page)
    && (s.cr3 in s.procs || s.cr3 == BOOT_DIR)
  }

  /** Such a page that is not mapped yet. */
  ghost predicate FreshUserPage(s: State, page: int) {
    PlacedUserPage(s, page) && !UserMapped(s.uowner, s.cr3, page)
  }

  /** Page number `page` has these indices. */
  predicate PageAt(page: int, e: int, t: int) { 0 <= e < 768 && 0 <= t < 1024 && page == e * 1024 + t }

  lemma PageIndices(page: int, e: int, t: int)
    requires PageAt(page, e, t)
    ensures Address(page * PAGE) && PdeIdx(page * PAGE) == e && PteIdx(page * PAGE) == t
  {
    assert page * PAGE == 0x40_0000 * e + PAGE * t;
  }

  /** The page's directory entry and, when present, its table, which holds no entry for the page. */
  lemma UserEntries(s: State, page: int, e: int, t: int)
    requires PageAt(page, e, t)
    requires Inv(s) && FreshUserPage(s, page)
    ensures s.cr3 in s.dirs && !BootAlias(s.cr3, e) && GoodFrame(s.ram, s.cr3)
    ensures var pde := Entry(s.ram, s.cr3, e);
      Present(pde) ==>
        && Owns(s.owner, pde - FLAGS, Table(s.cr3, e)) && GoodFrame(s.ram, pde - FLAGS)
        && FrameOf(pde) == pde - FLAGS && !Present(Entry(s.ram, pde - FLAGS, t))
  {
    InvRegions(s);
    hide Entry;
    var d := s.cr3;
    var pde := Entry(s.ram, d, e);
    if Present(pde) {
      PresentDirEntry(s, d, e);
      var f := pde - FLAGS;
      FrameOfEntry(f);
      if Present(Entry(s.ram, f, t)) {
        var g := Entry(s.ram, f, t) - FLAGS;
        PageOwned(s.uowner, g, UserPage(d, e, t, f), d, page);
      }
    }
  }

  lemma PageOwned(uowner: map<int, UserPage>, g: int, u: UserPage, d: int, page: int)
    ensures Owns(uowner, g, u) && IsPage(u, d, page) ==> UserMapped(uowner, d, page)
  {
  }

  /** The result of mapping a fresh user page. */
  ghost function MappedUser(s: State, e: int, t: int): MapResult
    requires Sizes(s) && GoodFrame(s.ram, s.cr3) && 0 <= e < 768 && 0 <= t < 1024
    requires GoodFrame(s.ram, Entry(s.ram, s.cr3, e) - FLAGS) || !Present(Entry(s.ram, s.cr3, e))
  {
    var d := s.cr3;
    var pde := Entry(s.ram, d, e);
    var b, kb := FreeBit(s.user), FreeBit(s.kernel);
    if b == -1 then NoFrame(s)
    else if Present(pde) then Mapped(MapUser(s, UserPage(d, e, t, pde - FLAGS), pde - FLAGS, b))
    else if kb == -1 then MapStops(NoTableFrame)
    else
      var f := FrameAt(s.kernel, kb);
      Mapped(MapUser(AddTable(s, d, e, kb), UserPage(d, e, t, f), f, b))
  }

  /** Where the words of a user page's entries are: those of v, with indices e and t, in directory d. */
  ghost predicate EntryWords(s: State, d: int, v: int, e: int, t: int, pde: int) {
    && 0 <= e < 768 && 0 <= t < 1024 && PdeIdx(v) == e && PteIdx(v) == t
    && GoodFrame(s.ram, d) && Reachable(s.ram, d, v)
    && PdeAt(d, v) / 4 == d / 4 + e && s.ram[PdeAt(d, v) / 4] == pde
    && (Present(pde) ==>
          && GoodFrame(s.ram, pde - FLAGS) && pde - FLAGS != d && FrameOf(pde) == pde - FLAGS
          && PteAt(pde, v) / 4 == (pde - FLAGS) / 4 + t && !Present(s.ram[PteAt(pde, v) / 4])
          && PteAt(pde, v) / 4 != PdeAt(d, v) / 4)
  }

  lemma WordsOfEntries(s: State, d: int, v: int, e: int, t: int, f: int)
    requires Regions(s) && Address(v) && d in s.dirs && PdeIdx(v) == e
    requires PteIdx(v) == t && 0 <= e < 768 && 0 <= t < 1024
    requires Present(Entry(s.ram, d, e)) ==>
               && Entry(s.ram, d, e) == f + FLAGS && FrameOf(f + FLAGS) == f && GoodFrame(s.ram, f) && f != d
               && !Present(Entry(s.ram, f, t))
    ensures EntryWords(s, d, v, e, t, Entry(s.ram, d, e))
  {
    hide Walk, PdeIdx, PteIdx, Present, FrameOf;
    WalkEntries(s, d, v);
    assert GoodFrame(s.ram, d);
    if Present(Entry(s.ram, d, e)) { SameWord(d, e, f, t); }
  }

  lemma UserWords(s: State, page: int, e: int, t: int)
    requires PageAt(page, e, t)
    requires Inv(s) && FreshUserPage(s, page)
    ensures EntryWords(s, s.cr3, page * PAGE, e, t, Entry(s.ram, s.cr3, e))
    ensures s.cr3 in s.dirs
  {
    hide Entry, FreshUserPage, PdeIdx, PteIdx, EntryWords, FrameOf, Regions;
    UserEntries(s, page, e, t);
    PageIndices(page, e, t);
    assert Regions(s) by { InvRegions(s); }
    var d, v, pde := s.cr3, page * PAGE, Entry(s.ram, s.cr3, e);
    hide Inv;
    if Present(pde) { OwnerNotDir(s, pde - FLAGS, d); }
    WordsOfEntries(s, d, v, e, t, pde - FLAGS);
  }

  /** page_table_add when the table is there. */
  lemma AddToTable(s: State, v: int, f: int, t: int, frame: int)
    requires GoodFrame(s.ram, f) && 0 <= t < 1024 && Reachable(s.ram, s.cr3, v)
    requires var pde := s.ram[PdeAt(s.cr3, v) / 4];
             Present(pde) && PteAt(pde, v) / 4 == f / 4 + t && !Present(s.ram[PteAt(pde, v) / 4])
    ensures PageTableAdd(s, v, frame) == Mapped(s.(ram := SetEntry(s.ram, f, t, frame + FLAGS)))
  {
    hide PdeAt, PteAt;
  }

  /** page_table_add when it has to make a table. */
  lemma AddWithTable(s: State, v: int, e: int, t: int, frame: int)
    requires GoodFrame(s.ram, s.cr3) && Reachable(s.ram, s.cr3, v) && Sizes(s)
    requires PdeIdx(v) == e && 0 <= e < 768 && PteIdx(v) == t && 0 <= t < 1024
    requires PdeAt(s.cr3, v) / 4 == s.cr3 / 4 + e && !Present(s.ram[PdeAt(s.cr3, v) / 4])
    ensures PageTableAdd(s, v, frame)
         == if FreeBit(s.kernel) == -1 then MapStops(NoTableFrame)
            else var f := FrameAt(s.kernel, FreeBit(s.kernel));
                 var s1 := AddTable(s, s.cr3, e, FreeBit(s.kernel));
                 Mapped(s1.(ram := SetEntry(s1.ram, f, t, frame + FLAGS)))
  {
    hide PdeAt, PteAt, PdeIdx, PteIdx, FreeBit;
    if FreeBit(s.kernel) != -1 {
      FreeBitRange(s.kernel);
      assert GoodFrame(s.ram, FrameAt(s.kernel, FreeBit(s.kernel)));
    }
  }

  lemma FreeBitRange(p: Pool)
    requires FreeBit(p) != -1
    ensures 0 <= FreeBit(p) < |p.bits| - 8
  {
  }

  lemma MapOneUserPresent(s: State, page: int, e: int, t: int)
    requires PageAt(page, e, t)
    requires Inv(s) && FreshUserPage(s, page) && Present(Entry(s.ram, s.cr3, e))
    ensures GoodFrame(s.ram, s.cr3) && GoodFrame(s.ram, Entry(s.ram, s.cr3, e) - FLAGS)
    ensures Reachable(s.ram, s.cr3, page * PAGE) && MapOne(s, PfUser, page * PAGE) == MappedUser(s, e, t)
  {
    hide Inv, FreshUserPage, Entry, PdeAt, PteAt, FrameOf, PdeIdx, PteIdx, FreeBit, Reachable, MapOne, PoolsOk,
      Present, Sizes, MapUser, AddTable, MappedUser, GoodFrame;
    UserWords(s, page, e, t);
    InvParts(s);
    var f, b := Entry(s.ram, s.cr3, e) - FLAGS, FreeBit(s.user);
    if b != -1 { FreeBitRange(s.user); }
    OldTableStep(s, page * PAGE, e, t, f);
    MappedUserPresent(s, e, t, f);
  }

  lemma OldTableStep(s: State, v: int, e: int, t: int, f: int)
    requires Sizes(s) && EntryWords(s, s.cr3, v, e, t, f + FLAGS) && Present(f + FLAGS)
    ensures Reachable(s.ram, s.cr3, v) && GoodFrame(s.ram, f) && 0 <= t < 1024
    ensures MapOne(s, PfUser, v)
         == if FreeBit(s.user) == -1 then NoFrame(s)
            else Mapped(MapUser(s, UserPage(s.cr3, e, t, f), f, FreeBit(s.user)))
  {
    hide PdeAt, PteAt, FrameOf, PdeIdx, PteIdx, FreeBit, PageTableAdd, Present;
    var b := FreeBit(s.user);
    if b != -1 {
      FreeBitRange(s.user);
      AddToTable(s.(user := Take(s.user, b)), v, f, t, FrameAt(s.user, b));
    }
  }

  lemma OwnerNotDir(s: State, f: int, d: int)
    requires Inv(s) && f in s.owner && s.owner[f].Table? && d in s.dirs
    ensures f != d
  {
    InvRegions(s);
  }

  lemma MapOneUserIs(s: State, v: int, s1: State, f: int)
    requires Reachable(s.ram, s.cr3, v) && FreeBit(s.user) != -1 && |s.user.bits| >= 8
    requires var b := FreeBit(s.user);
             PageTableAdd(s.(user := Take(s.user, b)), v, FrameAt(s.user, b)) == Mapped(s1)
    requires |s1.ram| == |s.ram| && FrameOf(s1.ram[PdeAt(s.cr3, v) / 4]) == f
    ensures MapOne(s, PfUser, v)
         == var u := UserPage(s.cr3, PdeIdx(v), PteIdx(v), f);
            Mapped(s1.(uowner := s1.uowner[FrameAt(s.user, FreeBit(s.user)) := u]))
  {
  }

  lemma SameRecord(s: State, d: int, e: int, t: int, kb: int, b: int)
    requires Sizes(s) && GoodFrame(s.ram, d) && 0 <= e < 768 && 0 <= t < 1024
    requires 0 <= kb < |s.kernel.bits| - 8 && 0 <= b < |s.user.bits| && GoodFrame(s.ram, FrameAt(s.kernel, kb))
    ensures var g, f := FrameAt(s.user, b), FrameAt(s.kernel, kb);
            var s1 := AddTable(s.(user := Take(s.user, b)), d, e, kb);
            MapUser(AddTable(s, d, e, kb), UserPage(d, e, t, f), f, b)
              == s1.(ram := SetEntry(s1.ram, f, t, g + FLAGS), uowner := s.uowner[g := UserPage(d, e, t, f)])
  {
  }

  lemma NewTableStep(s: State, v: int, e: int, t: int, kb: int, b: int)
    requires Sizes(s) && EntryWords(s, s.cr3, v, e, t, Entry(s.ram, s.cr3, e)) && !Present(Entry(s.ram, s.cr3, e))
    requires b == FreeBit(s.user) && b != -1 && kb == FreeBit(s.kernel) && kb != -1
    requires 0 <= kb < |s.kernel.bits| - 8 && 0 <= b < |s.user.bits| - 8
    requires GoodFrame(s.ram, FrameAt(s.kernel, kb)) && FrameAt(s.kernel, kb) != s.cr3
    ensures Reachable(s.ram, s.cr3, v) && GoodFrame(s.ram, s.cr3) && 0 <= e < 768 && 0 <= t < 1024
    ensures var f := FrameAt(s.kernel, kb);
            MapOne(s, PfUser, v) == Mapped(MapUser(AddTable(s, s.cr3, e, kb), UserPage(s.cr3, e, t, f), f, b))
  {
    var d, g, f := s.cr3, FrameAt(s.user, b), FrameAt(s.kernel, kb);
    var s0 := s.(user := Take(s.user, b));
    hide PdeAt, PteAt, FrameOf, PdeIdx, PteIdx, FreeBit, PageTableAdd, SetEntry, ZeroPage, MapOne, Entry, Present;
    AddWithTable(s0, v, e, t, g);
    FrameOfEntry(f);
    NewPde(s.ram, d, e, f, t, g + FLAGS);
    SameRecord(s, d, e, t, kb, b);
    hide Sizes, MapUser;
    var s1 := AddTable(s0, d, e, kb);
    var s2 := s1.(ram := SetEntry(s1.ram, f, t, g + FLAGS));
    assert s2.ram[PdeAt(d, v) / 4] == f + FLAGS;
    hide AddTable;
    MapOneUserIs(s, v, s2, f);
  }

  lemma NoTableStep(s: State, v: int, e: int, t: int)
    requires Sizes(s) && EntryWords(s, s.cr3, v, e, t, Entry(s.ram, s.cr3, e)) && !Present(Entry(s.ram, s.cr3, e))
    requires FreeBit(s.user) == -1 || FreeBit(s.kernel) == -1
    ensures Reachable(s.ram, s.cr3, v)
    ensures MapOne(s, PfUser, v) == if FreeBit(s.user) == -1 then NoFrame(s) else MapStops(NoTableFrame)
  {
    var b := FreeBit(s.user);
    if b != -1 {
      FreeBitRange(s.user);
      AddWithTable(s.(user := Take(s.user, b)), v, e, t, FrameAt(s.user, b));
    }
    hide PageTableAdd, FreeBit;
  }

  lemma MapOneUserAbsent(s: State, page: int, e: int, t: int)
    requires PageAt(page, e, t)
    requires Inv(s) && FreshUserPage(s, page) && !Present(Entry(s.ram, s.cr3, e))
    ensures GoodFrame(s.ram, s.cr3)
    ensures Reachable(s.ram, s.cr3, page * PAGE) && MapOne(s, PfUser, page * PAGE) == MappedUser(s, e, t)
  {
    UserWords(s, page, e, t);
    InvParts(s);
    hide Inv, Entry, PdeAt, PteAt, FrameOf, PdeIdx, PteIdx, FreeBit, Reachable, PoolsOk, FreshUserPage, MapOne,
      Present, MapUser, AddTable;
    var d, kb, b := s.cr3, FreeBit(s.kernel), FreeBit(s.user);
    if b == -1 || kb == -1 {
      NoTableStep(s, page * PAGE, e, t);
    } else {
      FreeBitRange(s.user);
      FreeBitIsFree(s);
      FreshFrameNotDir(s, kb, d);
      NewTableStep(s, page * PAGE, e, t, kb, b);
    }
  }

  /** Filling in the new table leaves the directory entry that refers to it. */
  lemma NewPde(ram: seq<int>, d: int, e: int, f: int, t: int, x: int)
    requires GoodFrame(ram, d) && GoodFrame(ram, f) && f != d && 0 <= e < 1024 && 0 <= t < 1024
    ensures var r := SetEntry(ZeroPage(SetEntry(ram, d, e, f + FLAGS), f), f, t, x);
            |r| == |ram| && r[d / 4 + e] == f + FLAGS
  {
    OtherPageWord(d, e, f);
    var a := SetEntry(ram, d, e, f + FLAGS);
    assert |a| == |ram| && a[d / 4 + e] == f + FLAGS;
    assert ZeroPage(a, f)[d / 4 + e] == a[d / 4 + e];
    hide ZeroPage;
  }

  lemma FreshFrameNotDir(s: State, b: int, d: int)
    requires Inv(s) && 0 <= b < |s.kernel.bits| - 8 && !s.kernel.bits[b] && d in s.dirs
    ensures GoodFrame(s.ram, FrameAt(s.kernel, b)) && FrameAt(s.kernel, b) != d
  {
    FreeKernelFrame(s, b);
  }

  lemma AddTableGrows(s: State, d: int, e: int, b: int)
    requires Inv(s) && GoodFrame(s.ram, d) && 0 <= e < 768 && !Present(Entry(s.ram, d, e))
    requires 0 <= b < |s.kernel.bits| - 8 && !s.kernel.bits[b]
    ensures Grows(s, AddTable(s, d, e, b))
  {
    var f := FrameAt(s.kernel, b);
    FreeKernelFrame(s, b);
    InvRegions(s);
    assert !EntryPage(s, f);
    SetEntryAt(s.ram, d, e, f + FLAGS);
    ZeroPageAt(SetEntry(s.ram, d, e, f + FLAGS), f);
    hide Inv, Entry, SetEntry, ZeroPage;
  }

  lemma MapUserGrows(s: State, u: UserPage, f: int, b: int)
    requires Regions(s) && GoodFrame(s.ram, f) && 0 <= u.t < 1024 && 0 <= b < |s.user.bits|
    requires !Present(Entry(s.ram, f, u.t))
    ensures Grows(s, MapUser(s, u, f, b))
  {
    SetEntryAt(s.ram, f, u.t, FrameAt(s.user, b) + FLAGS);
    hide Entry, SetEntry;
  }

  /** What mapping cnt user pages from page number `page` on leaves of the books, and what it adds. */
  ghost predicate UserRunMapped(s: State, s': State, page: int, cnt: nat) {
    && (forall j :: UserMapped(s'.uowner, s.cr3, j) <==> UserMapped(s.uowner, s.cr3, j) || page <= j < page + cnt)
    && (forall f :: f in s.owner ==> Owns(s'.owner, f, s.owner[f]))
    && (forall f :: f in s'.owner && f !in s.owner ==> s'.owner[f].Table? && s'.owner[f].dir == s.cr3)
    && (forall g :: g in s.uowner ==> Owns(s'.uowner, g, s.uowner[g]))
    && (forall g :: g in s'.uowner && g !in s.uowner ==> InPool(s.user, g) && s'.uowner[g].dir == s.cr3)
  }

  ghost predicate HasTable(s: State, e: int) { Present(Entry(s.ram, s.cr3, e)) }

  /** The frames and the directory entry that mapping one page with directory entry e takes. */
  ghost predicate FramesTaken(s: State, s': State, e: int) {
    && |FreeFrames(s'.user)| == |FreeFrames(s.user)| - 1
    && |FreeFrames(s'.kernel)| == |FreeFrames(s.kernel)| - (if HasTable(s, e) then 0 else 1)
    && forall k :: 0 <= k < 768 ==> (HasTable(s', k) <==> HasTable(s, k) || k == e)
  }

  /** What mapping one fresh user page keeps. */
  ghost predicate OneUserPage(s: State, s': State, page: int) {
    && Inv(s') && SameSpaces(s, s') && Grows(s, s') && UserRunMapped(s, s', page, 1)
    && FramesTaken(s, s', page / 1024)
  }

  ghost predicate UserOutcome(s: State, r: MapResult, page: int) {
    match r
    case Mapped(s') => OneUserPage(s, s', page)
    case NoFrame(s') => s' == s && FreeFrames(s.user) == {}
    case MapStops(why) =>
      why == NoTableFrame && FreeFrames(s.kernel) == {} && FreeFrames(s.user) != {} && !HasTable(s, page / 1024)
  }

  /** One fresh user page: the new state keeps everything, unless a frame is missing. */
  lemma MapOneUser(s: State, page: int)
    requires Inv(s) && FreshUserPage(s, page)
    ensures Reachable(s.ram, s.cr3, page * PAGE) && UserOutcome(s, MapOne(s, PfUser, page * PAGE), page)
  {
    MapOneUserAt(s, page, page / 1024, page % 1024);
  }

  lemma MapOneUserAt(s: State, page: int, e: int, t: int)
    requires PageAt(page, e, t)
    requires Inv(s) && FreshUserPage(s, page)
    ensures Reachable(s.ram, s.cr3, page * PAGE) && UserOutcome(s, MapOne(s, PfUser, page * PAGE), page)
  {
    UserEntries(s, page, e, t);
    InvParts(s);
    hide Inv, MapOne, Reachable, Entry, AddTable, MapUser, FreeBit, FreshUserPage, OneUserPage, FrameOf, MappedUser,
      UserOutcome, PoolsOk, BootAlias;
    if Present(Entry(s.ram, s.cr3, e)) {
      MapOneUserPresent(s, page, e, t);
      PresentOutcome(s, page, e, t);
    } else {
      MapOneUserAbsent(s, page, e, t);
      AbsentOutcome(s, page, e, t);
    }
  }

  lemma MappedUserPresent(s: State, e: int, t: int, f: int)
    requires Sizes(s) && GoodFrame(s.ram, s.cr3) && 0 <= e < 768 && 0 <= t < 1024 && GoodFrame(s.ram, f)
    requires Entry(s.ram, s.cr3, e) - FLAGS == f && Present(Entry(s.ram, s.cr3, e))
    requires FreeBit(s.user) != -1 ==> 0 <= FreeBit(s.user) < |s.user.bits|
    ensures MappedUser(s, e, t) == if FreeBit(s.user) == -1 then NoFrame(s)
                                   else Mapped(MapUser(s, UserPage(s.cr3, e, t, f), f, FreeBit(s.user)))
  {
    hide Entry, FreeBit, Present, GoodFrame, Sizes, MapUser, AddTable;
  }

  lemma PresentOutcome(s: State, page: int, e: int, t: int)
    requires PageAt(page, e, t)
    requires Inv(s) && FreshUserPage(s, page) && Sizes(s) && GoodFrame(s.ram, s.cr3)
    requires Present(Entry(s.ram, s.cr3, e)) && GoodFrame(s.ram, Entry(s.ram, s.cr3, e) - FLAGS)
    ensures UserOutcome(s, MappedUser(s, e, t), page)
  {
    hide Inv, Entry, FreeBit, FreshUserPage, OneUserPage, Present, GoodFrame, FrameOf, FrameAt, MapUser, AddTable,
      MappedUser, FreeFrames;
    FreeFramesTaken(s.user);
    hide Sizes;
    UserEntries(s, page, e, t);
    var f, b := Entry(s.ram, s.cr3, e) - FLAGS, FreeBit(s.user);
    if b != -1 { FreeBitRange(s.user); }
    MappedUserPresent(s, e, t, f);
    if b != -1 { UserStep(s, page, e, t, f, b); }
  }

  lemma AbsentOutcome(s: State, page: int, e: int, t: int)
    requires PageAt(page, e, t)
    requires Inv(s) && FreshUserPage(s, page) && Sizes(s) && GoodFrame(s.ram, s.cr3)
    requires s.cr3 in s.dirs && !BootAlias(s.cr3, e) && !Present(Entry(s.ram, s.cr3, e))
    ensures UserOutcome(s, MappedUser(s, e, t), page)
  {
    hide Inv, Entry, MapUser, AddTable, FreeBit, FreshUserPage, OneUserPage, FreeFrames;
    var b, kb := FreeBit(s.user), FreeBit(s.kernel);
    FreeFramesTaken(s.user);
    FreeFramesTaken(s.kernel);
    assert page / 1024 == e;
    if b != -1 && kb != -1 {
      FreeBitIsFree(s);
      FreeBitRange(s.user);
      assert GoodFrame(s.ram, FrameAt(s.kernel, kb));
      UserStepNewTable(s, page, e, t, kb, b);
    }
  }

  lemma UserStepNewTable(s: State, page: int, e: int, t: int, kb: int, b: int)
    requires PageAt(page, e, t)
    requires Inv(s) && FreshUserPage(s, page) && Sizes(s) && GoodFrame(s.ram, s.cr3)
    requires s.cr3 in s.dirs && !BootAlias(s.cr3, e) && !Present(Entry(s.ram, s.cr3, e))
    requires b == FreeBit(s.user) && b != -1 && kb == FreeBit(s.kernel) && kb != -1
    requires 0 <= kb < |s.kernel.bits| - 8 && 0 <= b < |s.user.bits| - 8 && GoodFrame(s.ram, FrameAt(s.kernel, kb))
    ensures var f := FrameAt(s.kernel, kb);
            OneUserPage(s, MapUser(AddTable(s, s.cr3, e, kb), UserPage(s.cr3, e, t, f), f, b), page)
  {
    var d := s.cr3;
    FreeBitIsFree(s);
    var f := FrameAt(s.kernel, kb);
    FreshFrameNotDir(s, kb, d);
    FreeKernelFrame(s, kb) by { InvParts(s); }
    AddTableKept(s, d, e, kb);
    AddTableGrows(s, d, e, kb);
    AddTableFields(s, d, e, kb);
    NewTableEmpty(s, d, e, kb, t);
    NewTableTaken(s, e, kb);
    var s1 := AddTable(s, d, e, kb);
    var s2 := MapUser(s1, UserPage(d, e, t, f), f, b);
    hide Inv, AddTable, MapUser, FreeBit, Grows, Entry, Sizes, PageBitSet, UserMapped, InPool, FrameAt, TableTaken;
    FreshnessUnconcerned(s, s1, page);
    hide FreshUserPage, OneUserPage;
    UserStep(s1, page, e, t, f, b);
    OneUserPageAfter(s, s1, f, e, s2, page);
  }

  lemma FreshnessUnconcerned(s: State, s1: State, page: int)
    requires s1.cr3 == s.cr3 && s1.procs == s.procs && s1.uowner == s.uowner
    ensures FreshUserPage(s1, page) <==> FreshUserPage(s, page)
  {
    hide UserMapped;
  }

  /** A new page table takes one kernel frame and makes its directory entry present. */
  ghost predicate TableTaken(s: State, s1: State, e: int) {
    && s1.user == s.user && |FreeFrames(s1.kernel)| == |FreeFrames(s.kernel)| - 1 && !HasTable(s, e)
    && forall k :: 0 <= k < 768 ==> (HasTable(s1, k) <==> HasTable(s, k) || k == e)
  }

  lemma NewTableTaken(s: State, e: int, b: int)
    requires Sizes(s) && GoodFrame(s.ram, s.cr3) && 0 <= e < 768 && b == FreeBit(s.kernel) && b != -1
    requires 0 <= b < |s.kernel.bits| - 8 && FrameAt(s.kernel, b) != s.cr3 && !HasTable(s, e)
    ensures TableTaken(s, AddTable(s, s.cr3, e, b), e)
  {
    var f := FrameAt(s.kernel, b);
    FreeFramesTaken(s.kernel);
    AddTableShape(s, s.cr3, e, b);
    FrameOfEntry(f);
    hide Entry, SetEntry, ZeroPage, FreeBit, FreeFrames, FrameOf, Present;
  }

  lemma OneUserPageAfter(s: State, s1: State, f: int, e: int, s2: State, page: int)
    requires f !in s.owner && s1.owner == s.owner[f := Table(s.cr3, e)] && e == page / 1024 && 0 <= e < 768
    requires s1.uowner == s.uowner && SameSpaces(s, s1) && Grows(s, s1) && OneUserPage(s1, s2, page)
    requires TableTaken(s, s1, e)
    ensures OneUserPage(s, s2, page)
  {
    hide Inv, HasTable, FreeFrames;
    GrowsTrans(s, s1, s2);
    AfterNewTable(s, s1, f, e, s2, page);
    hide Grows, UserRunMapped;
  }

  lemma AfterNewTable(s: State, s1: State, f: int, e: int, s2: State, page: int)
    requires f !in s.owner && s1.owner == s.owner[f := Table(s.cr3, e)]
    requires s1.uowner == s.uowner && SameSpaces(s, s1) && UserRunMapped(s1, s2, page, 1)
    ensures UserRunMapped(s, s2, page, 1)
  {
    hide UserMapped;
    forall g | g in s.owner ensures Owns(s2.owner, g, s.owner[g]) { assert Owns(s2.owner, g, s1.owner[g]); }
    assert Owns(s2.owner, f, s1.owner[f]);
  }

  lemma AddTableFields(s: State, d: int, e: int, b: int)
    requires Sizes(s) && GoodFrame(s.ram, d) && 0 <= e < 768 && 0 <= b < |s.kernel.bits| - 8
    ensures var s1 := AddTable(s, d, e, b);
      && SameSpaces(s, s1) && s1.user == s.user && s1.uowner == s.uowner && |s1.ram| == |s.ram|
      && s1.owner == s.owner[FrameAt(s.kernel, b) := Table(d, e)]
  {
  }

  lemma NewTableEmpty(s: State, d: int, e: int, b: int, t: int)
    requires Sizes(s) && GoodFrame(s.ram, d) && 0 <= e < 768 && 0 <= b < |s.kernel.bits| - 8 && 0 <= t < 1024
    ensures !Present(Entry(AddTable(s, d, e, b).ram, FrameAt(s.kernel, b), t))
  {
    var f := FrameAt(s.kernel, b);
    ZeroPageAt(SetEntry(s.ram, d, e, f + FLAGS), f);
  }

  /** Filling in one entry of an existing table. */
  lemma UserStep(s: State, page: int, e: int, t: int, f: int, b: int)
    requires PageAt(page, e, t)
    requires Inv(s) && FreshUserPage(s, page) && Owns(s.owner, f, Table(s.cr3, e)) && GoodFrame(s.ram, f)
    requires !Present(Entry(s.ram, f, t)) && b == FreeBit(s.user) && b != -1
    ensures 0 <= b < |s.user.bits| - 8
    ensures OneUserPage(s, MapUser(s, UserPage(s.cr3, e, t, f), f, b), page)
  {
    FreeBitRange(s.user);
    UserBitFree(s.user);
    UserStepKept(s, UserPage(s.cr3, e, t, f), page, f, b);
  }

  lemma UserStepKept(s: State, u: UserPage, page: int, f: int, b: int)
    requires u.table == f && IsPage(u, s.cr3, page)
    requires 0 <= u.e < 768 && 0 <= u.t < 1024 && Owns(s.owner, f, Table(u.dir, u.e)) && GoodFrame(s.ram, f)
    requires 0 <= b < |s.user.bits| - 8 && !s.user.bits[b] && b == FreeBit(s.user) && !Present(Entry(s.ram, f, u.t))
    requires FreshUserPage(s, page)
    requires Inv(s)
    ensures OneUserPage(s, MapUser(s, u, f, b), page)
  {
    assert Regions(s) by { InvRegions(s); }
    FreeUserFrame(s, b);
    MapUserKept(s, u, f, b);
    MapUserGrows(s, u, f, b);
    var g := FrameAt(s.user, b);
    var s' := MapUser(s, u, f, b);
    OwnTable(s, f, u.e);
    UserFrameTaken(s, u, f, b);
    assert page / 1024 == u.e;
    hide Inv, Entry, SetEntry, PageBitSet, UserMapped, Grows, Regions, InPool, FreshUserPage, UserRunMapped,
      FramesTaken, FreeBit;
    OneRunMapped(s, s', g, u, page);
  }

  /** The table of a page of the active directory. */
  lemma OwnTable(s: State, f: int, e: int)
    requires Inv(s) && Owns(s.owner, f, Table(s.cr3, e))
    ensures f != s.cr3 && f % PAGE == 0 && HasTable(s, e) && GoodFrame(s.ram, s.cr3)
  {
    OwnerNotDir(s, f, s.cr3);
    OwnedFramesGood(s);
    assert TableBack(s, f, s.cr3, e);
    FrameOfEntry(f);
    hide Entry, Present;
  }

  lemma UserFrameTaken(s: State, u: UserPage, f: int, b: int)
    requires GoodFrame(s.ram, f) && 0 <= u.t < 1024 && b == FreeBit(s.user) && b != -1 && 0 <= b < |s.user.bits| - 8
    requires f != s.cr3 && GoodFrame(s.ram, s.cr3) && HasTable(s, u.e) && 0 <= u.e < 768
    ensures FramesTaken(s, MapUser(s, u, f, b), u.e)
  {
    FreeFramesTaken(s.user);
    SetEntryAt(s.ram, f, u.t, FrameAt(s.user, b) + FLAGS);
    hide Entry, SetEntry, FreeBit, FreeFrames;
  }

  lemma OneRunMapped(s: State, s': State, g: int, u: UserPage, page: int)
    requires s'.owner == s.owner && s'.uowner == s.uowner[g := u] && g !in s.uowner && InPool(s.user, g)
    requires u.dir == s.cr3 && IsPage(u, s.cr3, page)
    ensures UserRunMapped(s, s', page, 1)
  {
    hide InPool;
    forall j ensures UserMapped(s'.uowner, s.cr3, j) <==> UserMapped(s.uowner, s.cr3, j) || page <= j < page + 1 {
      MappedUpdate(s.uowner, g, u, s.cr3, j);
    }
  }

  lemma MappedUpdate(a: map<int, UserPage>, g: int, u: UserPage, d: int, j: int)
    requires g !in a
    ensures UserMapped(a[g := u], d, j) <==> UserMapped(a, d, j) || IsPage(u, d, j)
  {
    if UserMapped(a, d, j) {
      var h :| h in a && IsPage(a[h], d, j);
      assert h in a[g := u] && IsPage(a[g := u][h], d, j);
    }
    if IsPage(u, d, j) { assert g in a[g := u] && IsPage(a[g := u][g], d, j); }
  }

  lemma UserBitFree(p: Pool)
    requires FreeBit(p) != -1
    ensures 0 <= FreeBit(p) < |p.bits| && !p.bits[FreeBit(p)]
  {
  }

  lemma FreeUserFrame(s: State, b: int)
    requires Inv(s) && 0 <= b < |s.user.bits| - 8 && !s.user.bits[b]
    ensures FrameAt(s.user, b) !in s.uowner && InPool(s.user, FrameAt(s.user, b))
  {
  }

  // ----------------------------------------------------- loops over user pages

  /** Page number `page` of the active directory is mapped already. */
  lemma BusyUserPage(s: State, page: int)
    requires UserMapped(s.uowner, s.cr3, page)
    requires Inv(s)
    ensures Reachable(s.ram, s.cr3, page * PAGE)
    ensures MapOne(s, PfUser, page * PAGE) == if FreeFrames(s.user) == {} then NoFrame(s) else MapStops(PteBusy)
  {
    var g :| g in s.uowner && IsPage(s.uowner[g], s.cr3, page);
    MappedWords(s, s.cr3, page, g);
    FreeFramesTaken(s.user);
    hide Inv, FreeBit, Walk, PdeAt, PteAt, UserMapped, Present;
  }

  /** A mapped page's entries are present. */
  lemma MappedEntries(s: State, d: int, page: int, g: int)
    requires g in s.uowner && IsPage(s.uowner[g], d, page)
    requires Inv(s)
    ensures var u := s.uowner[g];
      && d in s.dirs && 0 <= u.e < 768 && 0 <= u.t < 1024 && GoodFrame(s.ram, u.table)
      && Entry(s.ram, d, u.e) == u.table + FLAGS && Entry(s.ram, u.table, u.t) == g + FLAGS
      && FrameOf(u.table + FLAGS) == u.table && Present(u.table + FLAGS)
      && Present(g + FLAGS) && FrameOf(g + FLAGS) == g
      && GoodFrame(s.ram, g)
  {
    OwnedFramesGood(s);
    assert UserBack(s, g);
    var u := s.uowner[g];
    assert TableBack(s, u.table, u.dir, u.e);
    FrameOfEntry(u.table);
    FrameOfEntry(g);
    hide Entry, FrameOf, Present;
  }

  lemma MappedWords(s: State, d: int, page: int, g: int)
    requires g in s.uowner && IsPage(s.uowner[g], d, page)
    requires Inv(s)
    ensures var v, u := page * PAGE, s.uowner[g];
      && d in s.dirs && Address(v) && Reachable(s.ram, d, v)
      && Present(s.ram[PdeAt(d, v) / 4]) && Present(s.ram[PteAt(s.ram[PdeAt(d, v) / 4], v) / 4])
      && Walk(s.ram, d, v) == Some(g)
  {
    var u := s.uowner[g];
    MappedEntries(s, d, page, g);
    PageIndices(page, u.e, u.t);
    InvRegions(s);
    PageStart(page);
    hide Inv, Entry, FrameOf, Present, PdeIdx, PteIdx, Regions, PdeAt, PteAt, Address;
    WalkEntries(s, d, page * PAGE);
    hide Walk, GoodFrame, IsPage, InRam;
  }

  lemma PageStart(page: int)
    ensures page * PAGE % PAGE == 0
  {
  }

  /** How many of the cnt pages from page number `page` on come before the first one mapped already. */
  ghost function Unmapped(s: State, page: int, cnt: nat): (n: nat)
    ensures n <= cnt
    decreases cnt
  {
    if cnt == 0 || UserMapped(s.uowner, s.cr3, page) then 0 else 1 + Unmapped(s, page + 1, cnt - 1)
  }

  /** The absent directory entries over the cnt pages from page number `page` on. */
  ghost function MissingTables(s: State, page: int, cnt: nat): set<int> {
    set j | page <= j < page + cnt && !HasTable(s, j / 1024) :: j / 1024
  }

  /** How many of the pages find a user frame and an absent entry. */
  ghost function Mappable(s: State, page: int, cnt: nat): nat {
    var f, n := |FreeFrames(s.user)|, Unmapped(s, page, cnt);
    if f < n then f else n
  }

  /** Their page tables need more frames than the kernel pool has. */
  ghost predicate TooFewForTables(s: State, page: int, cnt: nat) {
    |MissingTables(s, page, Mappable(s, page, cnt))| > |FreeFrames(s.kernel)|
  }

  /** What mapping the cnt user pages from page number `page` on does, and exactly when it stops and where. */
  ghost predicate UserLoop(s: State, page: int, cnt: nat, r: MapResult) {
    var f, n := |FreeFrames(s.user)|, Mappable(s, page, cnt);
    && (r == MapStops(NoTableFrame) <==> TooFewForTables(s, page, cnt))
    && (r == MapStops(PteBusy) <==> !TooFewForTables(s, page, cnt) && n < cnt && n < f)
    && (r.NoFrame? <==> !TooFewForTables(s, page, cnt) && n < cnt && n == f)
    && (r.Mapped? <==> !TooFewForTables(s, page, cnt) && n == cnt)
    && (!r.MapStops? ==> UserRunMapped(s, r.s, page, n))
  }

  lemma UnmappedSame(s: State, s1: State, first: int, page: int, cnt: nat)
    requires s1.cr3 == s.cr3 && first < page
    requires forall j :: UserMapped(s1.uowner, s.cr3, j) <==> UserMapped(s.uowner, s.cr3, j) || first <= j < first + 1
    ensures Unmapped(s1, page, cnt) == Unmapped(s, page, cnt)
    decreases cnt
  {
    hide UserMapped;
    if cnt > 0 && !UserMapped(s.uowner, s.cr3, page) { UnmappedSame(s, s1, first, page + 1, cnt - 1); }
  }

  lemma MissingAfter(s: State, s1: State, page: int, n: nat)
    requires s1.cr3 == s.cr3 && 0 <= page && page + n + 1 <= 768 * 1024 && FramesTaken(s, s1, page / 1024)
    ensures |MissingTables(s, page, n + 1)| - |MissingTables(s1, page + 1, n)|
         == if HasTable(s, page / 1024) then 0 else 1
  {
    hide HasTable, FreeFrames;
    var e, a, b := page / 1024, MissingTables(s, page, n + 1), MissingTables(s1, page + 1, n);
    forall k ensures k in b <==> k in a && k != e {
      if k in b {
        var j :| page + 1 <= j < page + 1 + n && !HasTable(s1, j / 1024) && j / 1024 == k;
        assert page <= j < page + n + 1 && !HasTable(s, j / 1024);
      }
      if k in a && k != e {
        var j :| page <= j < page + n + 1 && !HasTable(s, j / 1024) && j / 1024 == k;
        assert page + 1 <= j < page + 1 + n && !HasTable(s1, j / 1024);
      }
    }
    assert b == a - {e};
    assert !HasTable(s, e) ==> e in a;
    if e in a { MissingHas(s, page, n + 1, e); }
  }

  lemma MissingHas(s: State, page: int, n: nat, e: int)
    requires e in MissingTables(s, page, n)
    ensures !HasTable(s, e)
  {
  }

  /** One page mapped, then the rest. */
  lemma UserLoopOn(s: State, s1: State, page: int, cnt: nat, r: MapResult)
    requires 0 <= page && page + cnt + 1 <= 768 * 1024 && !UserMapped(s.uowner, s.cr3, page)
    requires SameSpaces(s, s1) && UserRunMapped(s, s1, page, 1) && FramesTaken(s, s1, page / 1024)
    requires UserLoop(s1, page + 1, cnt, r)
    ensures UserLoop(s, page, cnt + 1, r)
  {
    hide UserMapped, FreeFrames, HasTable, UserRunMapped, MissingTables;
    assert Unmapped(s, page, cnt + 1) == 1 + Unmapped(s, page + 1, cnt);
    assert Unmapped(s1, page + 1, cnt) == Unmapped(s, page + 1, cnt) by {
      MappedBy(s, s1, page);
      UnmappedSame(s, s1, page, page + 1, cnt);
    }
    MissingAfter(s, s1, page, Mappable(s1, page + 1, cnt));
    if !r.MapStops? { UserRunsJoin(s, s1, r.s, page, Mappable(s1, page + 1, cnt)); }
  }

  lemma MappedBy(s: State, s1: State, page: int)
    requires UserRunMapped(s, s1, page, 1)
    ensures forall j :: UserMapped(s1.uowner, s.cr3, j) <==> UserMapped(s.uowner, s.cr3, j) || page <= j < page + 1
  {
    hide UserMapped;
  }

  lemma UserRunsJoin(a: State, b: State, c: State, page: int, cnt: nat)
    requires UserRunMapped(a, b, page, 1) && UserRunMapped(b, c, page + 1, cnt) && SameSpaces(a, b)
    ensures UserRunMapped(a, c, page, cnt + 1)
  {
    hide UserMapped;
  }

  /** The first page cannot be mapped. */
  lemma UserLoopEnds(s: State, page: int, cnt: nat, r: MapResult)
    requires 0 <= page && cnt > 0
    requires r == if FreeFrames(s.user) == {} then NoFrame(s)
                  else if UserMapped(s.uowner, s.cr3, page) then MapStops(PteBusy) else MapStops(NoTableFrame)
    requires FreeFrames(s.user) != {} && !UserMapped(s.uowner, s.cr3, page) ==>
               FreeFrames(s.kernel) == {} && !HasTable(s, page / 1024)
    ensures UserLoop(s, page, cnt, r)
  {
    hide UserMapped, FreeFrames, HasTable;
    var n := Mappable(s, page, cnt);
    if n == 0 {
      assert MissingTables(s, page, 0) == {};
      NothingMapped(s, page);
    } else {
      assert page / 1024 in MissingTables(s, page, n);
    }
  }

  lemma NothingMapped(s: State, page: int)
    ensures UserRunMapped(s, s, page, 0)
  {
    hide UserMapped;
  }

  lemma NoUserPages(s: State, page: int)
    ensures UserLoop(s, page, 0, Mapped(s))
  {
    assert MissingTables(s, page, 0) == {};
    NothingMapped(s, page);
    hide UserMapped, FreeFrames;
  }

  /** The loop of malloc_page over user pages: which pages it maps, exactly when it stops, and at which ASSERT or
      missing frame. */
  lemma {:induction false} MapUserPages(s: State, page: int, cnt: nat)
    requires Inv(s) && 0 <= page && forall j :: page <= j < page + cnt ==> PlacedUserPage(s, j)
    ensures var r := MapPages(s, PfUser, page * PAGE, cnt);
      && UserLoop(s, page, cnt, r)
      && (!r.MapStops? ==> Inv(r.s) && SameSpaces(s, r.s) && Grows(s, r.s))
    decreases cnt
  {
    hide Inv, MapOne, Grows, Reachable, PlacedUserPage, UserLoop, UserMapped, FreeFrames, HasTable, UserRunMapped;
    GrowsSelf(s);
    if cnt == 0 {
      NoUserPages(s, page);
    } else {
      assert PlacedUserPage(s, page) && PlacedUserPage(s, page + cnt - 1);
      LastPage(s, page + cnt - 1);
      if UserMapped(s.uowner, s.cr3, page) { BusyUserPage(s, page); } else { MapOneUser(s, page); }
      var one := MapOne(s, PfUser, page * PAGE);
      if one.Mapped? {
        assert (page + 1) * PAGE == page * PAGE + PAGE;
        forall j | page + 1 <= j < page + cnt ensures PlacedUserPage(one.s, j) {
          assert PlacedUserPage(s, j);
          PlacedSame(s, one.s, j);
        }
        MapUserPages(one.s, page + 1, cnt - 1);
        var r := MapPages(one.s, PfUser, (page + 1) * PAGE, cnt - 1);
        UserLoopOn(s, one.s, page, cnt - 1, r);
        if !r.MapStops? { GrowsTrans(s, one.s, r.s); }
      } else {
        UserLoopEnds(s, page, cnt, one);
      }
    }
  }

  lemma LastPage(s: State, page: int)
    requires PlacedUserPage(s, page)
    ensures page < 768 * 1024
  {
  }

  lemma PlacedSame(s: State, s1: State, page: int)
    requires PlacedUserPage(s, page) && s1.cr3 == s.cr3 && s1.procs == s.procs
    ensures PlacedUserPage(s1, page)
  {
  }
}
