/** What the allocator's code does to memory, word by word. */
module MachineFacts {
  import opened Basics
  import opened Paging
  import opened MemoryModel
  import opened MemoryInvariants
  import opened MemorySafety
  import opened MemoryAllocation
  import opened MemoryRuns

  // -------------------------------------------- page tables through the self-map

  /** The page of entries that pte_ptr(v) points into. */
  function TablePage(v: int): int { PtePtr(v) - PtePtr(v) % PAGE }

  lemma TablePageWalk(ram: seq<int>, dir: int, v: int, k: int)
    requires Address(v) && SelfMapped(ram, dir) && 0 <= k < 1024 && Present(ram[PdeAt(dir, v) / 4])
    ensures Walk(ram, dir, TablePage(v) + 4 * k) == Some(FrameOf(ram[PdeAt(dir, v) / 4]) + 4 * k)
  {
    PtePtrIndices(v);
    var d, a := v / 0x40_0000, TablePage(v) + 4 * k;
    assert TablePage(v) == 0xffc0_0000 + d * PAGE;
    assert a / PAGE == 0xffc00 + d && a % PAGE == 4 * k;
    assert PdeIdx(a) == 1023 && PteIdx(a) == PdeIdx(v);
  }

  function ClearedTo(ram: seq<int>, f: int, i: int): (r: seq<int>)
    requires GoodFrame(ram, f) && 0 <= i <= 1024
    ensures |r| == |ram|
    ensures forall k :: 0 <= k < |ram| ==> r[k] == if f / 4 <= k < f / 4 + i then 0 else ram[k]
  {
    ram[..f / 4] + seq(i, _ => 0) + ram[f / 4 + i..]
  }

  lemma ClearedNone(ram: seq<int>, f: int)
    requires GoodFrame(ram, f)
    ensures ClearedTo(ram, f, 0) == ram && ClearedTo(ram, f, 1024) == ZeroPage(ram, f)
  {
  }

  /** Clearing words of frame f does not touch the directory. */
  lemma FewerCleared(ram: seq<int>, f: int, dir: int, v: int, i: int)
    requires Address(v) && SelfMapped(ram, dir) && InRam(ram, PdeAt(dir, v)) && GoodFrame(ram, f) && f != dir
    requires 0 <= i < 1024
    ensures var r := ClearedTo(ram, f, i);
            SelfMapped(r, dir) && r[PdeAt(dir, v) / 4] == ram[PdeAt(dir, v) / 4]
    ensures InRam(ram, f + 4 * i) && (f + 4 * i) / 4 == f / 4 + i
    ensures ClearedTo(ram, f, i)[f / 4 + i := 0] == ClearedTo(ram, f, i + 1)
  {
    SelfMappedWords(ram, dir, v);
    hide PdeIdx, PteIdx, FrameOf, Present, SelfMapped;
    OtherPageWord(dir, 1023, f);
    OtherPageWord(dir, PdeIdx(v), f);
    EntryWord(ram, f, i);
    hide PdeAt;
    StillSelfMapped(ram, ClearedTo(ram, f, i), dir);
    hide ClearedTo;
  }

  lemma SelfMappedWords(ram: seq<int>, dir: int, v: int)
    requires SelfMapped(ram, dir) && Address(v)
    ensures GoodFrame(ram, dir) && PdeAt(dir, v) / 4 == dir / 4 + PdeIdx(v) && (dir + 4092) / 4 == dir / 4 + 1023
    ensures InRam(ram, PdeAt(dir, v)) && 0 <= PdeIdx(v) < 1024 && 0 <= PteIdx(v) < 1024
  {
  }

  lemma StillSelfMapped(ram: seq<int>, r: seq<int>, dir: int)
    requires SelfMapped(ram, dir) && |r| == |ram| && r[(dir + 4092) / 4] == ram[(dir + 4092) / 4]
    ensures SelfMapped(r, dir)
  {
  }

  /** Words of the directory and of frame f on the way to a new page table in f. */
  lemma FilledWords(ram: seq<int>, dir: int, e: int, f: int, t: int, x: int)
    requires GoodFrame(ram, dir) && GoodFrame(ram, f) && f != dir && 0 <= e < 1023 && 0 <= t < 1024
    ensures var r1 := ram[dir / 4 + e := x];
      && r1[dir / 4 + e] == x && r1[dir / 4 + 1023] == ram[dir / 4 + 1023]
      && var r := ZeroPage(r1, f);
         r[dir / 4 + e] == x && r[dir / 4 + 1023] == ram[dir / 4 + 1023] && r[f / 4 + t] == 0
  {
    OtherPageWord(dir, 1023, f);
    OtherPageWord(dir, e, f);
    hide ZeroPage;
  }

  /** Memory on the way to a new page table in frame f. */
  lemma FilledTable(ram: seq<int>, dir: int, v: int, f: int)
    requires Address(v) && PdeIdx(v) < 1023 && SelfMapped(ram, dir) && InRam(ram, PdeAt(dir, v))
    requires GoodFrame(ram, f) && f != dir
    ensures var r := ram[PdeAt(dir, v) / 4 := f + FLAGS];
            SelfMapped(r, dir) && r[PdeAt(dir, v) / 4] == f + FLAGS && GoodFrame(r, f)
    ensures var r := ZeroPage(ram[PdeAt(dir, v) / 4 := f + FLAGS], f);
      && Walk(r, dir, PtePtr(v)) == Some(f + 4 * PteIdx(v)) && InRam(r, f + 4 * PteIdx(v))
      && (f + 4 * PteIdx(v)) / 4 == f / 4 + PteIdx(v) && r[f / 4 + PteIdx(v)] == 0
  {
    hide ZeroPage, FrameOf, Present, Walk, PtePtr, PdeIdx, PteIdx, SelfMapped, PteAt, Entry;
    SelfMappedWords(ram, dir, v);
    FilledWords(ram, dir, PdeIdx(v), f, PteIdx(v), f + FLAGS);
    FrameOfEntry(f);
    EntryWord(ram, f, PteIdx(v));
    var r1 := ram[PdeAt(dir, v) / 4 := f + FLAGS];
    StillSelfMapped(ram, r1, dir);
    StillSelfMapped(ram, ZeroPage(r1, f), dir);
    WalkToTable(ZeroPage(r1, f), dir, v, f);
    hide PdeAt;
  }

  lemma WalkToTable(ram: seq<int>, dir: int, v: int, f: int)
    requires Address(v) && SelfMapped(ram, dir) && InRam(ram, PdeAt(dir, v)) && ram[PdeAt(dir, v) / 4] == f + FLAGS
    requires FrameOf(f + FLAGS) == f && Present(f + FLAGS)
    ensures Walk(ram, dir, PtePtr(v)) == Some(f + 4 * PteIdx(v))
  {
    hide Walk, PtePtr, PdeIdx, PteIdx, SelfMapped, FrameOf, Present;
    PtePtrReachesPte(ram, dir, v);
  }

  // -------------------------------------------------------------- page_table_add

  /** What page_table_add relies on: the self-map, entries in memory, and a next kernel frame that is no directory. */
  ghost predicate TableReady(s: State, v: int) {
    && Address(v) && PdeIdx(v) < 1023 && SelfMapped(s.ram, s.cr3) && Reachable(s.ram, s.cr3, v) && s.kernel.start > 0
    && var b := FreeBit(s.kernel);
       b != -1 ==> GoodFrame(s.ram, FrameAt(s.kernel, b)) && FrameAt(s.kernel, b) != s.cr3
  }

  lemma TableReadyParts(s: State, v: int)
    requires TableReady(s, v) && |s.kernel.bits| >= 8
    ensures Address(v) && PdeIdx(v) < 1023 && SelfMapped(s.ram, s.cr3) && InRam(s.ram, PdeAt(s.cr3, v))
    ensures s.kernel.start > 0
    ensures var b := FreeBit(s.kernel);
            b != -1 ==> CanTable(s, v) && FrameAt(s.kernel, b) != s.cr3
  {
    hide SelfMapped;
  }

  ghost predicate CanTable(s: State, v: int) {
    && InRam(s.ram, PdeAt(s.cr3, v)) && 0 <= PteIdx(v) < 1024
    && FreeBit(s.kernel) != -1 && 0 <= FreeBit(s.kernel) < |s.kernel.bits|
    && GoodFrame(s.ram, FrameAt(s.kernel, FreeBit(s.kernel)))
  }

  /** The state once page_table_add has made a page table. */
  ghost function WithTable(s: State, v: int, frame: int): State
    requires CanTable(s, v)
  {
    var b, f := FreeBit(s.kernel), FrameAt(s.kernel, FreeBit(s.kernel));
    s.(ram := ZeroPage(s.ram[PdeAt(s.cr3, v) / 4 := f + FLAGS], f)[f / 4 + PteIdx(v) := frame + FLAGS],
       kernel := Take(s.kernel, b), owner := s.owner[f := Table(s.cr3, PdeIdx(v))])
  }

  lemma WithTableIs(s: State, v: int, frame: int)
    requires CanTable(s, v)
    ensures var b, f := FreeBit(s.kernel), FrameAt(s.kernel, FreeBit(s.kernel));
      && InRam(s.ram, PdeAt(s.cr3, v)) && 0 <= f / 4 + PteIdx(v) < |s.ram| && GoodFrame(s.ram, f)
      && 0 <= b < |s.kernel.bits|
      && WithTable(s, v, frame)
           == State(ZeroPage(s.ram[PdeAt(s.cr3, v) / 4 := f + FLAGS], f)[f / 4 + PteIdx(v) := frame + FLAGS],
                    s.cr3, s.run, Take(s.kernel, b), s.user, s.heap, s.procs, s.dirs,
                    s.owner[f := Table(s.cr3, PdeIdx(v))], s.uowner)
  {
    hide ZeroPage, PdeIdx, PteIdx, FreeBit, Take;
  }

  lemma AddedWithTable(s: State, v: int, frame: int)
    requires TableReady(s, v) && !Present(s.ram[PdeAt(s.cr3, v) / 4]) && |s.kernel.bits| >= 8
    ensures FreeBit(s.kernel) == -1 ==> MemoryModel.PageTableAdd(s, v, frame) == MapStops(NoTableFrame)
    ensures FreeBit(s.kernel) != -1 ==>
              CanTable(s, v) && MemoryModel.PageTableAdd(s, v, frame) == Mapped(WithTable(s, v, frame))
  {
    hide ZeroPage, SelfMapped;
  }

  // ----------------------------------------------------- the loop of malloc_page

  /** What mapping the page at v relies on, whichever pool its frame comes from. */
  ghost predicate TurnReady(s: State, v: int) {
    && Address(v) && PdeIdx(v) < 1023 && SelfMapped(s.ram, s.cr3) && Reachable(s.ram, s.cr3, v)
    && s.kernel.start > 0 && s.user.start > 0 && |s.kernel.bits| >= 8 && |s.user.bits| >= 8
    && forall b :: 0 <= b < |s.kernel.bits| - 8 && !s.kernel.bits[b] ==>
         GoodFrame(s.ram, FrameAt(s.kernel, b)) && FrameAt(s.kernel, b) != s.cr3
  }

  lemma TurnReadyParts(s: State, v: int)
    requires TurnReady(s, v)
    ensures s.kernel.start > 0 && s.user.start > 0 && Reachable(s.ram, s.cr3, v) && InRam(s.ram, PdeAt(s.cr3, v))
    ensures |s.kernel.bits| >= 8 && |s.user.bits| >= 8
    ensures FreeBit(s.kernel) != -1 ==> 0 <= FreeBit(s.kernel) < |s.kernel.bits|
    ensures FreeBit(s.user) != -1 ==> 0 <= FreeBit(s.user) < |s.user.bits|
    ensures forall o :: FreeBit(s.kernel) != -1 ==>
              TableReady(s.(kernel := Take(s.kernel, FreeBit(s.kernel)), owner := o), v)
    ensures FreeBit(s.user) != -1 ==> TableReady(s.(user := Take(s.user, FreeBit(s.user))), v)
  {
    hide SelfMapped;
  }

  lemma InvTurnReady(s: State, v: int)
    requires Address(v) && PdeIdx(v) < 1023 && Reachable(s.ram, s.cr3, v)
    requires Inv(s)
    ensures TurnReady(s, v)
  {
    InvRegions(s);
    SelfEntry(s, s.cr3);
    forall b | 0 <= b < |s.kernel.bits| - 8 && !s.kernel.bits[b]
      ensures GoodFrame(s.ram, FrameAt(s.kernel, b)) && FrameAt(s.kernel, b) != s.cr3
    {
      FreshFrameNotDir(s, b, s.cr3);
    }
    hide SelfMapped, Reachable, PdeIdx;
  }

  /** The n pages of the loop still to come, from page number `first` on, are fresh, or at least not out of place. */
  ghost predicate PagesReady(s: State, pf: Kind, first: int, n: nat) {
    && Inv(s)
    && forall j :: first <= j < first + n ==> if pf.PfKernel? then FreshHeapPage(s, j) else PlacedUserPage(s, j)
  }

  function PageAddr(pf: Kind, page: int): int { if pf.PfKernel? then HeapAddr(page) else page * PAGE }

  lemma NextPage(pf: Kind, page: int)
    ensures PageAddr(pf, page + 1) == PageAddr(pf, page) + PAGE
  {
  }

  ghost predicate OthersFresh(s: State, s': State, i: int) {
    forall j :: j != i && FreshHeapPage(s, j) ==> FreshHeapPage(s', j)
  }

  lemma HeapTurnKeeps(s: State, i: int)
    requires Inv(s) && FreshHeapPage(s, i) && FreeBit(s.kernel) != -1
    ensures Reachable(s.ram, s.cr3, HeapAddr(i))
    ensures var r := MapOne(s, PfKernel, HeapAddr(i));
            r.Mapped? && Inv(r.s) && OthersFresh(s, r.s, i)
  {
    var b := FreeBit(s.kernel);
    MapOneHeap(s, i);
    FreeBitIsFree(s);
    InvParts(s);
    MapHeapFields(s, i, b);
    MapHeapKept(s, i, b);
    MapHeapPtes(s, i, b);
    hide Inv, FreeBit, MapOne, HeapPte, MapHeap, PoolsOk;
    assert HeapPages(MapHeap(s, i, b)) == HeapPages(s);
  }

  lemma HeapFits(s: State, i: int)
    requires Inv(s) && FreshHeapPage(s, i)
    ensures 0 <= i < HEAP_ENTRIES
  {
    assert |s.heap| <= 32768;
  }

  lemma PagesReadyTurn(s: State, pf: Kind, first: int, n: nat)
    requires n > 0 && PagesReady(s, pf, first, n)
    ensures TurnReady(s, PageAddr(pf, first)) && Reachable(s.ram, s.cr3, PageAddr(pf, first))
    ensures var r := MapOne(s, pf, PageAddr(pf, first));
            r.Mapped? ==> PagesReady(r.s, pf, first + 1, n - 1)
  {
    hide Inv, MapOne, Reachable, TurnReady, FreeBit;
    if pf.PfKernel? {
      assert FreshHeapPage(s, first);
      hide FreshHeapPage;
      HeapFits(s, first);
      MapOneHeap(s, first);
      HeapAddrIndices(first);
      InvTurnReady(s, HeapAddr(first));
      if FreeBit(s.kernel) != -1 {
        HeapTurnKeeps(s, first);
        var s' := MapOne(s, pf, PageAddr(pf, first)).s;
        assert forall j :: first < j < first + n ==> FreshHeapPage(s, j) && FreshHeapPage(s', j);
      }
    } else {
      assert PlacedUserPage(s, first);
      PageIndices(first, first / 1024, first % 1024);
      UserTurnKeeps(s, first, first + n);
      InvTurnReady(s, first * PAGE);
    }
  }

  lemma UserTurnKeeps(s: State, page: int, end: int)
    requires Inv(s) && PlacedUserPage(s, page) && forall j :: page < j < end ==> PlacedUserPage(s, j)
    ensures Reachable(s.ram, s.cr3, page * PAGE)
    ensures var r := MapOne(s, PfUser, page * PAGE);
            r.Mapped? ==> Inv(r.s) && forall j :: page < j < end ==> PlacedUserPage(r.s, j)
  {
    hide Inv, MapOne, Reachable, PlacedUserPage, UserMapped, FreeFrames, UserRunMapped, Grows, FramesTaken;
    if UserMapped(s.uowner, s.cr3, page) {
      BusyUserPage(s, page);
    } else {
      MapOneUser(s, page);
      var r := MapOne(s, PfUser, page * PAGE);
      if r.Mapped? {
        forall j | page < j < end ensures PlacedUserPage(r.s, j) {
          assert PlacedUserPage(s, j);
          PlacedSame(s, r.s, j);
        }
      }
    }
  }

  // -------------------------------------------------------- addresses handed out

  lemma KernelVaddrReady(s: State, cnt: nat)
    requires 0 < cnt < 3840 && VaddrGet(s, PfKernel, cnt).Got?
    requires Inv(s)
    ensures var r, i := VaddrGet(s, PfKernel, cnt), RoomFor(s.heap, cnt);
            PagesReady(r.s, PfKernel, i, cnt) && r.v == HeapAddr(i)
  {
    var i := RoomFor(s.heap, cnt);
    assert |s.heap| >= 8;
    hide Inv, RoomFor, FreshHeapPage, HeapPte, HeapTaken;
    HeapVaddr(s, cnt);
    HeapTakenKept(s, i, cnt);
    forall j | i <= j < i + cnt ensures FreshHeapPage(HeapTaken(s, i, cnt), j) { ClearHeapPage(s, j); }
  }

  lemma UserVaddrReady(s: State, cnt: nat)
    requires 0 < cnt < 3840 && OwnOrBoot(s) && VaddrGet(s, PfUser, cnt).Got?
    requires Inv(s)
    ensures var p := s.procs[s.run];
            var r, first := VaddrGet(s, PfUser, cnt), PageNo(p, RoomFor(p.bits, cnt));
            PagesReady(r.s, PfUser, first, cnt) && r.v == first * PAGE
  {
    var p, i := s.procs[s.run], RoomFor(s.procs[s.run].bits, cnt);
    InvProcs(s);
    hide Inv, RoomFor, PlacedUserPage, UserTaken, ProcsOk, PageNo, UserMapped;
    UserVaddr(s, cnt);
    UserRoom(s, cnt);
    UserTakenKept(s, i, cnt);
  }

  /** The pages vaddr_get hands out are ready. */
  lemma VaddrReady(s: State, pf: Kind, cnt: nat) returns (first: int)
    requires 0 < cnt < 3840 && Permitted(s, Malloc(pf, cnt)) && VaddrGet(s, pf, cnt).Got?
    requires Inv(s)
    ensures var r := VaddrGet(s, pf, cnt); PagesReady(r.s, pf, first, cnt) && r.v == PageAddr(pf, first)
  {
    if pf.PfKernel? {
      first := RoomFor(s.heap, cnt);
      KernelVaddrReady(s, cnt);
    } else {
      first := PageNo(s.procs[s.run], RoomFor(s.procs[s.run].bits, cnt));
      UserVaddrReady(s, cnt);
    }
    hide Inv, VaddrGet, RoomFor;
  }

  lemma HeapPageReady(s: State, v: int, j: int)
    requires Address(v) && j == BitIdx(v, K_HEAP_START) && 0 < j < |s.heap| - 8
    requires Inv(s)
    ensures var s1 := HeapTaken(s, j, 1);
            TurnReady(s1, v) && Reachable(s1.ram, s1.cr3, v)
  {
    var s1 := HeapTaken(s, j, 1);
    assert |s.heap| <= 32768;
    HeapBitIdx(v, j);
    HeapTakenKept(s, j, 1);
    HeapWalk(s1, s1.cr3, j);
    SamePage(s1, PfKernel, v, HeapAddr(j));
    HeapAddrIndices(j);
    PageOf(v);
    hide Inv, BitIdx, HeapPte, Entry, Grows;
    InvTurnReady(s1, v);
  }

  lemma UserPageReady(s: State, v: int, j: int)
    requires Address(v) && OwnOrBoot(s) && j == BitIdx(v, s.procs[s.run].start) && 0 < j < |s.procs[s.run].bits| - 8
    requires Inv(s)
    ensures var s1 := UserTaken(s, j, 1);
            TurnReady(s1, v) && Reachable(s1.ram, s1.cr3, v)
  {
    var p, s1 := s.procs[s.run], UserTaken(s, j, 1);
    assert ProcOk(s, s.run) by { InvProcs(s); }
    hide UserMapped;
    UserBitIdx(v, p, j);
    var page := PageNo(p, j);
    UserTurn(s, j, page);
    SamePage(s1, PfUser, v, page * PAGE);
    PageInPool(p, j);
    PageIndices(page, page / 1024, page % 1024);
    PageOf(v);
    hide Inv, BitIdx, ProcOk;
    InvTurnReady(s1, v);
  }

  // ------------------------------------------------------------- create_page_dir

  /** v is the address of a page whose frame f holds no entries. */
  ghost predicate DataPage(s: State, v: int, f: int) {
    && 0 <= v && v % PAGE == 0 && v + PAGE <= TOP && Walk(s.ram, s.cr3, v) == Some(f) && GoodFrame(s.ram, f)
    && !EntryPage(s, f)
  }

  lemma DataPageParts(s: State, v: int, f: int)
    requires DataPage(s, v, f)
    requires Inv(s)
    ensures GoodFrame(s.ram, f) && GoodFrame(s.ram, s.cr3) && f != s.cr3 && SelfMapped(s.ram, s.cr3)
  {
    InvRegions(s);
    SelfEntry(s, s.cr3);
    hide SelfMapped;
  }

  lemma DataFrame(s: State, v: int, f: int)
    requires DataPage(s, v, f)
    ensures f % PAGE == 0 && !EntryPage(s, f) && Address(v)
  {
  }

  /** ram is s's memory but for words of page f. */
  ghost predicate OnlyPage(s: State, ram: seq<int>, f: int) {
    |ram| == |s.ram| && forall i :: 0 <= i < |ram| && !(f / 4 <= i < f / 4 + 1024) ==> ram[i] == s.ram[i]
  }

  lemma OnlyPageEntry(s: State, ram: seq<int>, f: int, base: int, k: int)
    requires OnlyPage(s, ram, f) && f % PAGE == 0 && base % PAGE == 0 && base != f && 0 <= base && 0 <= k < 1024
    ensures Entry(ram, base, k) == Entry(s.ram, base, k)
  {
    OtherPageWord(base, k, f);
  }

  lemma SameLength(s: State, ram: seq<int>, f: int)
    requires OnlyPage(s, ram, f)
    requires Regions(s)
    ensures |ram| == |s.ram| && Regions(s.(ram := ram))
  {
  }

  /** Writing a page that holds no entries changes no translation. */
  lemma WalkOutside(s: State, ram: seq<int>, f: int, w: int)
    requires OnlyPage(s, ram, f) && f % PAGE == 0 && !EntryPage(s, f) && Address(w) && Walk(s.ram, s.cr3, w).Some?
    requires Inv(s)
    ensures Walk(ram, s.cr3, w) == Walk(s.ram, s.cr3, w)
  {
    var s' := s.(ram := ram);
    var e := PdeIdx(w);
    InvRegions(s);
    hide Inv, Walk, Entry, OnlyPage;
    WalkEntries(s, s.cr3, w);
    TableIsEntryPage(s, s.cr3, e);
    var t := FrameOf(Entry(s.ram, s.cr3, e));
    assert EntryPage(s, s.cr3);
    OnlyPageEntry(s, ram, f, s.cr3, e);
    OnlyPageEntry(s, ram, f, t, PteIdx(w));
    SameLength(s, ram, f);
    WalkEntries(s', s.cr3, w);
  }

  lemma OnlyPageSelf(s: State, ram: seq<int>, f: int)
    requires OnlyPage(s, ram, f) && SelfMapped(s.ram, s.cr3) && GoodFrame(s.ram, f) && f != s.cr3
    ensures SelfMapped(ram, s.cr3)
  {
    OtherPageWord(s.cr3, 1023, f);
    StillSelfMapped(s.ram, ram, s.cr3);
  }

  lemma OffsetIndices(v: int, k: int)
    requires 0 <= v && v % PAGE == 0 && v + PAGE <= TOP && 0 <= k < 1024
    ensures Address(v + 4 * k) && PdeIdx(v + 4 * k) == PdeIdx(v) && PteIdx(v + 4 * k) == PteIdx(v)
    ensures (v + 4 * k) % PAGE == 4 * k
  {
    assert (v + 4 * k) / PAGE == v / PAGE;
    assert v / 0x40_0000 == v / PAGE / 1024 && (v + 4 * k) / 0x40_0000 == (v + 4 * k) / PAGE / 1024;
  }

  lemma WalkOffset(ram: seq<int>, dir: int, v: int, f: int, k: int)
    requires 0 <= v && v % PAGE == 0 && v + PAGE <= TOP
    requires Walk(ram, dir, v) == Some(f) && GoodFrame(ram, f) && 0 <= k < 1024
    ensures Address(v + 4 * k) && Walk(ram, dir, v + 4 * k) == Some(f + 4 * k) && InRam(ram, f + 4 * k)
    ensures (f + 4 * k) / 4 == f / 4 + k
  {
    OffsetIndices(v, k);
    EntryWord(ram, f, k);
    hide PdeIdx, PteIdx, FrameOf, Present, InRam, GoodFrame;
  }

  /** Where word k of the page lies while its words are being written. */
  lemma WordOfPage(s: State, ram: seq<int>, v: int, f: int, k: int)
    requires OnlyPage(s, ram, f) && DataPage(s, v, f) && 0 <= k < 1024
    requires Inv(s)
    ensures Walk(ram, s.cr3, v + 4 * k) == Some(f + 4 * k) && InRam(ram, f + 4 * k) && (f + 4 * k) / 4 == f / 4 + k
  {
    WalkOffset(s.ram, s.cr3, v, f, k);
    hide Inv, Walk;
    WalkOutside(s, ram, f, v + 4 * k);
  }

  lemma ClearedWalk(s: State, v: int, f: int, i: int)
    requires DataPage(s, v, f) && 0 <= i < 1024
    requires Inv(s)
    ensures GoodFrame(s.ram, f)
    ensures var r := ClearedTo(s.ram, f, i);
      && Walk(r, s.cr3, v + 4 * i) == Some(f + 4 * i) && InRam(r, f + 4 * i) && (f + 4 * i) / 4 == f / 4 + i
      && r[f / 4 + i := 0] == ClearedTo(s.ram, f, i + 1)
  {
    hide Inv, Walk;
    WordOfPage(s, ClearedTo(s.ram, f, i), v, f, i);
    hide ClearedTo;
  }

  /** Page f cleared, and the first n entries of the kernel half copied into it. */
  function CopiedTo(ram: seq<int>, f: int, dir: int, n: int): (r: seq<int>)
    requires GoodFrame(ram, f) && GoodFrame(ram, dir) && 0 <= n <= 256
    ensures |r| == |ram|
    ensures forall i :: 0 <= i < |ram| ==>
              r[i] == if !(f / 4 <= i < f / 4 + 1024) then ram[i]
                      else if f / 4 + 768 <= i < f / 4 + 768 + n then ram[dir / 4 + (i - f / 4)] else 0
  {
    ram[..f / 4] + seq(768, _ => 0) + ram[dir / 4 + 768..dir / 4 + 768 + n] + seq(256 - n, _ => 0) + ram[f / 4 + 1024..]
  }

  lemma CopiedNone(ram: seq<int>, f: int, dir: int)
    requires GoodFrame(ram, f) && GoodFrame(ram, dir)
    ensures CopiedTo(ram, f, dir, 0) == ZeroPage(ram, f)
  {
    var a, b := CopiedTo(ram, f, dir, 0), ZeroPage(ram, f);
    forall i | 0 <= i < |ram| ensures a[i] == b[i] {}
  }

  lemma CopiedAll(ram: seq<int>, f: int, dir: int)
    requires GoodFrame(ram, f) && GoodFrame(ram, dir)
    ensures CopiedTo(ram, f, dir, 256)[f / 4 + 1023 := f + FLAGS] == NewDir(ram, f, dir)
  {
    var a, b := CopiedTo(ram, f, dir, 256)[f / 4 + 1023 := f + FLAGS], NewDir(ram, f, dir);
    forall i | 0 <= i < |ram| ensures a[i] == b[i] {}
  }

  lemma CopiedOnly(s: State, f: int, i: int)
    requires GoodFrame(s.ram, f) && GoodFrame(s.ram, s.cr3) && 0 <= i <= 256
    ensures OnlyPage(s, CopiedTo(s.ram, f, s.cr3, i), f)
  {
    var r := CopiedTo(s.ram, f, s.cr3, i);
    forall k | 0 <= k < |r| && !(f / 4 <= k < f / 4 + 1024) ensures r[k] == s.ram[k] {}
  }

  lemma CopiedNext(ram: seq<int>, f: int, dir: int, i: int)
    requires GoodFrame(ram, f) && GoodFrame(ram, dir) && dir != f && 0 <= i < 256
    ensures CopiedTo(ram, f, dir, i)[dir / 4 + 768 + i] == ram[dir / 4 + 768 + i]
    ensures CopiedTo(ram, f, dir, i)[f / 4 + 768 + i := ram[dir / 4 + 768 + i]] == CopiedTo(ram, f, dir, i + 1)
  {
    OtherPageWord(dir, 768 + i, f);
    hide CopiedTo;
  }

  lemma DirectoryIndex(k: int)
    requires 0 <= k < 1024
    ensures var v := 0x40_0000 * k; Address(v) && PdeIdx(v) == k && PdePtr(v) == 0xffff_f000 + 4 * k
  {
  }

  /** Entry k of the active directory is read at 0xfffff000 + 4k. */
  lemma OwnEntry(ram: seq<int>, dir: int, k: int)
    requires SelfMapped(ram, dir) && 0 <= k < 1024
    ensures var w := 0xffff_f000 + 4 * k;
            Address(w) && Walk(ram, dir, w) == Some(dir + 4 * k) && InRam(ram, dir + 4 * k)
    ensures (dir + 4 * k) / 4 == dir / 4 + k
  {
    DirectoryIndex(k);
    hide Walk, PdePtr, PdeIdx, PteIdx, Present, FrameOf;
    PdePtrReachesPde(ram, dir, 0x40_0000 * k);
    SelfMappedWords(ram, dir, 0x40_0000 * k);
  }

  lemma CopiedWalk(s: State, v: int, f: int, i: int)
    requires DataPage(s, v, f) && 0 <= i < 256
    requires Inv(s)
    ensures GoodFrame(s.ram, f) && GoodFrame(s.ram, s.cr3)
    ensures var r := CopiedTo(s.ram, f, s.cr3, i);
      && Walk(r, s.cr3, 0xffff_fc00 + 4 * i) == Some(s.cr3 + 4 * (768 + i)) && InRam(r, s.cr3 + 4 * (768 + i))
      && Walk(r, s.cr3, v + 0xc00 + 4 * i) == Some(f + 4 * (768 + i)) && InRam(r, f + 4 * (768 + i))
      && r[(f + 4 * (768 + i)) / 4 := r[(s.cr3 + 4 * (768 + i)) / 4]] == CopiedTo(s.ram, f, s.cr3, i + 1)
  {
    hide Inv, Walk, DataPage, CopiedTo, OnlyPage, SelfMapped;
    DataPageParts(s, v, f);
    CopiedOnly(s, f, i);
    var r := CopiedTo(s.ram, f, s.cr3, i);
    WordOfPage(s, r, v, f, 768 + i);
    OwnEntry(s.ram, s.cr3, 768 + i);
    DataFrame(s, v, f);
    WalkOutside(s, r, f, 0xffff_fc00 + 4 * i);
    CopiedNext(s.ram, f, s.cr3, i);
  }

  /** addr_v2p of the new page, and the store of its last entry. */
  lemma LastEntry(s: State, v: int, f: int)
    requires DataPage(s, v, f)
    requires Inv(s)
    ensures GoodFrame(s.ram, f) && GoodFrame(s.ram, s.cr3)
    ensures var r := CopiedTo(s.ram, f, s.cr3, 256);
      && Walk(r, s.cr3, PtePtr(v)).Some? && InRam(r, Walk(r, s.cr3, PtePtr(v)).value)
      && AddrV2P(r[Walk(r, s.cr3, PtePtr(v)).value / 4], v) == f
      && Walk(r, s.cr3, v + 4092).Some? && InRam(r, Walk(r, s.cr3, v + 4092).value)
      && r[Walk(r, s.cr3, v + 4092).value / 4 := f + FLAGS] == NewDir(s.ram, f, s.cr3)
  {
    hide Inv, Walk, DataPage, CopiedTo, NewDir, OnlyPage, SelfMapped, AddrV2P;
    DataPageParts(s, v, f);
    CopiedOnly(s, f, 256);
    var r := CopiedTo(s.ram, f, s.cr3, 256);
    WordOfPage(s, r, v, f, 1023);
    WordOfPage(s, r, v, f, 0);
    OnlyPageSelf(s, r, f);
    DataFrame(s, v, f);
    AddrV2PIsWalk(r, s.cr3, v, f);
    CopiedAll(s.ram, f, s.cr3);
  }

  /** The page that malloc_page got is a data page. */
  lemma NewPageIsData(s: State, m: Result)
    requires m.Got? && KernelPages(s, 1, m) && Inv(m.s) && Grows(s, m.s)
    requires m.s.dirs == s.dirs && m.s.cr3 == s.cr3 && |s.heap| >= 8
    requires Inv(s)
    ensures Walk(m.s.ram, m.s.cr3, m.v).Some? && DataPage(m.s, m.v, Walk(m.s.ram, m.s.cr3, m.v).value)
    ensures GoodFrame(m.s.ram, m.s.cr3)
  {
    hide Grows, HeapPte, RoomFor, Walk, HeapRunMapped, Entry;
    var i := RoomFor(s.heap, 1);
    assert 8 <= |s.heap| <= 32768;
    HeapVaddr(s, 1);
    NewPageWalk(s, m.s, i);
    HeapAddrIndices(i);
    var f := HeapPte(m.s.ram, i) - FLAGS;
    InvRegions(m.s);
    OldDirsOwned(s, f);
    assert !EntryPage(m.s, f);
    hide Inv, EntryPage;
  }

  /** What create_page_dir does in a new kernel page makes the specified state. */
  lemma NewDirPage(s: State)
    requires Inv(s)
    ensures var m := MemoryModel.MallocPage(s, PfKernel, 1);
      && !m.Stops? && Inv(m.s)
      && (m.Null? ==> MemoryModel.CreatePageDir(s) == m)
      && (m.Got? ==>
            && Walk(m.s.ram, m.s.cr3, m.v).Some? && DataPage(m.s, m.v, Walk(m.s.ram, m.s.cr3, m.v).value)
            && var f := Walk(m.s.ram, m.s.cr3, m.v).value;
               && GoodFrame(m.s.ram, f) && GoodFrame(m.s.ram, m.s.cr3)
               && MemoryModel.CreatePageDir(s) == Got(DirAdded(m.s, f), m.v))
  {
    assert |s.heap| >= 8;
    hide Inv, MemoryModel.MallocPage, Grows, Walk, EntryPage, KernelRun, RoomFor, FreeFrames;
    MallocKernel(s, 1);
    var m := MemoryModel.MallocPage(s, PfKernel, 1);
    if m.Got? { NewPageIsData(s, m); }
  }

  // ---------------------------------------------------------------- page_dir_activate

  lemma PgdirMapped(s: State, pgdir: int)
    requires pgdir != 0 && Permitted(s, Activate(pgdir))
    requires Inv(s)
    ensures Address(pgdir) && SelfMapped(s.ram, s.cr3) && Walk(s.ram, s.cr3, pgdir).Some?
  {
    var i :| IsPgdir(s, pgdir, i);
    HeapWalk(s, s.cr3, i);
    HeapAddrIndices(i);
    InvRegions(s);
    SelfEntry(s, s.cr3);
    hide Inv, Walk, SelfMapped, HeapPte;
  }

  /** What the pgdir address translates to, or the boot directory. */
  function Target(ram: seq<int>, cr3: int, pgdir: int): int {
    if pgdir == 0 then BOOT_DIR else if Walk(ram, cr3, pgdir).Some? then Walk(ram, cr3, pgdir).value else 0
  }

  lemma ActivateSets(s: State, pgdir: int)
    requires Permitted(s, Activate(pgdir))
    requires Inv(s)
    ensures pgdir != 0 ==> Address(pgdir) && SelfMapped(s.ram, s.cr3) && Walk(s.ram, s.cr3, pgdir).Some?
    ensures MemoryModel.PageDirActivate(s, pgdir) == Got(s.(cr3 := Target(s.ram, s.cr3, pgdir)), 0)
    ensures StepKept(s, s.(cr3 := Target(s.ram, s.cr3, pgdir)))
    ensures pgdir == 0 ==> Target(s.ram, s.cr3, pgdir) == 0x10_0000
  {
    ActivateKept(s, pgdir);
    if pgdir != 0 {
      PgdirMapped(s, pgdir);
      AddrV2PIsWalk(s.ram, s.cr3, pgdir, Walk(s.ram, s.cr3, pgdir).value);
    }
    hide Inv, Walk, SelfMapped, Permitted, StepKept;
  }
}
