/** malloc_page and get_a_page over consistent books: what they hand out, when they fail, when they stop. */
module MemoryAllocation {
  import opened Basics
  import opened Paging
  import opened MemoryModel
  import opened MemoryInvariants
  import opened MemorySafety

  // ------------------------------------------------------------------- vaddr_get

  /** Setting heap bits keeps the books, and a page that is not mapped becomes fresh. */
  lemma HeapTakenKept(s: State, idx: int, cnt: nat)
    requires 0 <= idx && idx + cnt <= HeapPages(s) && |s.heap| >= 8
    requires Inv(s)
    ensures var s1 := HeapTaken(s, idx, cnt);
      && Inv(s1) && Grows(s, s1)
      && forall i :: idx <= i < idx + cnt && !Present(HeapPte(s.ram, i)) ==> FreshHeapPage(s1, i)
  {
    hide HeapPte, Entry, TablesOk, UserOk, KernelTable;
    var s1 := HeapTaken(s, idx, cnt);
    hide DirsOk;
    assert BootOk(s1) by { hide SetRun; }
    assert HeapOk(s1) && PoolsOk(s1) && Sizes(s1);
    SameBooks(s, s1);
    ProcsUnconcerned(s, s1);
    GrowsHere(s, s1);
  }

  lemma ClearHeapPage(s: State, i: int)
    requires 0 <= i < HeapPages(s) && i < |s.heap| && !s.heap[i]
    requires Inv(s)
    ensures !Present(HeapPte(s.ram, i))
  {
    hide HeapPte;
  }

  lemma SameBooks(s: State, s1: State)
    requires s1.ram == s.ram && s1.dirs == s.dirs && s1.owner == s.owner && s1.uowner == s.uowner && s1.cr3 in s.dirs
    ensures DirsOk(s) ==> DirsOk(s1)
    ensures TablesOk(s) ==> TablesOk(s1)
    ensures UserOk(s) ==> UserOk(s1)
  {
    hide Entry, KernelTable;
    if UserOk(s) {
      forall g | g in s1.uowner ensures UserBack(s1, g) { assert UserBack(s, g); }
    }
  }

  lemma GrowsHere(s: State, s1: State)
    requires s1.ram == s.ram && s1.dirs == s.dirs && s1.owner == s.owner
    ensures Grows(s, s1)
  {
    hide Entry;
  }

  lemma UserTakenKept(s: State, idx: int, cnt: nat)
    requires s.run in s.procs && |s.procs[s.run].bits| >= 8 && 0 <= idx && idx + cnt <= |s.procs[s.run].bits| - 7
    requires Inv(s)
    ensures Inv(UserTaken(s, idx, cnt)) && Grows(s, UserTaken(s, idx, cnt))
  {
    hide HeapPte, Entry, DirsOk, TablesOk, UserOk, KernelTable, ProcsOk, Grows, SetRun, HeapOk, PoolsOk, BootOk;
    var s1 := UserTaken(s, idx, cnt);
    assert s1 == s.(procs := s1.procs);
    SameBooks(s, s1) by { ActiveDir(s); }
    GrowsHere(s, s1);
    UserTakenProcs(s, s1, idx, cnt);
    SameHeapBooks(s, s1);
  }

  lemma ActiveDir(s: State)
    requires Inv(s)
    ensures s.cr3 in s.dirs
  {
  }

  lemma SameHeapBooks(s: State, s1: State)
    requires s1 == s.(procs := s1.procs)
    ensures Sizes(s) ==> Sizes(s1)
    ensures PoolsOk(s) ==> PoolsOk(s1)
    ensures HeapOk(s) ==> HeapOk(s1)
    ensures BootOk(s) ==> BootOk(s1)
  {
    hide HeapPte, Entry;
  }

  lemma UserTakenProcs(s: State, s1: State, idx: int, cnt: nat)
    requires s.run in s.procs && |s.procs[s.run].bits| >= 8 && 0 <= idx && idx + cnt <= |s.procs[s.run].bits| - 7
    requires s1.dirs == s.dirs && s1.uowner == s.uowner && s1.procs == UserTaken(s, idx, cnt).procs
    requires ProcsOk(s)
    ensures ProcsOk(s1)
  {
    hide UserMapped;
    forall d | d in s1.procs ensures ProcOk(s1, d) { assert ProcOk(s, d); }
  }

  /** The page number of the address pool's page j. */
  function PageNo(p: Pool, j: int): int { p.start / PAGE + j }

  /** The running process's own directory is active, or the boot directory, whose first 4 MB are the heap's. */
  ghost predicate OwnOrBoot(s: State) {
    s.run in s.procs && (s.cr3 == s.run || (s.cr3 == BOOT_DIR && s.procs[s.run].start >= 0x40_0000))
  }

  /** A page whose bit is set can be mapped; if its bit was clear, the process's own directory does not map it yet. */
  lemma UserTakenPlaced(s: State, idx: int, cnt: nat, j: int)
    requires OwnOrBoot(s)
    requires |s.procs[s.run].bits| >= 8 && 0 <= idx && idx + cnt <= |s.procs[s.run].bits| - 7
    requires idx <= j < idx + cnt && s.procs[s.run].start + (j + 1) * PAGE <= USER_TOP
    requires ProcsOk(s)
    ensures var page := PageNo(s.procs[s.run], j);
      && 0 <= page < 768 * 1024 && PlacedUserPage(UserTaken(s, idx, cnt), page)
      && (!s.procs[s.run].bits[j] ==> !UserMapped(s.uowner, s.run, page))
  {
    assert ProcOk(s, s.run);
    assert BOOT_DIR in s.procs ==> ProcOk(s, BOOT_DIR);
    PageInPool(s.procs[s.run], j);
    if s.procs[s.run].start >= 0x40_0000 { PageAbove(s.procs[s.run], j); }
    hide UserMapped;
  }

  lemma PageAbove(p: Pool, j: int)
    requires 0 <= j && p.start % PAGE == 0 && p.start >= 0x40_0000
    ensures PageNo(p, j) / 1024 > 0
  {
  }

  lemma PageInPool(p: Pool, j: int)
    requires 0 <= j && 0 <= p.start && p.start % PAGE == 0 && p.start + (j + 1) * PAGE <= USER_TOP
    ensures 0 <= PageNo(p, j) < 768 * 1024 && PageNo(p, j) * PAGE == p.start + j * PAGE
  {
  }

  /** Every page with a clear bit lies below the kernel half. */
  lemma ClearBitBelow(s: State, d: int, j: int)
    requires d in s.procs && ProcOk(s, d) && 0 <= j < |s.procs[d].bits| - 7 && !s.procs[d].bits[j]
    ensures s.procs[d].start + (j + 1) * PAGE <= USER_TOP
  {
    hide UserMapped;
  }

  // ------------------------------------------------------------------- malloc_page

  /** Kernel pages i to i + cnt are handed out, and n of them mapped. */
  ghost predicate KernelRun(s: State, s': State, i: int, cnt: nat, n: nat) {
    && 0 <= i && i + cnt <= |s.heap| && s'.heap == SetRun(s.heap, i, cnt) && HeapRunMapped(s, s', i, n)
    && |FreeFrames(s'.kernel)| == |FreeFrames(s.kernel)| - n && s'.procs == s.procs
  }

  /** What a call of malloc_page for kernel pages does: it succeeds exactly if there are room and frames enough. */
  ghost predicate KernelPages(s: State, cnt: nat, r: Result) {
    var i, f := RoomFor(s.heap, cnt), |FreeFrames(s.kernel)|;
    && (r == Stops(CountAssert) <==> !(0 < cnt < 3840)) && (r.Stops? ==> r.why == CountAssert)
    && (r.Got? <==> 0 < cnt < 3840 && i != -1 && cnt <= f) && (r.Got? ==> r.v == 0xc010_0000 + i * 0x1000)
    && (r.Null? && i == -1 ==> r.s == s)
    && (!r.Stops? && i != -1 ==> KernelRun(s, r.s, i, cnt, if cnt <= f then cnt else f))
  }

  /** The books stay right and no translation is lost. */
  ghost predicate Sound(s: State, s': State) {
    Inv(s') && Grows(s, s') && s'.dirs == s.dirs && s'.cr3 == s.cr3 && s'.run == s.run
  }

  ghost predicate ResultSound(s: State, r: Result) { !r.Stops? ==> Sound(s, r.s) }

  lemma HeapRunAfter(s: State, s1: State, s2: State, i: int, n: nat)
    requires s1.ram == s.ram && s1.owner == s.owner && s1.kernel == s.kernel && |s1.heap| == |s.heap|
    requires s1.user == s.user && s1.uowner == s.uowner && HeapRunMapped(s1, s2, i, n)
    ensures HeapRunMapped(s, s2, i, n)
  {
    hide HeapPte, InPool;
  }

  lemma KernelLoop(s: State, i: int, cnt: nat)
    requires 0 <= i && i + cnt <= HeapPages(s) && |s.heap| >= 8
    requires forall j :: i <= j < i + cnt ==> !Present(HeapPte(s.ram, j))
    requires Inv(s)
    ensures var r, f := MapPages(HeapTaken(s, i, cnt), PfKernel, HeapAddr(i), cnt), |FreeFrames(s.kernel)|;
      && !r.MapStops? && Sound(s, r.s) && (r.Mapped? <==> cnt <= f)
      && KernelRun(s, r.s, i, cnt, if cnt <= f then cnt else f)
  {
    hide Inv, FreeBit, FreeFrames, HeapRunMapped, Grows, FreshHeapPage, SetRun, HeapPte;
    HeapTakenKept(s, i, cnt);
    var s1 := HeapTaken(s, i, cnt);
    MapHeapPages(s1, i, cnt);
    var r, f := MapPages(s1, PfKernel, HeapAddr(i), cnt), |FreeFrames(s.kernel)|;
    hide MapPages;
    GrowsTrans(s, s1, r.s);
    HeapRunAfter(s, s1, r.s, i, if cnt <= f then cnt else f);
  }

  lemma HeapVaddr(s: State, cnt: nat)
    requires |s.heap| >= 8 && 0 < cnt
    ensures var i := RoomFor(s.heap, cnt);
            VaddrGet(s, PfKernel, cnt) == if i == -1 then Null(s) else Got(HeapTaken(s, i, cnt), HeapAddr(i))
    ensures var i := RoomFor(s.heap, cnt);
            i != -1 ==> 0 <= i && i + cnt <= HeapPages(s) && forall j :: i <= j < i + cnt ==> !s.heap[j]
  {
    hide RoomFor, SetRun;
  }

  lemma NoKernelAddresses(s: State, cnt: nat)
    requires |s.heap| >= 8 && (!(0 < cnt < 3840) || RoomFor(s.heap, cnt) == -1)
    ensures MallocPage(s, PfKernel, cnt) == if 0 < cnt < 3840 then Null(s) else Stops(CountAssert)
  {
    if 0 < cnt { HeapVaddr(s, cnt); }
    hide RoomFor, HeapTaken, VaddrGet;
  }

  /** malloc_page once the addresses are found. */
  lemma MallocKernelIs(s: State, cnt: nat, i: int)
    requires |s.heap| >= 8 && 0 < cnt < 3840 && i == RoomFor(s.heap, cnt) && i != -1
    ensures 0 <= i && i + cnt <= HeapPages(s) && forall j :: i <= j < i + cnt ==> !s.heap[j]
    ensures MallocPage(s, PfKernel, cnt)
         == AsResult(MapPages(HeapTaken(s, i, cnt), PfKernel, HeapAddr(i), cnt), HeapAddr(i))
  {
    HeapVaddr(s, cnt);
    hide RoomFor, HeapTaken, VaddrGet, MapPages;
  }

  lemma MallocKernel(s: State, cnt: nat)
    requires Inv(s)
    ensures KernelPages(s, cnt, MallocPage(s, PfKernel, cnt)) && ResultSound(s, MallocPage(s, PfKernel, cnt))
  {
    assert |s.heap| >= 8;
    GrowsSelf(s);
    hide Inv, RoomFor, FreeBit, FreeFrames, HeapRunMapped, Grows, HeapTaken, MapPages, VaddrGet, KernelRun, HeapPte,
      MallocPage;
    var i := RoomFor(s.heap, cnt);
    if 0 < cnt < 3840 && i != -1 {
      MallocKernelIs(s, cnt, i);
      forall j | i <= j < i + cnt ensures !Present(HeapPte(s.ram, j)) { ClearHeapPage(s, j); }
      KernelLoop(s, i, cnt);
    } else {
      NoKernelAddresses(s, cnt);
    }
  }

  /** What mapping the cnt pages from address v, page number `page`, on comes to. */
  ghost predicate UserBlock(s: State, page: int, cnt: nat, v: int, r: Result) {
    var f, n := |FreeFrames(s.user)|, Mappable(s, page, cnt);
    && (r == Stops(NoTableFrame) <==> TooFewForTables(s, page, cnt))
    && (r == Stops(PteBusy) <==> !TooFewForTables(s, page, cnt) && n < cnt && n < f)
    && (r.Null? <==> !TooFewForTables(s, page, cnt) && n < cnt && n == f)
    && (r.Got? <==> !TooFewForTables(s, page, cnt) && n == cnt) && (r.Got? ==> r.v == v)
    && (!r.Stops? ==> UserRunMapped(s, r.s, page, n))
  }

  /** What a call of malloc_page for user pages does, and exactly when it stops at which place. */
  ghost predicate UserPages(s: State, cnt: nat, r: Result)
    requires s.run in s.procs
  {
    UserPagesFrom(s, s.procs[s.run], RoomFor(s.procs[s.run].bits, cnt), cnt, r)
  }

  ghost predicate UserPagesFrom(s: State, p: Pool, i: int, cnt: nat, r: Result) {
    var v := p.start + i * PAGE;
    && (r == Stops(CountAssert) <==> !(0 < cnt < 3840))
    && (r == Stops(UserVaddrAssert) <==> 0 < cnt < 3840 && i != -1 && v >= 0xbfff_f000)
    && (0 < cnt < 3840 && i == -1 ==> r == Null(s))
    && (0 < cnt < 3840 && i != -1 && v < 0xbfff_f000 ==>
          && UserBlock(s, PageNo(p, i), cnt, v, r)
          && 0 <= i && i + cnt <= |p.bits|
          && (!r.Stops? ==> r.s.procs == s.procs[s.run := p.(bits := SetRun(p.bits, i, cnt))]))
  }

  lemma UserRunAfter(s: State, s1: State, s2: State, page: int, n: nat)
    requires s1.cr3 == s.cr3 && s1.owner == s.owner && s1.user == s.user && s1.uowner == s.uowner
    requires UserRunMapped(s1, s2, page, n)
    ensures UserRunMapped(s, s2, page, n)
  {
    hide UserMapped, InPool;
  }

  lemma UserRoom(s: State, cnt: nat)
    requires OwnOrBoot(s) && 0 < cnt && ProcsOk(s) && RoomFor(s.procs[s.run].bits, cnt) != -1
    ensures var p, i := s.procs[s.run], RoomFor(s.procs[s.run].bits, cnt);
      && |p.bits| >= 8 && 0 <= i && i + cnt <= |p.bits| - 7
      && 0 <= PageNo(p, i) && PageNo(p, i) * PAGE == p.start + i * PAGE
      && (p.start + i * PAGE >= USER_TOP - PAGE ==> p.start + i * PAGE == USER_TOP - PAGE && cnt == 1)
      && (forall j :: PageNo(p, i) <= j < PageNo(p, i) + cnt ==> PlacedUserPage(UserTaken(s, i, cnt), j))
      && (forall j :: PageNo(p, i) <= j < PageNo(p, i) + cnt ==> !UserMapped(s.uowner, s.run, j))
  {
    var p, i := s.procs[s.run], RoomFor(s.procs[s.run].bits, cnt);
    assert ProcOk(s, s.run);
    ClearBitBelow(s, s.run, i + cnt - 1);
    PageInPool(p, i);
    hide UserMapped, PlacedUserPage, UserTaken, ProcsOk, RoomFor, OwnOrBoot;
    forall j | PageNo(p, i) <= j < PageNo(p, i) + cnt
      ensures PlacedUserPage(UserTaken(s, i, cnt), j) && !UserMapped(s.uowner, s.run, j)
    {
      UserTakenPlaced(s, i, cnt, j - p.start / PAGE);
    }
  }

  /** Handing out addresses changes nothing that the loop looks at. */
  lemma UserBlockAfter(s: State, s1: State, page: int, cnt: nat, v: int, r: MapResult)
    requires s1 == s.(procs := s1.procs) && UserLoop(s1, page, cnt, r)
    ensures UserBlock(s, page, cnt, v, AsResult(r, v))
  {
    UnmappedElsewhere(s, s1, page, cnt);
    MissingElsewhere(s, s1, page, Mappable(s1, page, cnt));
    hide UserMapped, FreeFrames, UserRunMapped, MissingTables;
    if !r.MapStops? { UserRunAfter(s, s1, r.s, page, Mappable(s1, page, cnt)); }
  }

  lemma UnmappedElsewhere(s: State, s1: State, page: int, cnt: nat)
    requires s1.uowner == s.uowner && s1.cr3 == s.cr3
    ensures Unmapped(s1, page, cnt) == Unmapped(s, page, cnt)
    decreases cnt
  {
    hide UserMapped;
    if cnt > 0 && !UserMapped(s.uowner, s.cr3, page) { UnmappedElsewhere(s, s1, page + 1, cnt - 1); }
  }

  lemma MissingElsewhere(s: State, s1: State, page: int, n: nat)
    requires s1.ram == s.ram && s1.cr3 == s.cr3
    ensures MissingTables(s1, page, n) == MissingTables(s, page, n)
  {
    assert forall e :: HasTable(s1, e) == HasTable(s, e);
    hide HasTable;
  }

  lemma UserLoopRuns(s: State, i: int, page: int, v: int, cnt: nat)
    requires v == page * PAGE && 0 <= page
    requires s.run in s.procs && |s.procs[s.run].bits| >= 8 && 0 <= i && i + cnt <= |s.procs[s.run].bits| - 7
    requires forall j :: page <= j < page + cnt ==> PlacedUserPage(UserTaken(s, i, cnt), j)
    requires Inv(s)
    ensures var r := MapPages(UserTaken(s, i, cnt), PfUser, v, cnt);
      && UserBlock(s, page, cnt, v, AsResult(r, v))
      && (!r.MapStops? ==> Sound(s, r.s) && r.s.procs == UserTaken(s, i, cnt).procs)
  {
    hide Inv, FreeFrames, UserRunMapped, Grows, PlacedUserPage, SetRun, UserLoop, UserBlock;
    UserTakenKept(s, i, cnt);
    var s1 := UserTaken(s, i, cnt);
    MapUserPages(s1, page, cnt);
    var r := MapPages(s1, PfUser, v, cnt);
    hide MapPages;
    UserBlockAfter(s, s1, page, cnt, v, r);
    if !r.MapStops? { GrowsTrans(s, s1, r.s); }
  }

  lemma UserVaddr(s: State, cnt: nat)
    requires s.run in s.procs
    ensures var p, i := s.procs[s.run], RoomFor(s.procs[s.run].bits, cnt);
            i != -1 ==> 0 <= i && i + cnt <= |p.bits|
    ensures var p, i := s.procs[s.run], RoomFor(s.procs[s.run].bits, cnt);
            VaddrGet(s, PfUser, cnt) == if i == -1 then Null(s)
                                        else if p.start + i * PAGE >= USER_TOP - PAGE then Stops(UserVaddrAssert)
                                        else Got(UserTaken(s, i, cnt), p.start + i * PAGE)
  {
    hide RoomFor, SetRun;
  }

  /** The boot directory maps address 0. */
  lemma BootMapsZero(s: State)
    requires Inv(s)
    ensures Walk(s.ram, BOOT_DIR, 0) == Some(0)
  {
    assert BOOT_DIR in s.dirs && 0x20_0000 <= 4 * |s.ram|;
    InvRegions(s);
    assert Entry(s.ram, BOOT_DIR, 0) == KernelTable(768) + FLAGS;
    assert Entry(s.ram, KernelTable(768), 0) == 0 + FLAGS;
    KernelTablePage(768);
    hide Inv, Walk, Entry, KernelTable;
    FrameOfEntry(KernelTable(768));
    FrameOfEntry(0);
    WalkEntries(s, BOOT_DIR, 0);
  }

  /** A thread without an address pool gets no pages: a fault exactly if address 0, which the boot directory maps, is
      not mapped, and NULL otherwise. */
  lemma NoPool(s: State, cnt: nat)
    requires s.run !in s.procs
    requires Inv(s)
    ensures MallocPage(s, PfUser, cnt)
         == if !(0 < cnt < 3840) then Stops(CountAssert)
            else if Walk(s.ram, s.cr3, 0) == None then Stops(PageFault) else Null(s)
    ensures s.cr3 == BOOT_DIR && 0 < cnt < 3840 ==> MallocPage(s, PfUser, cnt) == Null(s)
  {
    hide Walk, Inv;
    BootMapsZero(s);
  }

  /** malloc_page once the addresses are found. */
  lemma MallocUserIs(s: State, p: Pool, i: int, v: int, cnt: nat)
    requires s.run in s.procs && p == s.procs[s.run] && i == RoomFor(p.bits, cnt) && v == p.start + i * PAGE
    requires 0 < cnt < 3840 && i != -1
    ensures 0 <= i && i + cnt <= |p.bits|
    ensures MallocPage(s, PfUser, cnt) == if v >= USER_TOP - PAGE then Stops(UserVaddrAssert)
                                          else AsResult(MapPages(UserTaken(s, i, cnt), PfUser, v, cnt), v)
  {
    UserVaddr(s, cnt);
    hide RoomFor, MapPages, UserTaken, VaddrGet;
  }

  lemma NoAddresses(s: State, cnt: nat)
    requires s.run in s.procs && (!(0 < cnt < 3840) || RoomFor(s.procs[s.run].bits, cnt) == -1)
    ensures MallocPage(s, PfUser, cnt) == if 0 < cnt < 3840 then Null(s) else Stops(CountAssert)
  {
    UserVaddr(s, cnt);
    hide RoomFor, UserTaken, VaddrGet;
  }

  lemma UserBlockStops(s: State, page: int, cnt: nat, v: int, r: Result)
    requires UserBlock(s, page, cnt, v, r)
    ensures r != Stops(CountAssert) && r != Stops(UserVaddrAssert)
  {
    hide UserRunMapped, TooFewForTables, FreeFrames, Unmapped;
  }

  lemma UserPagesCases(s: State, p: Pool, i: int, cnt: nat, r: Result)
    requires s.run in s.procs
    requires var v := p.start + i * PAGE;
      if !(0 < cnt < 3840) then r == Stops(CountAssert)
      else if i == -1 then r == Null(s)
      else if v >= USER_TOP - PAGE then r == Stops(UserVaddrAssert)
      else && UserBlock(s, PageNo(p, i), cnt, v, r) && 0 <= i && i + cnt <= |p.bits|
           && (!r.Stops? ==> r.s.procs == s.procs[s.run := p.(bits := SetRun(p.bits, i, cnt))])
    ensures UserPagesFrom(s, p, i, cnt, r)
  {
    hide UserBlock, PageNo, SetRun;
    var v := p.start + i * PAGE;
    if 0 < cnt < 3840 && i != -1 && v < USER_TOP - PAGE { UserBlockStops(s, PageNo(p, i), cnt, v, r); }
  }

  lemma MallocUser(s: State, cnt: nat)
    requires OwnOrBoot(s) && Inv(s)
    ensures UserPages(s, cnt, MallocPage(s, PfUser, cnt)) && ResultSound(s, MallocPage(s, PfUser, cnt))
  {
    hide Inv, RoomFor, FreeFrames, UserRunMapped, Grows, MapPages, ProcsOk, PlacedUserPage, VaddrGet, PageNo, UserBlock,
      MallocPage, SetRun, UserMapped, UserPagesFrom;
    InvProcs(s);
    GrowsSelf(s);
    var p, i := s.procs[s.run], RoomFor(s.procs[s.run].bits, cnt);
    var v := p.start + i * PAGE;
    if 0 < cnt < 3840 && i != -1 {
      UserRoom(s, cnt);
      UserLoopRuns(s, i, PageNo(p, i), v, cnt);
      MallocUserIs(s, p, i, v, cnt);
    } else {
      NoAddresses(s, cnt);
    }
    UserPagesCases(s, p, i, cnt, MallocPage(s, PfUser, cnt));
  }

  /** While a process's own directory is active, no page of the room that malloc_page finds is mapped. */
  lemma OwnRoomUnmapped(s: State, page: int, cnt: nat)
    requires s.cr3 == s.run && forall j :: page <= j < page + cnt ==> !UserMapped(s.uowner, s.run, j)
    ensures Unmapped(s, page, cnt) == cnt
    decreases cnt
  {
    hide UserMapped;
    if cnt > 0 { OwnRoomUnmapped(s, page + 1, cnt - 1); }
  }

  /** malloc_page for a process whose own directory is active. Once it has addresses, it stops exactly when the pages
      that the user pool has frames for need more new page tables than the kernel pool has frames; otherwise it
      succeeds exactly when the user pool has frames enough. */
  lemma MallocUserOwn(s: State, cnt: nat)
    requires s.run in s.procs && s.cr3 == s.run && Inv(s)
    ensures var p, i, r := s.procs[s.run], RoomFor(s.procs[s.run].bits, cnt), MallocPage(s, PfUser, cnt);
            var f, page := |FreeFrames(s.user)|, PageNo(p, i);
            var short := |MissingTables(s, page, if cnt <= f then cnt else f)| > |FreeFrames(s.kernel)|;
      0 < cnt < 3840 && i != -1 && p.start + i * PAGE < 0xbfff_f000 ==>
        && (r.Stops? <==> short) && (r.Stops? ==> r.why == NoTableFrame)
        && (r.Got? <==> !short && cnt <= f) && (r.Got? ==> r.v == p.start + i * PAGE)
        && (!r.Stops? ==> UserRunMapped(s, r.s, page, if cnt <= f then cnt else f))
  {
    MallocUser(s, cnt);
    InvProcs(s);
    var p, i := s.procs[s.run], RoomFor(s.procs[s.run].bits, cnt);
    hide Inv, RoomFor, FreeFrames, UserRunMapped, MissingTables, MallocPage, ProcsOk, PageNo, UserMapped,
      PlacedUserPage, ResultSound, Unmapped;
    if 0 < cnt < 3840 && i != -1 {
      UserRoom(s, cnt);
      OwnRoomUnmapped(s, PageNo(p, i), cnt);
    }
  }

  lemma InvProcs(s: State)
    requires Inv(s)
    ensures ProcsOk(s)
  {
  }

  // -------------------------------------------------------------------- get_a_page

  lemma PageOf(v: int)
    requires Address(v)
    ensures var w := v - v % PAGE;
      && Address(w) && w % PAGE == 0 && PdeIdx(w) == PdeIdx(v) && PteIdx(w) == PteIdx(v)
      && (w - K_HEAP_START) / PAGE == (v - K_HEAP_START) / PAGE
  {
  }

  /** Which address inside the page is asked for does not matter. */
  lemma SamePage(s: State, pf: Kind, v: int, w: int)
    requires Address(v) && w == v - v % PAGE
    ensures Reachable(s.ram, s.cr3, v) <==> Reachable(s.ram, s.cr3, w)
    ensures Reachable(s.ram, s.cr3, v) ==> MapOne(s, pf, v) == MapOne(s, pf, w)
  {
    PageOf(v);
    hide PdeIdx, PteIdx, FreeBit, Present, ZeroPage, FrameOf;
    assert PdeAt(s.cr3, v) == PdeAt(s.cr3, w);
    assert forall pde :: PteAt(pde, v) == PteAt(pde, w);
    hide PdeAt, PteAt;
    if Reachable(s.ram, s.cr3, v) {
      forall s1: State, frame | s1.ram == s.ram && s1.cr3 == s.cr3
        ensures PageTableAdd(s1, v, frame) == PageTableAdd(s1, w, frame)
      {
      }
      hide PageTableAdd;
    }
  }

  /** What a call of get_a_page for kernel page j does: it stops exactly when the page is mapped and a frame is left. */
  ghost predicate KernelPage(s: State, j: int, r: Result)
    requires 0 <= j < |s.heap| - 8
  {
    && (r.Stops? <==> Present(HeapPte(s.ram, j)) && FreeBit(s.kernel) != -1)
    && (r.Stops? ==> r.why == PteBusy)
    && (r.Null? <==> FreeBit(s.kernel) == -1) && (r.Null? ==> r.s == HeapTaken(s, j, 1))
    && (r.Got? ==> r.s.heap == s.heap[j := true] && HeapRunMapped(s, r.s, j, 1))
  }

  lemma HeapBusy(s: State, i: int)
    requires Inv(s) && 0 <= i < HEAP_ENTRIES && Present(HeapPte(s.ram, i)) && FreeBit(s.kernel) != -1
    ensures Reachable(s.ram, s.cr3, HeapAddr(i)) && MapOne(s, PfKernel, HeapAddr(i)) == MapStops(PteBusy)
  {
    HeapWalk(s, s.cr3, i);
    HeapAddrIndices(i);
    HeapTables(i);
    hide Inv, FreeBit;
  }

  lemma OneTurn(s: State, pf: Kind, v: int)
    ensures MapPages(s, pf, v, 1) == if !Reachable(s.ram, s.cr3, v) then MapStops(PageFault) else MapOne(s, pf, v)
  {
    hide MapOne, Reachable;
    if Reachable(s.ram, s.cr3, v) {
      var r := MapOne(s, pf, v);
      assert r.Mapped? ==> MapPages(r.s, pf, v + PAGE, 0) == r;
    }
  }

  lemma HeapBitIdx(v: int, j: int)
    requires Address(v) && j == BitIdx(v, K_HEAP_START) && 0 < j < 32768
    ensures v - v % PAGE == HeapAddr(j)
  {
  }

  lemma HereOnPage(s: State, pf: Kind, v: int, w: int)
    requires Address(v) && w == v - v % PAGE
    ensures MapHere(s, pf, v) == AsResult(MapPages(s, pf, w, 1), v)
  {
    SamePage(s, pf, v, w);
    OneTurn(s, pf, w);
    hide MapOne, Reachable, MapPages;
  }

  lemma NoKernelFrame(s: State, i: int)
    requires FreeBit(s.kernel) == -1 && Reachable(s.ram, s.cr3, HeapAddr(i))
    ensures MapPages(s, PfKernel, HeapAddr(i), 1) == NoFrame(s)
  {
    OneTurn(s, PfKernel, HeapAddr(i));
    hide FreeBit, MapPages, Reachable;
  }

  lemma FreshTurn(s: State, j: int)
    requires 0 <= j < |s.heap| - 8 && !Present(HeapPte(s.ram, j)) && FreeBit(s.kernel) != -1
    requires Inv(s)
    ensures var r := MapPages(HeapTaken(s, j, 1), PfKernel, HeapAddr(j), 1);
            r.Mapped? && Sound(s, r.s) && HeapRunMapped(s, r.s, j, 1) && r.s.heap == SetRun(s.heap, j, 1)
  {
    var s1 := HeapTaken(s, j, 1);
    hide FreeBit, HeapRunMapped, Grows, HeapPte, MapHeap, MapOne, MapPages, Reachable, FreshHeapPage, FreeFrames;
    assert FreeFrames(s.kernel) != {} by { FreeFramesTaken(s.kernel); }
    HeapTakenKept(s, j, 1);
    MapOneHeap(s1, j);
    hide Inv;
    OneTurn(s1, PfKernel, HeapAddr(j));
    KernelLoop(s, j, 1);
  }

  lemma BusyTurn(s: State, j: int)
    requires 0 <= j < |s.heap| - 8 && (Present(HeapPte(s.ram, j)) || FreeBit(s.kernel) == -1)
    requires Inv(s)
    ensures var s1 := HeapTaken(s, j, 1);
      && Sound(s, s1)
      && MapPages(s1, PfKernel, HeapAddr(j), 1) == if FreeBit(s.kernel) == -1 then NoFrame(s1) else MapStops(PteBusy)
  {
    var s1 := HeapTaken(s, j, 1);
    assert |s.heap| <= 32768;
    HeapTakenKept(s, j, 1);
    assert Reachable(s1.ram, s1.cr3, HeapAddr(j)) by { HeapWalk(s1, s1.cr3, j); }
    hide FreeBit, Grows, HeapPte, MapOne, MapPages, Reachable, HeapAddr, FreshHeapPage;
    if FreeBit(s.kernel) == -1 {
      NoKernelFrame(s1, j);
    } else {
      HeapBusy(s1, j);
      OneTurn(s1, PfKernel, HeapAddr(j));
    }
    hide Inv;
  }

  lemma KernelTurnIs(s: State, j: int, r: MapResult, v: int)
    requires 0 <= j < |s.heap| - 8
    requires if Present(HeapPte(s.ram, j)) || FreeBit(s.kernel) == -1
             then && Sound(s, HeapTaken(s, j, 1))
                  && r == if FreeBit(s.kernel) == -1 then NoFrame(HeapTaken(s, j, 1)) else MapStops(PteBusy)
             else r.Mapped? && Sound(s, r.s) && HeapRunMapped(s, r.s, j, 1) && r.s.heap == SetRun(s.heap, j, 1)
    ensures KernelPage(s, j, AsResult(r, v)) && ResultSound(s, AsResult(r, v))
  {
    hide FreeBit, HeapRunMapped, HeapPte, HeapTaken, Present, Sound;
    assert SetRun(s.heap, j, 1) == s.heap[j := true];
  }

  lemma KernelHere(s: State, v: int, j: int)
    requires Address(v) && v - v % PAGE == HeapAddr(j) && 0 <= j < |s.heap| - 8 <= 32768
    requires Inv(s)
    ensures var r := MapHere(HeapTaken(s, j, 1), PfKernel, v);
            KernelPage(s, j, r) && ResultSound(s, r)
  {
    HereOnPage(HeapTaken(s, j, 1), PfKernel, v, HeapAddr(j));
    hide Inv, FreeBit, HeapRunMapped, Grows, HeapPte, MapPages, MapHere, HeapAddr, HeapTaken, Present, Sound,
      KernelPage,
      ResultSound, AsResult;
    if Present(HeapPte(s.ram, j)) || FreeBit(s.kernel) == -1 {
      BusyTurn(s, j);
    } else {
      FreshTurn(s, j);
    }
    KernelTurnIs(s, j, MapPages(HeapTaken(s, j, 1), PfKernel, HeapAddr(j), 1), v);
  }

  lemma GetAPageKernel(s: State, v: int)
    requires Address(v) && s.run == BOOT_DIR
    requires Inv(s)
    ensures var j, r := BitIdx(v, K_HEAP_START), GetAPage(s, PfKernel, v);
      && ResultSound(s, r) && (r.Got? ==> r.v == v)
      && if 0 < j < |s.heap| - 8 then KernelPage(s, j, r) else r == Stops(if j <= 0 then IndexAssert else OutsidePool)
  {
    var j := BitIdx(v, K_HEAP_START);
    assert |s.heap| <= 32768;
    hide Inv, BitIdx, MapHere, HeapTaken, HeapAddr, KernelPage, ResultSound;
    if 0 < j < |s.heap| - 8 {
      HeapBitIdx(v, j);
      KernelHere(s, v, j);
    }
    assert forall why :: ResultSound(s, Stops(why)) by { StopsSound(s); }
  }

  /** The index that get_a_page computes for v in an address pool of n pages from `start` on is in range exactly for the
      addresses of its pages, the first page being index 0, and is the number of the page then. */
  lemma PoolIndex(start: int, n: nat, v: int)
    requires Address(v) && 0 <= start && n > 0 && start + n * 0x1000 <= 0x1_0000_0000
    ensures 0 < BitIdx(v, start) < n <==> start + 0x1000 <= v < start + n * 0x1000
    ensures BitIdx(v, start) <= 0 <==> start <= v < start + 0x1000
    ensures start <= v ==> BitIdx(v, start) == (v - start) / 0x1000
  {
    if start <= v {
      assert (v - start) % TOP == v - start;
    } else {
      assert (v - start) % TOP == v - start + TOP;
    }
  }

  lemma StopsSound(s: State)
    ensures forall why :: ResultSound(s, Stops(why))
  {
  }

  /** What a call of get_a_page for page j of the process's pool, which is page number `page`, does. */
  ghost predicate UserPageGot(s: State, j: int, page: int, r: Result)
    requires s.run in s.procs && 0 <= j < |s.procs[s.run].bits| - 8
  {
    var full, mapped := FreeFrames(s.user) == {}, UserMapped(s.uowner, s.cr3, page);
    && (r.Null? <==> full) && (r.Null? ==> r.s == UserTaken(s, j, 1))
    && (r == Stops(PteBusy) <==> !full && mapped)
    && (r == Stops(NoTableFrame) <==> !full && !mapped && !HasTable(s, page / 1024) && FreeFrames(s.kernel) == {})
    && (r.Stops? ==> r.why in {PteBusy, NoTableFrame})
    && (r.Got? ==> UserRunMapped(s, r.s, page, 1)
                   && var p := s.procs[s.run]; r.s.procs == s.procs[s.run := p.(bits := p.bits[j := true])])
  }

  lemma UserTurn(s: State, j: int, page: int)
    requires OwnOrBoot(s) && 0 <= j < |s.procs[s.run].bits| - 8 && page == PageNo(s.procs[s.run], j)
    requires Inv(s)
    ensures var s1 := UserTaken(s, j, 1);
      && Sound(s, s1) && Reachable(s1.ram, s1.cr3, page * PAGE)
      && if UserMapped(s.uowner, s.cr3, page)
         then MapOne(s1, PfUser, page * PAGE) == if FreeFrames(s.user) == {} then NoFrame(s1) else MapStops(PteBusy)
         else UserOutcome(s1, MapOne(s1, PfUser, page * PAGE), page)
  {
    var s1 := UserTaken(s, j, 1);
    UserTakenKept(s, j, 1);
    assert ProcOk(s, s.run) by { InvProcs(s); }
    assert ProcsOk(s) by { InvProcs(s); }
    UserTakenPlaced(s, j, 1, j);
    hide Inv, Grows, MapOne, Reachable, PageNo, PlacedUserPage, UserOutcome, UserMapped, ProcsOk, FreeFrames;
    if UserMapped(s.uowner, s.cr3, page) {
      BusyUserPage(s1, page);
    } else {
      MapOneUser(s1, page);
    }
  }

  /** The outcome of the turn is the outcome of the call. */
  lemma UserTurnIs(s: State, s1: State, j: int, page: int, r: MapResult, v: int)
    requires s.run in s.procs && 0 <= j < |s.procs[s.run].bits| - 8 && s1 == UserTaken(s, j, 1) && Sound(s, s1)
    requires if UserMapped(s.uowner, s.cr3, page)
             then r == if FreeFrames(s.user) == {} then NoFrame(s1) else MapStops(PteBusy)
             else UserOutcome(s1, r, page)
    ensures UserPageGot(s, j, page, AsResult(r, v)) && ResultSound(s, AsResult(r, v))
  {
    hide Inv, UserRunMapped, Grows, UserMapped, SetRun;
    assert HasTable(s1, page / 1024) == HasTable(s, page / 1024);
    if !UserMapped(s.uowner, s.cr3, page) && r.Mapped? {
      assert SetRun(s.procs[s.run].bits, j, 1) == s.procs[s.run].bits[j := true];
      GrowsTrans(s, s1, r.s);
      UserRunAfter(s, s1, r.s, page, 1);
      assert FreeFrames(s.user) != {};
      assert HasTable(s, page / 1024) || FreeFrames(s.kernel) != {};
    }
  }

  lemma UserBitIdx(v: int, p: Pool, j: int)
    requires Address(v) && j == BitIdx(v, p.start) && 0 < j < |p.bits| - 8
    requires 0 <= p.start && p.start % PAGE == 0 && p.start + (|p.bits| - 8) * PAGE <= USER_TOP
    ensures v - v % PAGE == p.start + j * PAGE && PageNo(p, j) * PAGE == p.start + j * PAGE
    ensures p.start + (j + 1) * PAGE <= USER_TOP
  {
  }

  lemma GetAPageUser(s: State, v: int)
    requires Address(v) && OwnOrBoot(s)
    requires Inv(s)
    ensures var p, j, r := s.procs[s.run], BitIdx(v, s.procs[s.run].start), GetAPage(s, PfUser, v);
      && ResultSound(s, r) && (r.Got? ==> r.v == v)
      && if 0 < j < |p.bits| - 8 then UserPageGot(s, j, PageNo(p, j), r)
         else r == Stops(if j <= 0 then IndexAssert else OutsidePool)
  {
    var p, j := s.procs[s.run], BitIdx(v, s.procs[s.run].start);
    assert ProcOk(s, s.run) by { InvProcs(s); }
    hide UserMapped;
    if 0 < j < |p.bits| - 8 {
      UserBitIdx(v, p, j);
      var s1, page := UserTaken(s, j, 1), PageNo(p, j);
      UserTurn(s, j, page);
      hide Inv, BitIdx, Reachable, MapOne, UserPageGot, ResultSound, Sound, UserOutcome, PageNo, FreeFrames, UserTaken,
        ProcOk;
      SamePage(s1, PfUser, v, page * PAGE);
      UserTurnIs(s, s1, j, page, MapOne(s1, PfUser, page * PAGE), v);
    }
    StopsSound(s);
  }
}
