/** The allocator as code: bitmaps and physical words changed in place, page tables reached through the self-map. */
module MemoryCode {
  import opened Basics
  import opened Paging
  import opened Bitmap
  import opened MemoryModel
  import opened MemoryInvariants
  import opened MemorySafety
  import opened MemoryAllocation
  import opened MemoryRuns
  import opened MachineFacts

  datatype Outcome = Addr(v: int) | NullPtr | Panic(why: Stop)

  /** The code's outcome and final state are those of the specification; after a panic there is no state. */
  ghost predicate Meets(r: Result, out: Outcome, s: State) {
    match r
    case Got(s', v) => out == Addr(v) && s == s'
    case Null(s') => out == NullPtr && s == s'
    case Stops(why) => out == Panic(why)
  }

  /** struct pool and struct virtual_addr: a bitmap over frames or over addresses. */
  class Region {
    const start: int
    const bitmap: BitMap

    constructor (start: int, bitmap: BitMap)
      ensures this.start == start && this.bitmap == bitmap
    {
      this.start, this.bitmap := start, bitmap;
    }

    ghost predicate Valid() { bitmap.Valid() }

    ghost function Abs(): Pool
      requires Valid()
      reads bitmap.bits
    {
      Pool(start, bitmap.View())
    }

    /** palloc: NULL is 0. */
    method Palloc() returns (page: int)
      requires Valid() && start > 0
      modifies bitmap.bits
      ensures var b := FreeBit(old(Abs()));
              if b == -1 then page == 0 && Abs() == old(Abs())
              else page == FrameAt(old(Abs()), b) && page > 0 && Abs() == Take(old(Abs()), b)
    {
      var bitIdx := bitmap.Scan(1);
      if bitIdx == -1 { return 0; }
      bitmap.Set(bitIdx, true);
      page := start + bitIdx * PAGE;
    }

    /** The search and the loop of vaddr_get. */
    method TakeRun(pgCnt: nat) returns (bitIdxStart: int)
      requires Valid() && pgCnt >= 1
      modifies bitmap.bits
      ensures bitIdxStart == RoomFor(old(Abs().bits), pgCnt)
      ensures bitIdxStart == -1 ==> Abs() == old(Abs())
      ensures bitIdxStart != -1 ==> Abs() == Pool(start, SetRun(old(Abs().bits), bitIdxStart, pgCnt))
    {
      bitIdxStart := bitmap.Scan(pgCnt);
      assert bitIdxStart == RoomFor(old(Abs().bits), pgCnt);
      if bitIdxStart == -1 { return; }
      var cnt := 0;
      while cnt < pgCnt
        invariant 0 <= cnt <= pgCnt
        invariant bitmap.View() == SetRun(old(bitmap.View()), bitIdxStart, cnt)
      {
        bitmap.Set(bitIdxStart + cnt, true);
        cnt := cnt + 1;
      }
    }
  }

  class Machine {
    const mem: array<int>                  // physical memory, 32-bit words
    var cr3: int
    var run: int                           // the directory of running_thread(), BOOT_DIR if its pgdir is NULL
    const kernelPool: Region
    const userPool: Region
    const kernelVaddr: Region
    var procs: map<int, Region>            // userprog_vaddr of each process, by its directory
    ghost var dirs: set<int>
    ghost var owner: map<int, Owner>
    ghost var uowner: map<int, UserPage>

    ghost function Bitmaps(): set<object>
      reads this
    {
      {kernelPool.bitmap.bits, userPool.bitmap.bits, kernelVaddr.bitmap.bits} + ProcBitmaps()
    }

    ghost function ProcBitmaps(): set<object>
      reads `procs
    {
      set d | d in procs :: procs[d].bitmap.bits
    }

    ghost predicate Valid()
      reads this
    {
      && kernelPool.Valid() && userPool.Valid() && kernelVaddr.Valid() && (mem as object) !in Bitmaps()
      && kernelPool.bitmap.bits != userPool.bitmap.bits && kernelVaddr.start == K_HEAP_START
      && kernelVaddr.bitmap.bits !in {kernelPool.bitmap.bits, userPool.bitmap.bits}
      && (forall d :: d in procs ==> procs[d].Valid())
      && (forall d :: d in procs ==>
            procs[d].bitmap.bits !in {kernelPool.bitmap.bits, userPool.bitmap.bits, kernelVaddr.bitmap.bits})
      && (forall d, e :: d in procs && e in procs && d != e ==> procs[d].bitmap.bits != procs[e].bitmap.bits)
    }

    ghost function ProcPools(): map<int, Pool>
      requires forall d :: d in procs ==> procs[d].Valid()
      reads `procs, ProcBitmaps()
    {
      map d | d in procs :: procs[d].Abs()
    }

    ghost function Abs(): State
      requires Valid()
      reads this, mem, Bitmaps()
    {
      State(mem[..], cr3, run, kernelPool.Abs(), userPool.Abs(), kernelVaddr.Abs().bits, ProcPools(), dirs, owner,
            uowner)
    }

    constructor (mem: array<int>, kernelPool: Region, userPool: Region, kernelVaddr: Region)
      requires kernelPool.Valid() && userPool.Valid() && kernelVaddr.Valid() && kernelVaddr.start == K_HEAP_START
      requires kernelPool.bitmap.bits != userPool.bitmap.bits
      requires kernelVaddr.bitmap.bits !in {kernelPool.bitmap.bits, userPool.bitmap.bits}
      requires (mem as object) !in {kernelPool.bitmap.bits, userPool.bitmap.bits, kernelVaddr.bitmap.bits}
      ensures this.mem == mem && this.kernelPool == kernelPool && this.userPool == userPool
      ensures this.kernelVaddr == kernelVaddr
      ensures Valid() && Abs() == State(mem[..], BOOT_DIR, BOOT_DIR, kernelPool.Abs(), userPool.Abs(),
                                        kernelVaddr.Abs().bits, map[], {BOOT_DIR}, map[], map[])
    {
      this.mem, cr3, run := mem, BOOT_DIR, BOOT_DIR;
      this.kernelPool, this.userPool, this.kernelVaddr := kernelPool, userPool, kernelVaddr;
      procs, dirs, owner, uowner := map[], {BOOT_DIR}, map[], map[];
    }

    /** Processes' bitmaps that were not written give the same pools. */
    twostate lemma ProcPoolsKept()
      requires old(Valid()) && procs == old(procs)
      requires forall d :: d in procs ==> unchanged(procs[d].bitmap.bits)
      ensures ProcPools() == old(ProcPools())
    {
      assert forall d :: d in procs ==> procs[d].Abs() == old(procs[d].Abs());
    }

    lemma CurrentBitmap()
      requires run in procs
      ensures (procs[run].bitmap.bits as object) in ProcBitmaps()
    {
      var d, o: object := run, procs[run].bitmap.bits;
      assert d in procs && o == procs[d].bitmap.bits;
    }

    /** A load through the page tables. */
    method Load(v: int) returns (x: int)
      requires Walk(mem[..], cr3, v).Some? && InRam(mem[..], Walk(mem[..], cr3, v).value)
      ensures x == mem[Walk(mem[..], cr3, v).value / 4]
    {
      var pde := mem[PdeAt(cr3, v) / 4];
      var pte := mem[PteAt(pde, v) / 4];
      x := mem[(FrameOf(pte) + v % PAGE) / 4];
    }

    method Put(v: int, x: int)
      requires Walk(mem[..], cr3, v).Some? && InRam(mem[..], Walk(mem[..], cr3, v).value)
      modifies mem
      ensures mem[..] == old(mem[..])[Walk(old(mem[..]), cr3, v).value / 4 := x]
    {
      var pde := mem[PdeAt(cr3, v) / 4];
      var pte := mem[PteAt(pde, v) / 4];
      mem[(FrameOf(pte) + v % PAGE) / 4] := x;
    }

    /** addr_v2p of a mapped address */
    method AddrV2p(vaddr: int) returns (p: int)
      requires Address(vaddr) && SelfMapped(mem[..], cr3) && Walk(mem[..], cr3, vaddr).Some?
      ensures Walk(mem[..], cr3, vaddr) == Some(p)
    {
      AddrV2PIsWalk(mem[..], cr3, vaddr, Walk(mem[..], cr3, vaddr).value);
      hide Walk, SelfMapped;
      var pte := Load(PtePtr(vaddr));
      p := AddrV2P(pte, vaddr);
    }

    /** memset of the page of entries at pte_ptr(v), whose frame is f. */
    method ClearTable(v: int, f: int)
      requires Address(v) && SelfMapped(mem[..], cr3) && InRam(mem[..], PdeAt(cr3, v))
      requires mem[PdeAt(cr3, v) / 4] == f + FLAGS && GoodFrame(mem[..], f) && f != cr3
      modifies mem
      ensures mem[..] == ZeroPage(old(mem[..]), f)
    {
      hide Walk, PdeIdx, PteAt, TablePage, SelfMapped, Present, FrameOf, ClearedTo, ZeroPage;
      ghost var ram := mem[..];
      FrameOfEntry(f);
      ClearedNone(ram, f);
      var i := 0;
      while i < 1024
        invariant 0 <= i <= 1024
        invariant mem[..] == ClearedTo(ram, f, i)
      {
        FewerCleared(ram, f, cr3, v, i);
        assert mem[..][PdeAt(cr3, v) / 4] == f + FLAGS;
        TablePageWalk(mem[..], cr3, v, i);
        Put(TablePage(v) + 4 * i, 0);
        i := i + 1;
      }
    }

    /** page_table_add, when the directory entry is present. */
    method AddToTable(v: int, frame: int) returns (stop: Option<Stop>)
      requires Valid() && TableReady(Abs(), v) && Present(mem[PdeAt(cr3, v) / 4])
      modifies mem
      ensures var pteAt := PteAt(old(mem[PdeAt(cr3, v) / 4]), v) / 4;
              if Present(old(mem[pteAt])) then stop == Some(PteBusy)
              else stop == None && mem[..] == old(mem[..])[pteAt := frame + FLAGS]
    {
      hide Walk, PdeIdx, PteIdx, FrameOf, FreeBit, SelfMapped, PtePtr;
      PtePtrReachesPte(mem[..], cr3, v);
      var pte := Load(PtePtr(v));
      if pte % 2 == 1 { return Some(PteBusy); }
      Put(PtePtr(v), frame + FLAGS);
      stop := None;
    }

    /** page_table_add, when a page table in frame f has to be made. */
    method AddToNewTable(v: int, frame: int, f: int)
      requires Address(v) && PdeIdx(v) < 1023 && SelfMapped(mem[..], cr3) && InRam(mem[..], PdeAt(cr3, v))
      requires GoodFrame(mem[..], f) && f != cr3
      modifies mem
      ensures mem[..] == ZeroPage(old(mem[..])[PdeAt(cr3, v) / 4 := f + FLAGS], f)[f / 4 + PteIdx(v) := frame + FLAGS]
    {
      hide Walk, PdeIdx, PteIdx, FrameOf, ZeroPage, SelfMapped, PdePtr, PtePtr;
      FilledTable(mem[..], cr3, v, f);
      PdePtrReachesPde(mem[..], cr3, v);
      Put(PdePtr(v), f + FLAGS);
      ClearTable(v, f);
      var pte := Load(PtePtr(v));
      assert pte == 0;
      Put(PtePtr(v), frame + FLAGS);
    }

    /** page_table_add, when the directory entry is absent. */
    method AddTable(ghost s: State, v: int, frame: int) returns (stop: Option<Stop>)
      requires kernelPool.Valid() && (mem as object) != kernelPool.bitmap.bits
      requires s.ram == mem[..] && s.cr3 == cr3 && s.kernel == kernelPool.Abs() && s.owner == owner
      requires TableReady(s, v)
      modifies mem, kernelPool.bitmap.bits, `owner
      ensures if FreeBit(s.kernel) == -1 then stop == Some(NoTableFrame)
              else && stop == None && CanTable(s, v) && mem[..] == WithTable(s, v, frame).ram
                   && kernelPool.Abs() == WithTable(s, v, frame).kernel && owner == WithTable(s, v, frame).owner
    {
      hide TableReady, Walk, PdeIdx, PteIdx, FrameOf, ZeroPage, FreeBit, SelfMapped, FrameAt, GoodFrame, Take,
        Present, WithTable;
      TableReadyParts(s, v);
      var f := kernelPool.Palloc();
      if f == 0 { return Some(NoTableFrame); }
      assert mem[..] == s.ram;
      WithTableIs(s, v, frame);
      hide CanTable;
      AddToNewTable(v, frame, f);
      owner := owner[f := Table(cr3, PdeIdx(v))];
      stop := None;
    }

    /** page_table_add */
    method PageTableAdd(v: int, frame: int) returns (stop: Option<Stop>)
      requires Valid() && TableReady(Abs(), v)
      modifies mem, kernelPool.bitmap.bits, `owner
      ensures Valid()
      ensures match MemoryModel.PageTableAdd(old(Abs()), v, frame)
              case Mapped(s1) => stop == None && Abs() == s1
              case MapStops(why) => stop == Some(why)
              case NoFrame(_) => false
    {
      hide Walk, PdeIdx, PteIdx, FrameOf, ZeroPage, FreeBit, SelfMapped, PdePtr, PtePtr, WithTable;
      ghost var s := Abs();
      PdePtrReachesPde(mem[..], cr3, v);
      var pde := Load(PdePtr(v));
      if pde % 2 == 1 {
        stop := AddToTable(v, frame);
      } else {
        AddedWithTable(s, v, frame);
        stop := AddTable(s, v, frame);
        ProcPoolsKept();
        if stop == None { WithTableIs(s, v, frame); }
        hide MemoryModel.PageTableAdd, PdeAt, CanTable, GoodFrame, FrameAt, Present, Take, InRam, Region.Valid;
      }
    }

    /** The frame for heap page i. */
    method TakeHeapFrame(i: int) returns (page: int)
      requires Valid() && kernelPool.start > 0
      modifies kernelPool.bitmap.bits, `owner
      ensures Valid()
      ensures var s, b := old(Abs()), FreeBit(old(Abs()).kernel);
              if b == -1 then page == 0 && Abs() == s
              else && page == FrameAt(s.kernel, b) && page > 0
                   && Abs() == s.(kernel := Take(s.kernel, b), owner := s.owner[page := Heap(i)])
    {
      ghost var s := Abs();
      hide FreeBit, Take, FrameAt;
      page := kernelPool.Palloc();
      if page != 0 { owner := owner[page := Heap(i)]; }
      ProcPoolsKept();
      assert mem[..] == s.ram;
    }

    method TakeUserFrame() returns (page: int)
      requires Valid() && userPool.start > 0
      modifies userPool.bitmap.bits
      ensures Valid()
      ensures var s, b := old(Abs()), FreeBit(old(Abs()).user);
              if b == -1 then page == 0 && Abs() == s
              else page == FrameAt(s.user, b) && page > 0 && Abs() == s.(user := Take(s.user, b))
    {
      ghost var s := Abs();
      hide FreeBit, Take, FrameAt;
      page := userPool.Palloc();
      ProcPoolsKept();
      assert mem[..] == s.ram;
    }

    ghost method NoteUserPage(page: int, u: UserPage)
      requires Valid()
      modifies `uowner
      ensures Valid() && Abs() == old(Abs()).(uowner := old(uowner)[page := u])
    {
      uowner := uowner[page := u];
      ProcPoolsKept();
    }

    /** palloc and page_table_add for the page at v, as malloc_page and get_a_page call them. */
    method MapKernelPage(v: int) returns (out: Outcome)
      requires Valid() && TurnReady(Abs(), v)
      modifies mem, kernelPool.bitmap.bits, `owner
      ensures Valid()
      ensures Meets(AsResult(MapOne(old(Abs()), PfKernel, v), v), out, Abs())
    {
      ghost var s := Abs();
      hide FreeBit, Take, FrameAt, TableReady, TurnReady, Reachable, MemoryModel.PageTableAdd;
      TurnReadyParts(s, v);
      var page := TakeHeapFrame((v - K_HEAP_START) / PAGE);
      if page == 0 { return NullPtr; }
      var stop := PageTableAdd(v, page);
      out := if stop.Some? then Panic(stop.value) else Addr(v);
    }

    method MapUserPage(v: int) returns (out: Outcome)
      requires Valid() && TurnReady(Abs(), v)
      modifies mem, kernelPool.bitmap.bits, userPool.bitmap.bits, `owner, `uowner
      ensures Valid()
      ensures Meets(AsResult(MapOne(old(Abs()), PfUser, v), v), out, Abs())
    {
      ghost var s := Abs();
      hide FreeBit, Take, FrameAt, TableReady, TurnReady, Reachable, MemoryModel.PageTableAdd;
      TurnReadyParts(s, v);
      var page := TakeUserFrame();
      if page == 0 { return NullPtr; }
      var stop := PageTableAdd(v, page);
      if stop.Some? { return Panic(stop.value); }
      NoteUserPage(page, UserPage(cr3, PdeIdx(v), PteIdx(v), FrameOf(mem[PdeAt(cr3, v) / 4])));
      out := Addr(v);
    }

    /** vaddr_get's branch for the kernel */
    method KernelVaddrGet(pgCnt: nat) returns (out: Outcome)
      requires Valid() && pgCnt >= 1
      modifies kernelVaddr.bitmap.bits
      ensures Valid()
      ensures Meets(MemoryModel.VaddrGet(old(Abs()), PfKernel, pgCnt), out, Abs())
    {
      ghost var s := Abs();
      hide RoomFor, SetRun;
      var bitIdxStart := kernelVaddr.TakeRun(pgCnt);
      ProcPoolsKept();
      assert mem[..] == s.ram;
      if bitIdxStart == -1 { return NullPtr; }
      out := Addr(kernelVaddr.start + bitIdxStart * PAGE);
    }

    twostate lemma OtherPoolsKept()
      requires old(Valid()) && procs == old(procs) && run == old(run) && run in procs
      requires forall d :: d in procs && d != run ==> unchanged(procs[d].bitmap.bits)
      ensures ProcPools() == old(ProcPools())[run := procs[run].Abs()]
    {
      assert forall d :: d in procs && d != run ==> procs[d].Abs() == old(procs[d].Abs());
    }

    /** vaddr_get's branch for the running process */
    method UserVaddrGet(pgCnt: nat) returns (out: Outcome)
      requires Valid() && pgCnt >= 1 && run in procs
      modifies procs[run].bitmap.bits
      ensures Valid()
      ensures Meets(MemoryModel.VaddrGet(old(Abs()), PfUser, pgCnt), out, Abs())
    {
      ghost var s := Abs();
      hide RoomFor, SetRun;
      var bitIdxStart := procs[run].TakeRun(pgCnt);
      OtherPoolsKept();
      assert mem[..] == s.ram && s.procs[run := s.procs[run]] == s.procs;
      if bitIdxStart == -1 { return NullPtr; }
      var vaddrStart := procs[run].start + bitIdxStart * PAGE;
      if vaddrStart >= USER_TOP - PAGE { return Panic(UserVaddrAssert); }
      out := Addr(vaddrStart);
    }

    /** The loop of malloc_page over the pages from page number `first` on. */
    method MapLoop(pf: Kind, vaddrStart: int, pgCnt: nat, ghost first: int) returns (out: Outcome)
      requires Valid() && PagesReady(Abs(), pf, first, pgCnt) && vaddrStart == PageAddr(pf, first)
      modifies mem, kernelPool.bitmap.bits, userPool.bitmap.bits, `owner, `uowner
      ensures Valid()
      ensures Meets(AsResult(MapPages(old(Abs()), pf, vaddrStart, pgCnt), vaddrStart), out, Abs())
    {
      hide MapOne, PagesReady, Valid, Abs, TurnReady, Reachable, PageAddr;
      ghost var s, page := Abs(), first;
      var vaddr, cnt := vaddrStart, pgCnt;
      while cnt > 0
        invariant 0 <= cnt <= pgCnt && page == first + pgCnt - cnt
        invariant Valid() && PagesReady(Abs(), pf, page, cnt) && vaddr == PageAddr(pf, page)
        invariant MapPages(s, pf, vaddrStart, pgCnt) == MapPages(Abs(), pf, vaddr, cnt)
        decreases cnt
      {
        cnt := cnt - 1;
        PagesReadyTurn(Abs(), pf, page, cnt + 1);
        NextPage(pf, page);
        ghost var now := Abs();
        var turn;
        if pf.PfKernel? { turn := MapKernelPage(vaddr); } else { turn := MapUserPage(vaddr); }
        if !turn.Addr? { return turn; }
        vaddr, page := vaddr + PAGE, page + 1;
      }
      out := Addr(vaddrStart);
    }

    /** vaddr_get */
    method VaddrGet(pf: Kind, pgCnt: nat) returns (out: Outcome)
      requires Valid() && pgCnt >= 1
      modifies Bitmaps()
      ensures Valid() && Meets(MemoryModel.VaddrGet(old(Abs()), pf, pgCnt), out, Abs())
    {
      if pf.PfKernel? {
        out := KernelVaddrGet(pgCnt);
      } else if run in procs {
        CurrentBitmap();
        out := UserVaddrGet(pgCnt);
      } else {
        // a map of no bytes at address 0
        out := if Walk(mem[..], cr3, 0) == None then Panic(PageFault) else NullPtr;
      }
    }

    /** malloc_page from the addresses on */
    method MapVaddr(ghost s: State, pf: Kind, got: Outcome, pgCnt: nat) returns (out: Outcome)
      requires Valid() && Inv(s) && 0 < pgCnt < 3840 && Permitted(s, Malloc(pf, pgCnt))
      requires Meets(MemoryModel.VaddrGet(s, pf, pgCnt), got, Abs())
      modifies mem, kernelPool.bitmap.bits, userPool.bitmap.bits, `owner, `uowner
      ensures Valid() && Meets(MemoryModel.MallocPage(s, pf, pgCnt), out, Abs())
    {
      hide MemoryModel.VaddrGet, MapPages, Inv, PagesReady, PageAddr;
      out := got;
      if got.Addr? {
        ghost var first := VaddrReady(s, pf, pgCnt);
        out := MapLoop(pf, got.v, pgCnt, first);
      }
    }

    /** malloc_page */
    method MallocPage(pf: Kind, pgCnt: nat) returns (out: Outcome)
      requires Valid() && Permitted(Abs(), Malloc(pf, pgCnt)) && Inv(Abs())
      modifies mem, Bitmaps(), `owner, `uowner
      ensures Valid() && Meets(MemoryModel.MallocPage(old(Abs()), pf, pgCnt), out, Abs())
      ensures !out.Panic? ==> StepKept(old(Abs()), Abs())
    {
      ghost var s := Abs();
      MallocKept(s, pf, pgCnt);
      if !(0 < pgCnt < 3840) { return Panic(CountAssert); }
      hide MemoryModel.VaddrGet, MemoryModel.MallocPage, Inv, StepKept;
      var got := VaddrGet(pf, pgCnt);
      out := MapVaddr(s, pf, got, pgCnt);
    }

    method SetHeapBit(j: int)
      requires Valid() && 0 <= j < 8 * kernelVaddr.bitmap.len
      modifies kernelVaddr.bitmap.bits
      ensures Valid() && Abs() == HeapTaken(old(Abs()), j, 1)
    {
      ghost var s := Abs();
      kernelVaddr.bitmap.Set(j, true);
      ProcPoolsKept();
      assert mem[..] == s.ram && SetRun(s.heap, j, 1) == s.heap[j := true];
    }

    method SetUserBit(j: int)
      requires Valid() && run in procs && 0 <= j < 8 * procs[run].bitmap.len
      modifies procs[run].bitmap.bits
      ensures Valid() && Abs() == UserTaken(old(Abs()), j, 1)
    {
      ghost var s := Abs();
      procs[run].bitmap.Set(j, true);
      OtherPoolsKept();
      assert mem[..] == s.ram && SetRun(s.procs[run].bits, j, 1) == s.procs[run].bits[j := true];
    }

    /** get_a_page */
    method GetAPage(pf: Kind, v: int) returns (out: Outcome)
      requires Valid() && Permitted(Abs(), GetPage(pf, v)) && Inv(Abs())
      modifies mem, Bitmaps(), `owner, `uowner
      ensures Valid() && Meets(MemoryModel.GetAPage(old(Abs()), pf, v), out, Abs()) && (out.Addr? ==> out.v == v)
      ensures !out.Panic? ==> StepKept(old(Abs()), Abs())
    {
      hide StepKept, Inv, MapOne, TurnReady, HeapTaken, UserTaken, BitIdx, Reachable;
      ghost var s := Abs();
      GetPageKept(s, pf, v);
      if pf.PfUser? && run != BOOT_DIR && run !in procs {
        out := Panic(if BitIdx(v, 0) <= 0 then IndexAssert else OutsidePool);
      } else if pf.PfUser? && run != BOOT_DIR {
        var bitIdx := BitIdx(v, procs[run].start);
        if bitIdx <= 0 { return Panic(IndexAssert); }
        if bitIdx >= 8 * procs[run].bitmap.len { return Panic(OutsidePool); }
        CurrentBitmap();
        SetUserBit(bitIdx);
        UserPageReady(s, v, bitIdx);
        out := MapUserPage(v);
      } else if pf.PfKernel? && run == BOOT_DIR {
        var bitIdx := BitIdx(v, kernelVaddr.start);
        if bitIdx <= 0 { return Panic(IndexAssert); }
        if bitIdx >= 8 * kernelVaddr.bitmap.len { return Panic(OutsidePool); }
        SetHeapBit(bitIdx);
        HeapPageReady(s, v, bitIdx);
        out := MapKernelPage(v);
      } else {
        out := Panic(WrongPool);
      }
    }

    /** memset of the new directory's page at v, whose frame is f. */
    method ClearPage(ghost s: State, v: int, ghost f: int)
      requires s.ram == mem[..] && s.cr3 == cr3 && DataPage(s, v, f) && Inv(s)
      modifies mem
      ensures GoodFrame(s.ram, f) && mem[..] == ZeroPage(s.ram, f)
    {
      hide Inv, Walk, ClearedTo, ZeroPage, DataPage;
      DataPageParts(s, v, f);
      ClearedNone(s.ram, f);
      var i := 0;
      while i < 1024
        invariant 0 <= i <= 1024
        invariant mem[..] == ClearedTo(s.ram, f, i)
      {
        ClearedWalk(s, v, f, i);
        Put(v + 4 * i, 0);
        i := i + 1;
      }
    }

    /** memcpy of entries 768 to 1023 of the active directory, read through the self-map. */
    method CopyKernelHalf(ghost s: State, v: int, ghost f: int)
      requires s.cr3 == cr3 && DataPage(s, v, f) && Inv(s) && mem[..] == ZeroPage(s.ram, f)
      requires GoodFrame(s.ram, s.cr3)
      modifies mem
      ensures mem[..] == CopiedTo(s.ram, f, cr3, 256)
    {
      hide Inv, Walk, CopiedTo, ZeroPage, DataPage;
      DataPageParts(s, v, f);
      CopiedNone(s.ram, f, cr3);
      var i := 0;
      while i < 256
        invariant 0 <= i <= 256
        invariant mem[..] == CopiedTo(s.ram, f, cr3, i)
      {
        CopiedWalk(s, v, f, i);
        var entry := Load(0xffff_fc00 + 4 * i);
        Put(v + 0xc00 + 4 * i, entry);
        i := i + 1;
      }
    }

    /** The stores of create_page_dir into the new page at pageDirVaddr, whose frame is f. */
    method FillDir(ghost s: State, pageDirVaddr: int, ghost f: int)
      requires s.ram == mem[..] && s.cr3 == cr3 && DataPage(s, pageDirVaddr, f) && Inv(s)
      modifies mem
      ensures GoodFrame(s.ram, f) && GoodFrame(s.ram, s.cr3) && mem[..] == NewDir(s.ram, f, s.cr3)
    {
      hide Inv, Walk, CopiedTo, ZeroPage, DataPage, NewDir;
      DataPageParts(s, pageDirVaddr, f);
      ClearPage(s, pageDirVaddr, f);
      CopyKernelHalf(s, pageDirVaddr, f);
      LastEntry(s, pageDirVaddr, f);
      var pte := Load(PtePtr(pageDirVaddr));
      var newPageDirPhyAddr := AddrV2P(pte, pageDirVaddr);
      Put(pageDirVaddr + 4092, newPageDirPhyAddr + FLAGS);
    }

    ghost method AddDir(f: int)
      requires Valid()
      modifies `dirs
      ensures Valid() && Abs() == old(Abs()).(dirs := old(dirs) + {f})
    {
      dirs := dirs + {f};
      ProcPoolsKept();
    }

    /** The new page becomes a directory. */
    method MakeDir(ghost s1: State, v: int)
      requires Valid() && s1 == Abs() && Inv(s1)
      requires Walk(s1.ram, s1.cr3, v).Some? && DataPage(s1, v, Walk(s1.ram, s1.cr3, v).value)
      modifies mem, `dirs
      ensures var f := Walk(s1.ram, s1.cr3, v).value;
              Valid() && GoodFrame(s1.ram, f) && GoodFrame(s1.ram, s1.cr3) && Abs() == DirAdded(s1, f)
    {
      hide Inv, Walk, NewDir, DataPage;
      ghost var f := Walk(s1.ram, s1.cr3, v).value;
      FillDir(s1, v, f);
      ProcPoolsKept();
      AddDir(f);
    }

    /** create_page_dir */
    method CreatePageDir() returns (out: Outcome)
      requires Valid() && Inv(Abs())
      modifies mem, Bitmaps(), `owner, `uowner, `dirs
      ensures Valid() && Meets(MemoryModel.CreatePageDir(old(Abs())), out, Abs())
      ensures !out.Panic? && StepKept(old(Abs()), Abs())
    {
      ghost var s := Abs();
      CreateDirKept(s);
      hide StepKept;
      hide Inv, Walk, MemoryModel.MallocPage, NewDir, DataPage, MemoryModel.CreatePageDir, DirAdded, GoodFrame,
        Valid, Abs;
      out := MallocPage(PfKernel, 1);
      NewDirPage(s);
      if out.Addr? { MakeDir(Abs(), out.v); }
    }

    /** The directory page_dir_activate puts into cr3. */
    method PageDirPhyAddr(pgdir: int) returns (pagedirPhyAddr: int)
      requires pgdir != 0 ==> Address(pgdir) && SelfMapped(mem[..], cr3) && Walk(mem[..], cr3, pgdir).Some?
      ensures pagedirPhyAddr == Target(mem[..], cr3, pgdir)
    {
      hide Walk, SelfMapped;
      pagedirPhyAddr := BOOT_DIR;
      if pgdir != 0 { pagedirPhyAddr := AddrV2p(pgdir); }
    }

    /** page_dir_activate */
    method PageDirActivate(pgdir: int)
      requires Valid() && Inv(Abs()) && Permitted(Abs(), Activate(pgdir))
      modifies `cr3
      ensures Valid() && MemoryModel.PageDirActivate(old(Abs()), pgdir) == Got(Abs(), 0)
      ensures pgdir == 0 ==> cr3 == 0x10_0000
      ensures StepKept(old(Abs()), Abs())
    {
      hide StepKept, Inv, Permitted, Walk, SelfMapped, MemoryModel.PageDirActivate, Target;
      ActivateSets(Abs(), pgdir);
      var pagedirPhyAddr := PageDirPhyAddr(pgdir);
      hide Valid;
      SetCr3(pagedirPhyAddr);
    }

    /** schedule() gives the processor to a thread of the process with directory dir, or to a kernel thread. */
    method RunThread(dir: int)
      requires Valid() && Inv(Abs()) && dir in dirs
      modifies `run
      ensures Valid() && Abs() == old(Abs()).(run := dir) && StepKept(old(Abs()), Abs())
    {
      ghost var s := Abs();
      DispatchKept(s, dir);
      hide StepKept, Inv;
      run := dir;
      ProcPoolsKept();
    }

    method SetCr3(dir: int)
      requires Valid()
      modifies `cr3
      ensures Valid() && Abs() == old(Abs()).(cr3 := dir)
    {
      cr3 := dir;
      ProcPoolsKept();
    }
  }
}
