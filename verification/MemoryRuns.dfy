/** Every run of memory operations: allocations, new address spaces, switches of threads and of directories, and the
    programs' own stores to memory that holds no page table. */
module MemoryRuns {
  import opened Basics
  import opened Paging
  import opened MemoryModel
  import opened MemoryInvariants
  import opened MemorySafety
  import opened MemoryAllocation

  datatype Op =
    | Malloc(pf: Kind, cnt: nat)
    | GetPage(pf: Kind, v: int)
    | CreateDir
    | Activate(pgdir: int)
    | Dispatch(dir: int)               // schedule() switches to a thread with this directory
    | GivePool(dir: int, pool: Pool)   // a process gets its user address pool
    | Store(a: int, x: int)            // a program writes the word at physical address a

  /** pgdir is the address create_page_dir returned for some directory. */
  ghost predicate IsPgdir(s: State, pgdir: int, i: int) {
    0 <= i < HeapPages(s) && pgdir == HeapAddr(i) && Present(HeapPte(s.ram, i)) && HeapPte(s.ram, i) - FLAGS in s.dirs
  }

  ghost predicate Permitted(s: State, op: Op) {
    match op
    case Malloc(pf, _) => pf.PfUser? && s.run in s.procs ==> OwnOrBoot(s)
    case GetPage(pf, v) => Address(v) && (pf.PfUser? && s.run in s.procs ==> OwnOrBoot(s))
    case Dispatch(d) => d in s.dirs
    case Activate(pgdir) => pgdir == 0 || exists i :: IsPgdir(s, pgdir, i)
    case GivePool(d, p) =>
      && d in s.dirs && d != BOOT_DIR && d !in s.procs && |p.bits| >= 8
      && 0 <= p.start && p.start % PAGE == 0 && p.start + (|p.bits| - 8) * PAGE <= USER_TOP
      && (p.bits[|p.bits| - 8] || p.start + (|p.bits| - 7) * PAGE <= USER_TOP)
    case Store(a, _) => InRam(s.ram, a) && !EntryPage(s, a - a % PAGE)
    case _ => true
  }

  ghost function Exec(s: State, op: Op): Result {
    match op
    case Malloc(pf, cnt) => MallocPage(s, pf, cnt)
    case GetPage(pf, v) => GetAPage(s, pf, v)
    case CreateDir => CreatePageDir(s)
    case Activate(pgdir) => PageDirActivate(s, pgdir)
    case Dispatch(d) => Got(s.(run := d), 0)
    case GivePool(d, p) => Got(s.(procs := s.procs[d := p]), 0)
    case Store(a, x) => if InRam(s.ram, a) then Got(s.(ram := s.ram[a / 4 := x]), 0) else Stops(PageFault)
  }

  /** What every operation that comes back keeps. */
  ghost predicate StepKept(s: State, s': State) { Inv(s') && Grows(s, s') && s.dirs <= s'.dirs }

  // ----------------------------------------------------------- a change of entries

  ghost predicate EntriesKept(s: State, s': State) {
    && |s'.ram| == |s.ram| && s'.kernel == s.kernel && s'.user == s.user && s'.heap == s.heap && s'.procs == s.procs
    && s'.owner == s.owner && s'.uowner == s.uowner
    && forall base, k :: EntryPage(s, base) && 0 <= k < 1024 ==> Entry(s'.ram, base, k) == Entry(s.ram, base, k)
  }

  lemma BootTablesAreEntryPages(s: State)
    ensures EntryPage(s, KernelTable(768))
    ensures forall i :: 0 <= i < HEAP_ENTRIES ==> EntryPage(s, HeapTable(i)) && 0 <= HeapIdx(i) < 1024
  {
    KernelTablePage(768);
    forall i | 0 <= i < HEAP_ENTRIES ensures EntryPage(s, HeapTable(i)) && 0 <= HeapIdx(i) < 1024 { HeapTables(i); }
  }

  lemma EntriesKeptBoot(s: State, s': State)
    requires EntriesKept(s, s') && HeapOk(s) && BootOk(s) && Sizes(s)
    ensures HeapOk(s') && BootOk(s')
  {
    BootTablesAreEntryPages(s);
    hide Entry, EntryPage, KernelTable, HeapTable, HeapIdx;
    forall i | 0 <= i < HEAP_ENTRIES ensures HeapPte(s'.ram, i) == HeapPte(s.ram, i) {}
    hide EntriesKept;
  }

  lemma EntriesKeptUser(s: State, s': State)
    requires EntriesKept(s, s') && UserOk(s)
    ensures UserOk(s')
  {
    hide Entry;
    forall g | g in s'.uowner ensures UserBack(s', g) { assert UserBack(s, g); }
  }

  // ------------------------------------------------------------------------- stores

  /** Where a word lies in its page. */
  lemma WordPlace(a: int)
    requires 0 <= a && a % 4 == 0
    ensures var p, i := a - a % PAGE, a % PAGE / 4;
            0 <= p && p % PAGE == 0 && 0 <= i < 1024 && a / 4 == p / 4 + i
  {
    var q, r := a / PAGE, a % PAGE;
    assert a == PAGE * q + r && r % 4 == 0;
    assert a == 4 * (1024 * q + r / 4);
  }

  lemma OtherWord(ram: seq<int>, p: int, i: int, x: int, base: int, k: int)
    requires 0 <= p && p % PAGE == 0 && 0 <= i < 1024 && 0 <= p / 4 + i < |ram|
    requires 0 <= base && base % PAGE == 0 && base != p && 0 <= k < 1024
    ensures Entry(ram[p / 4 + i := x], base, k) == Entry(ram, base, k)
  {
    SameWord(base, k, p, i);
  }

  lemma StoreEntries(s: State, a: int, x: int)
    requires InRam(s.ram, a) && !EntryPage(s, a - a % PAGE)
    requires forall base :: EntryPage(s, base) ==> base >= 0 && base % PAGE == 0
    ensures EntriesKept(s, s.(ram := s.ram[a / 4 := x]))
  {
    WordPlace(a);
    var p, i := a - a % PAGE, a % PAGE / 4;
    hide Entry, EntryPage;
    forall base, k | EntryPage(s, base) && 0 <= k < 1024
      ensures Entry(s.ram[a / 4 := x], base, k) == Entry(s.ram, base, k)
    {
      OtherWord(s.ram, p, i, x, base, k);
    }
  }

  lemma EntryPagesAligned(s: State)
    requires Regions(s)
    ensures forall base :: EntryPage(s, base) ==> base >= 0 && base % PAGE == 0
  {
  }

  lemma StoreKept(s: State, a: int, x: int)
    requires InRam(s.ram, a) && !EntryPage(s, a - a % PAGE)
    requires Inv(s)
    ensures StepKept(s, s.(ram := s.ram[a / 4 := x]))
  {
    var s' := s.(ram := s.ram[a / 4 := x]);
    InvRegions(s);
    EntryPagesAligned(s);
    StoreEntries(s, a, x);
    SameDirsKept(s, s');
  }

  lemma SameDirsKept(s: State, s': State)
    requires EntriesKept(s, s') && s'.dirs == s.dirs && s'.cr3 in s.dirs
    requires Inv(s)
    ensures StepKept(s, s')
  {
    hide Entry, HeapPte, KernelTable;
    EntriesKeptBoot(s, s');
    EntriesKeptUser(s, s');
    ProcsUnconcerned(s, s');
    assert DirsOk(s') && TablesOk(s');
    hide HeapOk, BootOk, UserOk, ProcsOk, DirsOk, TablesOk;
  }

  // ------------------------------------------------------------- new directories

  function DirAdded(s: State, f: int): State
    requires GoodFrame(s.ram, f) && GoodFrame(s.ram, s.cr3)
  {
    s.(ram := NewDir(s.ram, f, s.cr3), dirs := s.dirs + {f})
  }

  /** Page f becomes a directory that shares the kernel half of directory d. */
  ghost predicate DirWritten(a: seq<int>, b: seq<int>, f: int, d: int) {
    && |b| == |a|
    && (forall p, k :: 0 <= p && p % PAGE == 0 && p != f && 0 <= k < 1024 ==> Entry(b, p, k) == Entry(a, p, k))
    && (forall k :: 0 <= k < 1024 ==>
          Entry(b, f, k) == if k < 768 then 0 else if k < 1023 then Entry(a, d, k) else f + FLAGS)
  }

  lemma NewDirElsewhere(ram: seq<int>, f: int, d: int, p: int, k: int)
    requires GoodFrame(ram, f) && GoodFrame(ram, d) && 0 <= p && p % PAGE == 0 && p != f && 0 <= k < 1024
    ensures Entry(NewDir(ram, f, d), p, k) == Entry(ram, p, k)
  {
    assert !(f / 4 <= p / 4 + k < f / 4 + 1024);
    hide NewDir;
  }

  lemma NewDirHere(ram: seq<int>, f: int, d: int, k: int)
    requires GoodFrame(ram, f) && GoodFrame(ram, d) && 0 <= k < 1024
    ensures Entry(NewDir(ram, f, d), f, k) == if k < 768 then 0 else if k < 1023 then Entry(ram, d, k) else f + FLAGS
  {
    var r, i := NewDir(ram, f, d), f / 4 + k;
    assert 0 <= i < |ram| && d / 4 + k < |ram|;
    assert r[i] == if k < 768 then 0 else if k < 1023 then ram[d / 4 + k] else f + FLAGS;
    hide NewDir;
  }

  lemma NewDirWrites(ram: seq<int>, f: int, d: int)
    requires GoodFrame(ram, f) && GoodFrame(ram, d)
    ensures DirWritten(ram, NewDir(ram, f, d), f, d)
  {
    hide Entry, NewDir;
    forall p, k | 0 <= p && p % PAGE == 0 && p != f && 0 <= k < 1024
      ensures Entry(NewDir(ram, f, d), p, k) == Entry(ram, p, k)
    {
      NewDirElsewhere(ram, f, d, p, k);
    }
    forall k | 0 <= k < 1024
      ensures Entry(NewDir(ram, f, d), f, k) == if k < 768 then 0 else if k < 1023 then Entry(ram, d, k) else f + FLAGS
    {
      NewDirHere(ram, f, d, k);
    }
  }

  lemma DirAddedDirs(s: State, s': State, f: int)
    requires DirsOk(s) && TablesOk(s) && Regions(s) && DirWritten(s.ram, s'.ram, f, s.cr3) && s'.dirs == s.dirs + {f}
    requires f in s.owner && s.owner[f].Heap? && f !in s.dirs && s'.cr3 == s.cr3 && s'.owner == s.owner
    ensures DirsOk(s') && TablesOk(s')
  {
    hide Entry, KernelTable;
  }

  lemma DirAddedHeap(s: State, s': State, f: int)
    requires Sizes(s) && HeapOk(s) && BootOk(s) && f >= 0x20_0000 && DirWritten(s.ram, s'.ram, f, s.cr3)
    requires s'.heap == s.heap && s'.owner == s.owner
    ensures HeapOk(s') && BootOk(s')
  {
    LowIsNotHeap(0, 0);
    assert KernelTable(768) < 0x20_0000;
    hide Entry, KernelTable, HeapTable, HeapIdx;
    forall i | 0 <= i < HEAP_ENTRIES ensures HeapPte(s'.ram, i) == HeapPte(s.ram, i) { HeapTables(i); }
    hide DirWritten;
  }

  lemma DirAddedUser(s: State, s': State, f: int)
    requires UserOk(s) && Regions(s) && DirWritten(s.ram, s'.ram, f, s.cr3)
    requires f in s.owner && s.owner[f].Heap? && s'.owner == s.owner && s'.uowner == s.uowner
    ensures UserOk(s')
  {
    hide Entry;
    forall g | g in s'.uowner ensures UserBack(s', g) { assert UserBack(s, g); }
  }

  lemma DirAddedProcs(s: State, s': State)
    requires ProcsOk(s) && s'.procs == s.procs && s'.uowner == s.uowner && s.dirs <= s'.dirs
    ensures ProcsOk(s')
  {
    hide UserMapped;
    forall x | x in s'.procs ensures ProcOk(s', x) { assert ProcOk(s, x); }
  }

  lemma DirAddedGrows(s: State, s': State, f: int)
    requires Regions(s) && DirWritten(s.ram, s'.ram, f, s.cr3) && s'.dirs == s.dirs + {f}
    requires f in s.owner && s.owner[f].Heap? && f !in s.dirs && s'.owner == s.owner
    ensures Grows(s, s')
  {
    hide Entry;
    EntryPagesAligned(s);
    assert f >= 0x20_0000 && !EntryPage(s, f);
  }

  lemma DirAddedKept(s: State, f: int)
    requires f in s.owner && s.owner[f].Heap? && f !in s.dirs && GoodFrame(s.ram, f) && GoodFrame(s.ram, s.cr3)
    requires Inv(s)
    ensures StepKept(s, DirAdded(s, f))
  {
    var s' := DirAdded(s, f);
    InvRegions(s);
    NewDirWrites(s.ram, f, s.cr3);
    assert f >= 0x20_0000;
    hide Entry, NewDir, DirsOk, HeapOk, BootOk, TablesOk, UserOk, ProcsOk, Grows, Regions, DirWritten;
    DirAddedDirs(s, s', f);
    DirAddedHeap(s, s', f);
    DirAddedUser(s, s', f);
    DirAddedProcs(s, s');
    DirAddedGrows(s, s', f);
    hide PoolsOk;
    assert PoolsOk(s');
  }

  /** Heap page i, just mapped to frame f, is what the active directory translates its address to. */
  lemma NewPageWalk(s: State, s1: State, i: int)
    requires 0 <= i < HeapPages(s) && HeapRunMapped(s, s1, i, 1) && s1.cr3 in s1.dirs && |s.heap| <= 32768
    requires Inv(s1)
    ensures var f := HeapPte(s1.ram, i) - FLAGS;
      && Walk(s1.ram, s1.cr3, HeapAddr(i)) == Some(f) && GoodFrame(s1.ram, f) && GoodFrame(s1.ram, s1.cr3)
      && f !in s.owner && Owns(s1.owner, f, Heap(i))
  {
    var f := HeapPte(s1.ram, i) - FLAGS;
    HeapWalk(s1, s1.cr3, i);
    FrameOfEntry(f);
    InvRegions(s1);
    hide Inv, Walk, HeapPte, Entry, HeapTable;
  }

  lemma OldDirsOwned(s: State, f: int)
    requires DirsOk(s) && f !in s.owner && f != BOOT_DIR
    ensures f !in s.dirs
  {
  }

  /** f is a new directory of r's state, empty in the user half; r's address, which is heap page i, leads to it. */
  ghost predicate NewDirectory(s: State, r: Result, f: int, i: int)
    requires r.Got?
  {
    && f !in s.dirs && f !in s.owner && r.s.dirs == s.dirs + {f}
    && Walk(r.s.ram, s.cr3, r.v) == Some(f) && (forall e :: 0 <= e < 768 ==> Entry(r.s.ram, f, e) == 0)
    && IsPgdir(r.s, r.v, i) && HeapPte(r.s.ram, i) == f + FLAGS
  }

  lemma HeapPteGrows(s: State, s': State, i: int)
    requires Grows(s, s') && 0 <= i < HEAP_ENTRIES && Present(HeapPte(s.ram, i))
    ensures HeapPte(s'.ram, i) == HeapPte(s.ram, i)
  {
    HeapTables(i);
    hide Entry, HeapTable, HeapIdx, Present;
  }

  lemma DirAddedEmpty(s: State, f: int)
    requires GoodFrame(s.ram, f) && GoodFrame(s.ram, s.cr3)
    ensures forall e :: 0 <= e < 768 ==> Entry(DirAdded(s, f).ram, f, e) == 0
  {
    NewDirWrites(s.ram, f, s.cr3);
    hide Entry, NewDir;
  }

  lemma NewFrame(s: State, s1: State, f: int, i: int)
    requires f !in s.owner && Owns(s1.owner, f, Heap(i))
    requires Inv(s) && Inv(s1)
    ensures f !in s.dirs && f % PAGE == 0
  {
    InvRegions(s1);
    OldDirsOwned(s, f);
  }

  lemma StepGrows(s: State, s': State)
    requires StepKept(s, s')
    ensures Grows(s, s') && Inv(s')
  {
  }

  /** The new heap page i at address v becomes a directory. */
  lemma PageBecomesDir(s: State, s1: State, i: int, v: int, f: int)
    requires 0 <= i < HeapPages(s) && HeapRunMapped(s, s1, i, 1) && |s1.heap| == |s.heap| <= 32768 && v == HeapAddr(i)
    requires f == HeapPte(s1.ram, i) - FLAGS && s1.cr3 == s.cr3 && s1.dirs == s.dirs
    requires Inv(s) && Inv(s1)
    ensures Walk(s1.ram, s1.cr3, v) == Some(f) && GoodFrame(s1.ram, f) && GoodFrame(s1.ram, s1.cr3)
    ensures StepKept(s1, DirAdded(s1, f)) && NewDirectory(s, Got(DirAdded(s1, f), v), f, i)
  {
    hide Inv, HeapRunMapped, HeapPte, Entry, Walk, Present, StepKept, DirWritten;
    ActiveDir(s1);
    NewPageWalk(s, s1, i);
    NewFrame(s, s1, f, i);
    HeapAddrIndices(i);
    DirAddedKept(s1, f);
    StepGrows(s1, DirAdded(s1, f));
    DirAddedEmpty(s1, f);
    FrameOfEntry(f);
    hide Grows, FrameOf;
    HeapPteGrows(s1, DirAdded(s1, f), i);
    TranslationsKeptHere(s1, DirAdded(s1, f), s1.cr3, v);
  }

  lemma CreateDirKept(s: State)
    requires Inv(s)
    ensures var r, m := CreatePageDir(s), MallocPage(s, PfKernel, 1);
      && !r.Stops? && !m.Stops? && StepKept(s, r.s)
      && (r.Got? <==> m.Got?) && r.s == m.s.(ram := r.s.ram, dirs := r.s.dirs)
      && (r.Got? ==> exists f, i :: NewDirectory(s, r, f, i))
  {
    MallocKernel(s, 1);
    var m := MallocPage(s, PfKernel, 1);
    assert 8 <= |s.heap| <= 32768;
    HeapVaddr(s, 1);
    hide Inv, MallocPage, Grows, HeapRunMapped, HeapPte, RoomFor, Entry, Walk, FreeFrames, IsPgdir;
    if m.Got? {
      var i := RoomFor(s.heap, 1);
      var f := HeapPte(m.s.ram, i) - FLAGS;
      PageBecomesDir(s, m.s, i, m.v, f);
      GrowsTrans(s, m.s, DirAdded(m.s, f));
      assert CreatePageDir(s) == Got(DirAdded(m.s, f), m.v);
    }
  }

  lemma TranslationsKeptHere(s: State, s': State, d: int, v: int)
    requires Address(v) && d in s.dirs && d in s'.dirs && Walk(s.ram, d, v).Some?
    requires Grows(s, s') && Inv(s) && Inv(s')
    ensures Walk(s'.ram, d, v) == Walk(s.ram, d, v)
  {
    InvRegions(s');
    TranslationsKept(s, s', d, v);
  }

  // -------------------------------------------------- switching, address pools

  /** The address of a directory's page leads to that directory, whichever directory is active. */
  lemma ActivateIs(s: State, pgdir: int, i: int)
    requires IsPgdir(s, pgdir, i)
    requires Inv(s)
    ensures PageDirActivate(s, pgdir) == Got(s.(cr3 := HeapPte(s.ram, i) - FLAGS), 0)
  {
    var d := HeapPte(s.ram, i) - FLAGS;
    HeapWalk(s, s.cr3, i);
    HeapAddrIndices(i);
    InvRegions(s);
    SelfEntry(s, s.cr3);
    FrameOfEntry(d);
    hide Inv, HeapPte, Entry, HeapTable, PteIdx, PdeIdx;
    assert Walk(s.ram, s.cr3, pgdir) == Some(d);
    AddrV2PIsWalk(s.ram, s.cr3, pgdir, d);
  }

  /** For a thread without a directory it is the boot directory. */
  lemma ActivateBoot(s: State)
    ensures Permitted(s, Activate(0)) && Exec(s, Activate(0)) == Got(s.(cr3 := 0x10_0000), 0)
  {
  }

  lemma SelfEntry(s: State, d: int)
    requires DirsOk(s) && Regions(s) && d in s.dirs
    ensures SelfMapped(s.ram, d)
  {
    FrameOfEntry(d);
    assert Entry(s.ram, d, 1023) == d + FLAGS;
    hide FrameOf, Present, KernelTable;
  }

  lemma OtherDirKept(s: State, d: int)
    requires d in s.dirs
    requires Inv(s)
    ensures StepKept(s, s.(cr3 := d))
  {
    var s' := s.(cr3 := d);
    assert EntriesKept(s, s') by { hide Entry, EntryPage, Inv; }
    hide EntriesKept, Inv;
    SameDirsKept(s, s');
  }

  lemma BootDirKnown(s: State)
    requires Inv(s)
    ensures BOOT_DIR in s.dirs
  {
  }

  lemma ActivateKept(s: State, pgdir: int)
    requires Permitted(s, Activate(pgdir))
    requires Inv(s)
    ensures var r := PageDirActivate(s, pgdir);
            r.Got? && StepKept(s, r.s) && r.s.ram == s.ram && r.s.cr3 in s.dirs
  {
    hide Inv, StepKept, HeapPte, Walk;
    BootDirKnown(s);
    if pgdir != 0 {
      var i :| IsPgdir(s, pgdir, i);
      ActivateIs(s, pgdir, i);
      hide PageDirActivate;
      OtherDirKept(s, HeapPte(s.ram, i) - FLAGS);
    } else {
      OtherDirKept(s, BOOT_DIR);
    }
  }

  lemma GivePoolKept(s: State, d: int, p: Pool)
    requires Permitted(s, GivePool(d, p))
    requires Inv(s)
    ensures StepKept(s, s.(procs := s.procs[d := p]))
  {
    var s' := s.(procs := s.procs[d := p]);
    GivenProcs(s, s', d, p);
    OtherBooksKept(s, s');
    SameBooks(s, s');
    GrowsHere(s, s');
    hide Sizes, PoolsOk, HeapOk, BootOk, DirsOk, TablesOk, UserOk, ProcsOk, Grows;
  }

  lemma OtherBooksKept(s: State, s': State)
    requires s' == s.(procs := s'.procs)
    requires Inv(s)
    ensures Sizes(s') && PoolsOk(s') && HeapOk(s') && BootOk(s')
  {
    hide HeapPte, Entry, DirsOk, TablesOk, UserOk, KernelTable, ProcsOk;
  }

  /** A directory without an address pool maps no user page, unless it is the boot directory. */
  lemma NoPoolNoPage(s: State, d: int, page: int)
    requires ProcsOk(s) && d !in s.procs && d != BOOT_DIR
    ensures !UserMapped(s.uowner, d, page)
  {
  }

  lemma OldPool(s: State, s': State, x: int)
    requires ProcsOk(s) && x in s.procs && x in s'.procs && s'.procs[x] == s.procs[x]
    requires s'.dirs == s.dirs && s'.uowner == s.uowner
    ensures ProcOk(s', x)
  {
    assert ProcOk(s, x);
    hide UserMapped;
  }

  lemma NewPool(s: State, s': State, d: int)
    requires d in s'.procs && Permitted(s, GivePool(d, s'.procs[d])) && s'.dirs == s.dirs && s'.uowner == s.uowner
    requires ProcsOk(s)
    ensures ProcOk(s', d)
  {
    hide ProcsOk, UserMapped;
    forall page ensures !UserMapped(s.uowner, d, page) { NoPoolNoPage(s, d, page); }
  }

  lemma GivenProcs(s: State, s': State, d: int, p: Pool)
    requires Permitted(s, GivePool(d, p)) && s' == s.(procs := s.procs[d := p])
    requires Inv(s)
    ensures ProcsOk(s')
  {
    InvProcs(s);
    hide Inv, UserMapped, ProcsOk;
    forall x | x in s'.procs ensures ProcOk(s', x) {
      if x != d {
        OldPool(s, s', x);
      } else {
        NewPool(s, s', d);
      }
    }
  }

  // ------------------------------------------------------------------------- a step

  lemma DispatchKept(s: State, d: int)
    requires Inv(s)
    ensures StepKept(s, s.(run := d))
  {
    var s' := s.(run := d);
    hide Entry, HeapPte, KernelTable, UserMapped;
    assert Sizes(s') && PoolsOk(s') && HeapOk(s') && BootOk(s');
    SameBooks(s, s');
    ProcsUnconcerned(s, s');
    GrowsHere(s, s');
    hide Sizes, PoolsOk, HeapOk, BootOk, DirsOk, TablesOk, UserOk, ProcsOk, Grows;
  }

  lemma MallocKept(s: State, pf: Kind, cnt: nat)
    requires Permitted(s, Malloc(pf, cnt))
    requires Inv(s)
    ensures var r := MallocPage(s, pf, cnt); !r.Stops? ==> StepKept(s, r.s)
  {
    if pf.PfKernel? {
      MallocKernel(s, cnt);
    } else if s.run in s.procs {
      MallocUser(s, cnt);
    } else {
      NoPool(s, cnt);
      GrowsSelf(s);
    }
    hide Inv, MapPages, Grows;
  }

  lemma GetPageKept(s: State, pf: Kind, v: int)
    requires Permitted(s, GetPage(pf, v))
    requires Inv(s)
    ensures var r := GetAPage(s, pf, v); !r.Stops? ==> StepKept(s, r.s)
  {
    if pf.PfUser? && s.run != BOOT_DIR {
      if s.run in s.procs { GetAPageUser(s, v); }
    } else if pf.PfKernel? && s.run == BOOT_DIR {
      GetAPageKernel(s, v);
    }
    hide Inv, MapHere, Grows;
  }

  lemma ExecKept(s: State, op: Op)
    requires Permitted(s, op)
    requires Inv(s)
    ensures !Exec(s, op).Stops? ==> StepKept(s, Exec(s, op).s)
  {
    hide Inv, Grows, StepKept;
    match op {
      case Malloc(pf, cnt) => MallocKept(s, pf, cnt);
      case GetPage(pf, v) => GetPageKept(s, pf, v);
      case CreateDir => CreateDirKept(s);
      case Activate(pgdir) => ActivateKept(s, pgdir);
      case Dispatch(d) => DispatchKept(s, d);
      case GivePool(d, p) => GivePoolKept(s, d, p);
      case Store(a, x) => StoreKept(s, a, x);
    }
  }
}
