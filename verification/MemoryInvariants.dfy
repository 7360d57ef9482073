/** What every sequence of memory operations keeps. */
module MemoryInvariants {
  import opened Basics
  import opened Paging
  import opened MemoryModel

  /** The boot page table that directory entry e of every directory points to, 768 <= e < 1023. */
  function KernelTable(e: int): int { 0x10_1000 + (e - 768) * PAGE }

  function HeapAddr(i: int): int { K_HEAP_START + i * PAGE }

  /** Entry k of the table or directory in frame base; nothing is present outside memory. */
  function Entry(ram: seq<int>, base: int, k: int): int {
    if 0 <= base && 0 <= k && base / 4 + k < |ram| then ram[base / 4 + k] else 0
  }

  /** The boot table and the index in it that map heap page i. */
  function HeapTable(i: int): int { KernelTable(768 + (256 + i) / 1024) }
  function HeapIdx(i: int): int { (256 + i) % 1024 }

  function HeapPte(ram: seq<int>, i: int): int { Entry(ram, HeapTable(i), HeapIdx(i)) }

  function SetEntry(ram: seq<int>, base: int, k: int, x: int): seq<int>
    requires GoodFrame(ram, base) && 0 <= k < 1024
  {
    ram[base / 4 + k := x]
  }

  /** Pages do not share words: setting an entry changes that entry alone. */
  lemma SetEntryAt(ram: seq<int>, base: int, k: int, x: int)
    requires GoodFrame(ram, base) && 0 <= k < 1024
    ensures |SetEntry(ram, base, k, x)| == |ram|
    ensures forall b, j :: 0 <= b && b % PAGE == 0 && 0 <= j < 1024 ==>
              Entry(SetEntry(ram, base, k, x), b, j) == if b == base && j == k then x else Entry(ram, b, j)
  {
    forall b, j | 0 <= b && b % PAGE == 0 && 0 <= j < 1024
      ensures Entry(SetEntry(ram, base, k, x), b, j) == if b == base && j == k then x else Entry(ram, b, j)
    {
      SameWord(b, j, base, k);
    }
  }

  lemma SameWord(b: int, j: int, base: int, k: int)
    requires b % PAGE == 0 && base % PAGE == 0 && 0 <= j < 1024 && 0 <= k < 1024
    ensures b / 4 + j == base / 4 + k <==> b == base && j == k
  {
  }

  lemma OtherPageWord(dir: int, k: int, f: int)
    requires dir % PAGE == 0 && f % PAGE == 0 && dir != f && 0 <= k < 1024
    ensures !(f / 4 <= dir / 4 + k < f / 4 + 1024)
  {
  }

  lemma ZeroPageAt(ram: seq<int>, f: int)
    requires GoodFrame(ram, f)
    ensures forall b, j :: 0 <= b && b % PAGE == 0 && 0 <= j < 1024 ==>
              Entry(ZeroPage(ram, f), b, j) == if b == f then 0 else Entry(ram, b, j)
  {
    forall b, j | 0 <= b && b % PAGE == 0 && 0 <= j < 1024
      ensures Entry(ZeroPage(ram, f), b, j) == if b == f then 0 else Entry(ram, b, j)
    {
      if b != f { SameWord(b, j, f, 0); SameWord(b, j, f, 1023); }
    }
  }

  /** The boot tables have entries for this many heap pages. */
  const HEAP_ENTRIES: int := 255 * 1024 - 256

  lemma HeapTables(i: int)
    requires 0 <= i < HEAP_ENTRIES
    ensures HeapTable(i) % PAGE == 0 && 0x10_1000 <= HeapTable(i) && HeapTable(i) + PAGE <= 0x20_0000
    ensures 0 <= HeapIdx(i) < 1024
  {
  }

  lemma HeapPtesApart(i: int, j: int)
    requires 0 <= i && 0 <= j && HeapTable(i) == HeapTable(j) && HeapIdx(i) == HeapIdx(j)
    ensures i == j
  {
  }

  /** The heap pages whose bits bitmap_scan may hand out, guard bit included. */
  function HeapPages(s: State): int { |s.heap| - 7 }

  ghost predicate Sizes(s: State) {
    && 8 <= |s.heap| <= 32768 && 8 <= |s.kernel.bits| && 8 <= |s.user.bits|
    && s.kernel.start == 0x20_0000 && s.user.start % PAGE == 0
    && s.kernel.start + (|s.kernel.bits| - 8) * PAGE <= s.user.start
    && s.user.start + (|s.user.bits| - 8) * PAGE <= 4 * |s.ram| <= TOP
    && 0x20_0000 <= 4 * |s.ram|
  }

  ghost predicate InPool(p: Pool, f: int) {
    |p.bits| >= 8 && p.start <= f < p.start + (|p.bits| - 8) * PAGE && (f - p.start) % PAGE == 0
  }

  /** A frame is marked used exactly when the books say what for. */
  ghost predicate PoolsOk(s: State) {
    && (forall b :: 0 <= b < |s.kernel.bits| - 8 ==> (s.kernel.bits[b] <==> FrameAt(s.kernel, b) in s.owner))
    && (forall f :: f in s.owner ==> InPool(s.kernel, f))
    && (forall b :: 0 <= b < |s.user.bits| - 8 ==> (s.user.bits[b] <==> FrameAt(s.user, b) in s.uowner))
    && (forall f :: f in s.uowner ==> InPool(s.user, f))
  }

  ghost predicate IsDir(s: State, d: int) {
    GoodFrame(s.ram, d) && (d == BOOT_DIR || (d in s.owner && s.owner[d].Heap?))
  }

  /** All directories share the kernel half, and each maps itself. */
  ghost predicate DirsOk(s: State) {
    && BOOT_DIR in s.dirs && s.cr3 in s.dirs
    && (forall d :: d in s.dirs ==> IsDir(s, d))
    && (forall d, e :: d in s.dirs && 768 <= e < 1023 ==> Entry(s.ram, d, e) == KernelTable(e) + FLAGS)
    && (forall d :: d in s.dirs ==> Entry(s.ram, d, 1023) == d + FLAGS)
  }

  /** A present heap entry has its bit set and refers to a frame taken for it; and back. */
  ghost predicate HeapOk(s: State) {
    && (forall i :: 0 <= i < HeapPages(s) && Present(HeapPte(s.ram, i)) ==>
          i < |s.heap| && s.heap[i] && Owns(s.owner, HeapPte(s.ram, i) - FLAGS, Heap(i)))
    && (forall f :: f in s.owner && s.owner[f].Heap? ==>
          0 <= s.owner[f].i < HeapPages(s) && HeapPte(s.ram, s.owner[f].i) == f + FLAGS)
  }

  ghost predicate Owns<T>(m: map<int, T>, f: int, x: T) { f in m && m[f] == x }

  /** The boot directory's entry 0, which shares the table of entry 768. */
  predicate BootAlias(d: int, e: int) { d == BOOT_DIR && e == 0 }

  /** A present user entry of a directory refers to a table taken for it; and back. */
  ghost predicate TablesOk(s: State) {
    && (forall d, e :: d in s.dirs && 0 <= e < 768 && !BootAlias(d, e) && Present(Entry(s.ram, d, e)) ==>
          Owns(s.owner, Entry(s.ram, d, e) - FLAGS, Table(d, e)))
    && (forall f :: f in s.owner && s.owner[f].Table? ==> TableBack(s, f, s.owner[f].dir, s.owner[f].e))
    && (BOOT_DIR in s.dirs ==> Entry(s.ram, BOOT_DIR, 0) == KernelTable(768) + FLAGS)
  }

  ghost predicate TableBack(s: State, f: int, d: int, e: int) {
    && d in s.dirs && GoodFrame(s.ram, d) && 0 <= e < 768 && !BootAlias(d, e)
    && Entry(s.ram, d, e) == f + FLAGS
  }

  /** A present entry of a user table refers to a frame taken for that page; and back. */
  ghost predicate UserOk(s: State) {
    && (forall f, t :: f in s.owner && s.owner[f].Table? && 0 <= t < 1024 && Present(Entry(s.ram, f, t)) ==>
          Owns(s.uowner, Entry(s.ram, f, t) - FLAGS, UserPage(s.owner[f].dir, s.owner[f].e, t, f)))
    && (forall g :: g in s.uowner ==> UserBack(s, g))
  }

  ghost predicate UserBack(s: State, g: int)
    requires g in s.uowner
  {
    var u := s.uowner[g];
    && 0 <= u.e < 768 && 0 <= u.t < 1024
    && Owns(s.owner, u.table, Table(u.dir, u.e)) && Entry(s.ram, u.table, u.t) == g + FLAGS
  }

  predicate IsPage(u: UserPage, d: int, page: int) { u.dir == d && u.e * 1024 + u.t == page }

  /** Page `page` of directory d is mapped. */
  ghost predicate UserMapped(uowner: map<int, UserPage>, d: int, page: int) {
    exists g :: g in uowner && IsPage(uowner[g], d, page)
  }

  /** The address pool of directory d ends below the kernel half, guard page included unless the guard bit is set; a
      clear bit means an unmapped page. */
  ghost predicate ProcOk(s: State, d: int)
    requires d in s.procs
  {
    var p := s.procs[d];
    && d in s.dirs && d != BOOT_DIR && |p.bits| >= 8
    && 0 <= p.start && p.start % PAGE == 0 && p.start + (|p.bits| - 8) * PAGE <= USER_TOP
    && (p.bits[|p.bits| - 8] || p.start + (|p.bits| - 7) * PAGE <= USER_TOP)
    && (forall j :: 0 <= j < |p.bits| - 7 && !p.bits[j] ==> !UserMapped(s.uowner, d, p.start / PAGE + j))
  }

  ghost predicate ProcsOk(s: State) {
    && (forall d :: d in s.procs ==> ProcOk(s, d))
    && (forall g :: g in s.uowner ==> s.uowner[g].dir in s.procs || s.uowner[g].dir == BOOT_DIR)
  }

  /** The first megabyte is mapped to itself, and no boot table maps anything beyond the heap pages. */
  ghost predicate BootOk(s: State) {
    && (forall k :: 0 <= k < 256 ==> Entry(s.ram, KernelTable(768), k) == k * PAGE + FLAGS)
    && (forall i :: HeapPages(s) <= i < HEAP_ENTRIES ==> !Present(HeapPte(s.ram, i)))
  }

  lemma SumAligned(start: int, k: int)
    requires start % PAGE == 0 && k % PAGE == 0
    ensures (start + k) % PAGE == 0
  {
  }

  lemma FitsBelow(k: int, n: int)
    requires k % PAGE == 0 && k < n * PAGE
    ensures k + PAGE <= n * PAGE
  {
  }

  /** A frame of a pool that begins on a page boundary. */
  lemma PoolFrame(p: Pool, f: int)
    requires InPool(p, f) && p.start % PAGE == 0
    ensures f % PAGE == 0 && p.start <= f && f + PAGE <= p.start + (|p.bits| - 8) * PAGE
  {
    SumAligned(p.start, f - p.start);
    FitsBelow(f - p.start, |p.bits| - 8);
  }

  lemma OwnedFramesGood(s: State)
    requires Sizes(s) && PoolsOk(s)
    ensures forall f :: f in s.owner ==> GoodFrame(s.ram, f) && 0x20_0000 <= f && f + PAGE <= s.user.start
    ensures forall f :: f in s.uowner ==> GoodFrame(s.ram, f) && s.user.start <= f
  {
    hide InPool;
    forall f | f in s.owner ensures GoodFrame(s.ram, f) && 0x20_0000 <= f && f + PAGE <= s.user.start {
      PoolFrame(s.kernel, f);
    }
    forall f | f in s.uowner ensures GoodFrame(s.ram, f) && s.user.start <= f { PoolFrame(s.user, f); }
  }

  ghost predicate Inv(s: State) {
    && Sizes(s) && PoolsOk(s) && DirsOk(s) && HeapOk(s) && TablesOk(s)
    && BootOk(s) && UserOk(s) && ProcsOk(s)
  }

  // ------------------------------------------------------------------ one change

  /** Heap page i gets the free frame number b of the kernel pool. */
  function MapHeap(s: State, i: int, b: int): State
    requires Sizes(s) && 0 <= i < HeapPages(s) && 0 <= b < |s.kernel.bits| - 8
  {
    HeapTables(i);
    var f := FrameAt(s.kernel, b);
    s.(ram := SetEntry(s.ram, HeapTable(i), HeapIdx(i), f + FLAGS), kernel := Take(s.kernel, b),
       owner := s.owner[f := Heap(i)])
  }

  lemma TakeKernelFrame(s: State, b: int, o: Owner, s': State)
    requires Sizes(s) && PoolsOk(s) && 0 <= b < |s.kernel.bits| - 8
    requires s'.kernel == Take(s.kernel, b) && s'.owner == s.owner[FrameAt(s.kernel, b) := o]
    requires s'.user == s.user && s'.uowner == s.uowner
    ensures PoolsOk(s')
  {
  }

  /** Where the pages with entries are. */
  ghost predicate Regions(s: State) {
    && (forall d :: d in s.dirs ==> GoodFrame(s.ram, d) && (d == BOOT_DIR || d >= 0x20_0000))
    && (forall f :: f in s.owner ==> GoodFrame(s.ram, f) && f >= 0x20_0000)
  }

  lemma InvRegions(s: State)
    requires Sizes(s) && PoolsOk(s) && DirsOk(s)
    ensures Regions(s)
  {
    OwnedFramesGood(s);
  }

  /** Entries outside page `base` at index k are as before. */
  ghost predicate OneEntry(a: seq<int>, b: seq<int>, base: int, k: int, x: int) {
    && |b| == |a|
    && forall p, j :: 0 <= p && p % PAGE == 0 && 0 <= j < 1024 ==>
         Entry(b, p, j) == if p == base && j == k then x else Entry(a, p, j)
  }

  lemma MapHeapDirs(s: State, s': State, base: int, k: int, x: int, f: int, i: int)
    requires DirsOk(s) && TablesOk(s) && Regions(s) && OneEntry(s.ram, s'.ram, base, k, x)
    requires BOOT_DIR + PAGE <= base && base + PAGE <= 0x20_0000
    requires s'.dirs == s.dirs && s'.cr3 == s.cr3 && s'.owner == s.owner[f := Heap(i)] && f !in s.owner
    ensures DirsOk(s') && TablesOk(s')
  {
    hide Entry;
  }

  /** Setting the entry of heap page i changes no other heap page's. */
  lemma OneHeapPte(a: seq<int>, b: seq<int>, i: int, x: int, j: int)
    requires OneEntry(a, b, HeapTable(i), HeapIdx(i), x) && 0 <= i && 0 <= j < HEAP_ENTRIES
    ensures HeapPte(b, j) == if j == i then x else HeapPte(a, j)
  {
    HeapTables(j);
    if HeapTable(i) == HeapTable(j) && HeapIdx(i) == HeapIdx(j) { HeapPtesApart(i, j); }
    hide Entry, KernelTable, HeapTable, HeapIdx;
  }

  lemma MapHeapHeap(s: State, s': State, f: int, i: int)
    requires Sizes(s) && HeapOk(s) && Regions(s) && OneEntry(s.ram, s'.ram, HeapTable(i), HeapIdx(i), f + FLAGS)
    requires 0 <= i < HeapPages(s) && i < |s.heap| && s.heap[i] && !Present(HeapPte(s.ram, i)) && s'.heap == s.heap
    requires s'.owner == s.owner[f := Heap(i)] && f !in s.owner && f % PAGE == 0
    ensures HeapOk(s')
  {
    assert |s.heap| <= 32768;
    hide HeapPte, OneEntry, Sizes, Regions, HeapTable, HeapIdx, HeapOk, Present;
    forall j | 0 <= j < HeapPages(s) ensures HeapPte(s'.ram, j) == if j == i then f + FLAGS else HeapPte(s.ram, j) {
      OneHeapPte(s.ram, s'.ram, i, f + FLAGS, j);
    }
    forall g | g in s.owner && s.owner[g].Heap? ensures s.owner[g].i != i { OwnedPresent(s, g); }
    HeapPtesUpdated(s, s', f, i);
  }

  lemma HeapPtesUpdated(s: State, s': State, f: int, i: int)
    requires HeapOk(s) && s'.heap == s.heap && 0 <= i < HeapPages(s) && i < |s.heap| && s.heap[i]
    requires s'.owner == s.owner[f := Heap(i)] && f !in s.owner
    requires forall j :: 0 <= j < HeapPages(s) ==> HeapPte(s'.ram, j) == if j == i then f + FLAGS else HeapPte(s.ram, j)
    requires forall g :: g in s.owner && s.owner[g].Heap? ==> s.owner[g].i != i
    ensures HeapOk(s')
  {
    hide HeapPte, Present;
  }

  /** A frame taken for a heap page is what that page's entry refers to. */
  lemma OwnedPresent(s: State, g: int)
    requires HeapOk(s) && Regions(s) && g in s.owner && s.owner[g].Heap?
    ensures 0 <= s.owner[g].i < HeapPages(s) && Present(HeapPte(s.ram, s.owner[g].i))
  {
    hide HeapPte;
  }

  /** Boot tables change only in the entry of a heap page. */
  lemma BootUnconcerned(s: State, s': State)
    requires BootOk(s) && |s'.heap| == |s.heap|
    requires forall k :: 0 <= k < 256 ==> Entry(s'.ram, KernelTable(768), k) == Entry(s.ram, KernelTable(768), k)
    requires forall j :: HeapPages(s) <= j < HEAP_ENTRIES ==> HeapPte(s'.ram, j) == HeapPte(s.ram, j)
    ensures BootOk(s')
  {
    hide Entry, KernelTable, HeapPte;
  }

  lemma MapHeapBoot(s: State, s': State, i: int, x: int)
    requires Sizes(s) && BootOk(s) && |s'.heap| == |s.heap| && OneEntry(s.ram, s'.ram, HeapTable(i), HeapIdx(i), x)
    requires 0 <= i < HeapPages(s)
    ensures BootOk(s')
  {
    forall k | 0 <= k < 256 ensures Entry(s'.ram, KernelTable(768), k) == Entry(s.ram, KernelTable(768), k) {
      LowIsNotHeap(i, k);
    }
    forall j | HeapPages(s) <= j < HEAP_ENTRIES ensures HeapPte(s'.ram, j) == HeapPte(s.ram, j) {
      OneHeapPte(s.ram, s'.ram, i, x, j);
    }
    BootUnconcerned(s, s');
  }

  lemma LowIsNotHeap(i: int, k: int)
    requires 0 <= i && 0 <= k < 256
    ensures KernelTable(768) % PAGE == 0 && KernelTable(768) > 0
    ensures !(HeapTable(i) == KernelTable(768) && HeapIdx(i) == k)
  {
  }

  lemma OtherPagesBoot(s: State, s': State)
    requires Sizes(s) && BootOk(s) && |s'.heap| == |s.heap|
    requires forall p, j :: 0x10_1000 <= p < 0x20_0000 && p % PAGE == 0 && 0 <= j < 1024 ==>
               Entry(s'.ram, p, j) == Entry(s.ram, p, j)
    ensures BootOk(s')
  {
    LowIsNotHeap(0, 0);
    assert 0x10_1000 <= KernelTable(768) < 0x20_0000;
    hide Entry, KernelTable, HeapTable, HeapIdx;
    forall j | HeapPages(s) <= j < HEAP_ENTRIES ensures HeapPte(s'.ram, j) == HeapPte(s.ram, j) { HeapTables(j); }
    BootUnconcerned(s, s');
  }

  lemma MapHeapUser(s: State, s': State, base: int, k: int, x: int, f: int, i: int)
    requires UserOk(s) && Regions(s) && OneEntry(s.ram, s'.ram, base, k, x)
    requires base + PAGE <= 0x20_0000
    requires s'.owner == s.owner[f := Heap(i)] && f !in s.owner && s'.uowner == s.uowner
    ensures UserOk(s')
  {
    hide Entry;
    forall g | g in s'.uowner ensures UserBack(s', g) {
      assert UserBack(s, g);
    }
  }

  lemma FrameAligned(start: int, b: int)
    requires start % PAGE == 0
    ensures (start + b * PAGE) % PAGE == 0
  {
  }

  lemma MapHeapShape(s: State, i: int, b: int)
    requires Sizes(s) && 0 <= i < HeapPages(s) && 0 <= b < |s.kernel.bits| - 8
    ensures 0x10_1000 <= HeapTable(i) && HeapTable(i) + PAGE <= 0x20_0000
    ensures Sizes(MapHeap(s, i, b))
    ensures OneEntry(s.ram, MapHeap(s, i, b).ram, HeapTable(i), HeapIdx(i), FrameAt(s.kernel, b) + FLAGS)
  {
    HeapTables(i);
    hide Entry, SetEntry, HeapTable, HeapIdx, FrameAt;
    SetEntryAt(s.ram, HeapTable(i), HeapIdx(i), FrameAt(s.kernel, b) + FLAGS);
  }

  lemma FreeFrameUnowned(s: State, b: int)
    requires Sizes(s) && PoolsOk(s) && 0 <= b < |s.kernel.bits| - 8 && !s.kernel.bits[b]
    ensures FrameAt(s.kernel, b) !in s.owner
  {
  }

  lemma MapHeapKept(s: State, i: int, b: int)
    requires 0 <= i < HeapPages(s) && i < |s.heap| && s.heap[i] && !Present(HeapPte(s.ram, i))
    requires 0 <= b < |s.kernel.bits| - 8 && !s.kernel.bits[b]
    requires Inv(s)
    ensures Inv(MapHeap(s, i, b))
  {
    hide Entry, HeapPte, SetEntry, HeapTable, HeapIdx, Present, PoolsOk, DirsOk, TablesOk, HeapOk, UserOk, ProcsOk,
      Regions, OneEntry, BootOk;
    var s', f := MapHeap(s, i, b), FrameAt(s.kernel, b);
    MapHeapShape(s, i, b);
    FreeFrameUnowned(s, b);
    TakeKernelFrame(s, b, Heap(i), s');
    InvRegions(s);
    assert f % PAGE == 0 by { FrameAligned(s.kernel.start, b); }
    hide Sizes, FrameAt;
    MapHeapBoot(s, s', i, f + FLAGS);
    MapHeapDirs(s, s', HeapTable(i), HeapIdx(i), f + FLAGS, f, i);
    MapHeapHeap(s, s', f, i);
    MapHeapUser(s, s', HeapTable(i), HeapIdx(i), f + FLAGS, f, i);
    ProcsUnconcerned(s, s');
  }

  /** Entry e of user directory d gets an empty table in the free frame number b of the kernel pool. */
  function AddTable(s: State, d: int, e: int, b: int): State
    requires Sizes(s) && GoodFrame(s.ram, d) && 0 <= e < 768 && 0 <= b < |s.kernel.bits| - 8
  {
    var f := FrameAt(s.kernel, b);
    s.(ram := ZeroPage(SetEntry(s.ram, d, e, f + FLAGS), f), kernel := Take(s.kernel, b),
       owner := s.owner[f := Table(d, e)])
  }

  /** Page f is cleared and entry k of page `base` set. */
  ghost predicate NewTable(a: seq<int>, b: seq<int>, base: int, k: int, f: int) {
    && |b| == |a|
    && forall p, j :: 0 <= p && p % PAGE == 0 && 0 <= j < 1024 ==>
         Entry(b, p, j) == if p == f then 0 else if p == base && j == k then f + FLAGS else Entry(a, p, j)
  }

  lemma AddTableTables(s: State, s': State, d: int, e: int, f: int)
    requires DirsOk(s) && TablesOk(s) && Regions(s) && NewTable(s.ram, s'.ram, d, e, f)
    requires d in s.dirs && 0 <= e < 768 && !BootAlias(d, e) && !Present(Entry(s.ram, d, e))
    requires f !in s.owner && GoodFrame(s.ram, f) && f >= 0x20_0000
    requires s'.dirs == s.dirs && s'.cr3 == s.cr3 && s'.owner == s.owner[f := Table(d, e)]
    ensures DirsOk(s') && TablesOk(s')
  {
    hide Entry;
    assert f !in s.dirs;
  }

  lemma AddTableHeap(s: State, s': State, d: int, e: int, f: int)
    requires Sizes(s) && HeapOk(s) && Regions(s) && NewTable(s.ram, s'.ram, d, e, f)
    requires (d == BOOT_DIR || d >= 0x20_0000) && f !in s.owner && f >= 0x20_0000
    requires s'.heap == s.heap && s'.owner == s.owner[f := Table(d, e)]
    ensures HeapOk(s')
  {
    hide Entry, KernelTable, HeapTable, HeapIdx;
    forall j | 0 <= j < HeapPages(s) ensures HeapPte(s'.ram, j) == HeapPte(s.ram, j) { HeapTables(j); }
  }

  lemma AddTableUser(s: State, s': State, d: int, e: int, f: int)
    requires UserOk(s) && Regions(s) && DirsOk(s) && NewTable(s.ram, s'.ram, d, e, f)
    requires d in s.dirs && f !in s.owner && GoodFrame(s.ram, f)
    requires s'.owner == s.owner[f := Table(d, e)] && s'.uowner == s.uowner
    ensures UserOk(s')
  {
    hide Entry;
    assert d !in s.owner || s.owner[d].Heap?;
    forall t, k | t in s'.owner && s'.owner[t].Table? && 0 <= k < 1024 && Present(Entry(s'.ram, t, k))
      ensures Owns(s'.uowner, Entry(s'.ram, t, k) - FLAGS, UserPage(s'.owner[t].dir, s'.owner[t].e, k, t))
    {
      assert t != f && Entry(s'.ram, t, k) == Entry(s.ram, t, k);
    }
    forall g | g in s'.uowner ensures UserBack(s', g) {
      assert UserBack(s, g);
    }
  }

  lemma AddTableShape(s: State, d: int, e: int, b: int)
    requires Sizes(s) && GoodFrame(s.ram, d) && 0 <= e < 768 && 0 <= b < |s.kernel.bits| - 8
    ensures var f := FrameAt(s.kernel, b);
            GoodFrame(s.ram, f) && f >= 0x20_0000 && NewTable(s.ram, AddTable(s, d, e, b).ram, d, e, f)
  {
    var f := FrameAt(s.kernel, b);
    assert GoodFrame(s.ram, f) && f >= 0x20_0000;
    SetEntryAt(s.ram, d, e, f + FLAGS);
    ZeroPageAt(SetEntry(s.ram, d, e, f + FLAGS), f);
    hide Entry, SetEntry, ZeroPage;
  }

  lemma AddTableKept(s: State, d: int, e: int, b: int)
    requires Inv(s) && d in s.dirs && 0 <= e < 768 && !BootAlias(d, e) && !Present(Entry(s.ram, d, e))
    requires 0 <= b < |s.kernel.bits| - 8 && !s.kernel.bits[b]
    requires GoodFrame(s.ram, d)
    ensures Inv(AddTable(s, d, e, b))
  {
    var s', f := AddTable(s, d, e, b), FrameAt(s.kernel, b);
    AddTableShape(s, d, e, b);
    assert f !in s.owner;
    TakeKernelFrame(s, b, Table(d, e), s');
    InvRegions(s);
    assert d == BOOT_DIR || d >= 0x20_0000;
    hide Entry, SetEntry, ZeroPage, PoolsOk, DirsOk, TablesOk, HeapOk, UserOk, ProcsOk, BootOk, Regions;
    OtherPagesBoot(s, s');
    hide NewTable;
    AddTableTables(s, s', d, e, f);
    AddTableHeap(s, s', d, e, f);
    AddTableUser(s, s', d, e, f);
    ProcsUnconcerned(s, s');
  }

  lemma ProcsUnconcerned(s: State, s': State)
    requires ProcsOk(s) && s'.procs == s.procs && s'.dirs == s.dirs && s'.uowner == s.uowner
    ensures ProcsOk(s')
  {
    forall x | x in s'.procs ensures ProcOk(s', x) { assert ProcOk(s, x); }
  }

  /** Page t of the table f for entry e of user directory d gets the free frame number b of the user pool. */
  function MapUser(s: State, u: UserPage, f: int, b: int): State
    requires GoodFrame(s.ram, f) && 0 <= u.t < 1024 && 0 <= b < |s.user.bits|
  {
    var g := FrameAt(s.user, b);
    s.(ram := SetEntry(s.ram, f, u.t, g + FLAGS), user := Take(s.user, b), uowner := s.uowner[g := u])
  }

  /** If page number `page` of directory d belongs to an address pool, its bit is set. */
  ghost predicate PageBitSet(s: State, d: int, page: int) {
    d in s.procs ==>
      var j := page - s.procs[d].start / PAGE;
      0 <= j < |s.procs[d].bits| - 7 ==> s.procs[d].bits[j]
  }

  lemma MapUserTables(s: State, s': State, f: int, k: int, x: int)
    requires Sizes(s) && DirsOk(s) && TablesOk(s) && HeapOk(s) && Regions(s) && OneEntry(s.ram, s'.ram, f, k, x)
    requires f in s.owner && s.owner[f].Table? && s'.owner == s.owner && s'.dirs == s.dirs && s'.cr3 == s.cr3
    requires s'.heap == s.heap
    ensures DirsOk(s') && TablesOk(s') && HeapOk(s')
  {
    hide Entry, KernelTable, HeapTable, HeapIdx;
    assert f !in s.dirs;
    forall j | 0 <= j < HeapPages(s) ensures HeapPte(s'.ram, j) == HeapPte(s.ram, j) { HeapTables(j); }
  }

  lemma MapUserUser(s: State, s': State, u: UserPage, f: int, g: int)
    requires UserOk(s) && Regions(s) && OneEntry(s.ram, s'.ram, f, u.t, g + FLAGS)
    requires 0 <= u.e < 768 && 0 <= u.t < 1024 && u.table == f && Owns(s.owner, f, Table(u.dir, u.e))
    requires g !in s.uowner && !Present(Entry(s.ram, f, u.t))
    requires forall h :: h in s.uowner ==> h % PAGE == 0
    requires s'.owner == s.owner && s'.uowner == s.uowner[g := u]
    ensures UserOk(s')
  {
    hide Entry;
    forall t, k | t in s'.owner && s'.owner[t].Table? && 0 <= k < 1024 && Present(Entry(s'.ram, t, k))
      ensures Owns(s'.uowner, Entry(s'.ram, t, k) - FLAGS, UserPage(s'.owner[t].dir, s'.owner[t].e, k, t))
    {
      assert Entry(s'.ram, t, k) == if t == f && k == u.t then g + FLAGS else Entry(s.ram, t, k);
    }
    forall h | h in s'.uowner ensures UserBack(s', h) {
      if h in s.uowner {
        assert UserBack(s, h);
      }
    }
  }

  lemma StillUnmapped(a: map<int, UserPage>, g: int, u: UserPage, d: int, page: int)
    requires !UserMapped(a, d, page) && !IsPage(u, d, page)
    ensures !UserMapped(a[g := u], d, page)
  {
  }

  lemma MapUserProcs(s: State, s': State, u: UserPage, g: int)
    requires ProcsOk(s) && PageBitSet(s, u.dir, u.e * 1024 + u.t) && (u.dir in s.procs || u.dir == BOOT_DIR)
    requires s'.dirs == s.dirs && s'.procs == s.procs && s'.uowner == s.uowner[g := u]
    ensures ProcsOk(s')
  {
    forall x | x in s'.procs ensures ProcOk(s', x) {
      assert ProcOk(s, x);
      var p := s.procs[x];
      forall j | 0 <= j < |p.bits| - 7 && !p.bits[j] ensures !UserMapped(s'.uowner, x, p.start / PAGE + j) {
        StillUnmapped(s.uowner, g, u, x, p.start / PAGE + j);
      }
    }
  }

  lemma TakeUserFrame(s: State, b: int, u: UserPage, s': State)
    requires Sizes(s) && PoolsOk(s) && 0 <= b < |s.user.bits| - 8
    requires s'.user == Take(s.user, b) && s'.uowner == s.uowner[FrameAt(s.user, b) := u]
    requires s'.kernel == s.kernel && s'.owner == s.owner
    ensures PoolsOk(s')
  {
  }

  lemma MapUserKept(s: State, u: UserPage, f: int, b: int)
    requires Inv(s) && 0 <= u.e < 768 && 0 <= u.t < 1024 && PageBitSet(s, u.dir, u.e * 1024 + u.t)
    requires u.dir in s.procs || u.dir == BOOT_DIR
    requires u.table == f && Owns(s.owner, f, Table(u.dir, u.e))
    requires 0 <= b < |s.user.bits| - 8 && !s.user.bits[b] && !Present(Entry(s.ram, f, u.t))
    requires GoodFrame(s.ram, f)
    ensures Inv(MapUser(s, u, f, b))
  {
    hide Entry, SetEntry, DirsOk, TablesOk, HeapOk, UserOk, ProcsOk, PageBitSet, Regions, BootOk;
    var s', g := MapUser(s, u, f, b), FrameAt(s.user, b);
    SetEntryAt(s.ram, f, u.t, g + FLAGS);
    assert g !in s.uowner;
    OwnedFramesGood(s);
    InvRegions(s);
    TakeUserFrame(s, b, u, s');
    hide PoolsOk;
    assert OneEntry(s.ram, s'.ram, f, u.t, g + FLAGS);
    OtherPagesBoot(s, s') by { assert f >= 0x20_0000; }
    hide OneEntry;
    MapUserTables(s, s', f, u.t, g + FLAGS);
    MapUserUser(s, s', u, f, g);
    MapUserProcs(s, s', u, g);
  }
}
