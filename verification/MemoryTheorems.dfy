/** What holds in every run of memory operations that starts from consistent books. */
module MemoryTheorems {
  import opened Basics
  import opened Paging
  import opened MemoryModel
  import opened MemoryInvariants
  import opened MemorySafety
  import opened MemoryAllocation
  import opened MemoryRuns

  // ------------------------------------------------------------------------- runs

  /** ss[0], ops[0], ss[1], ops[1], ... */
  ghost predicate IsRun(ss: seq<State>, ops: seq<Op>) {
    && |ss| == |ops| + 1 && Inv(ss[0])
    && forall i :: 0 <= i < |ops| ==> Moves(ss[i], ops[i], ss[i + 1])
  }

  ghost predicate Moves(s: State, op: Op, s': State) {
    Permitted(s, op) && !Exec(s, op).Stops? && Exec(s, op).s == s'
  }

  lemma MovesKept(s: State, op: Op, s': State)
    requires Moves(s, op, s')
    requires Inv(s)
    ensures StepKept(s, s')
  {
    ExecKept(s, op);
    hide Inv, Exec, Permitted, Grows;
  }

  lemma {:induction false} RunInv(ss: seq<State>, ops: seq<Op>, i: nat)
    requires IsRun(ss, ops) && i < |ss|
    ensures Inv(ss[i])
  {
    hide Inv, Moves, Grows;
    if i > 0 {
      RunInv(ss, ops, i - 1);
      MovesKept(ss[i - 1], ops[i - 1], ss[i]);
    }
  }

  lemma {:induction false} RunGrows(ss: seq<State>, ops: seq<Op>, i: nat, j: nat)
    requires IsRun(ss, ops) && i <= j < |ss|
    ensures Grows(ss[i], ss[j]) && ss[i].dirs <= ss[j].dirs
    decreases j
  {
    hide Inv, Moves, Grows;
    if i == j {
      GrowsSelf(ss[i]);
    } else {
      RunGrows(ss, ops, i, j - 1);
      RunInv(ss, ops, j - 1);
      MovesKept(ss[j - 1], ops[j - 1], ss[j]);
      GrowsTrans(ss[i], ss[j - 1], ss[j]);
    }
  }

  /** Once an address space translates an address, it translates it the same ever after. */
  lemma TranslationsLast(ss: seq<State>, ops: seq<Op>, i: nat, j: nat, d: int, v: int)
    requires IsRun(ss, ops) && i <= j < |ss| && d in ss[i].dirs && Address(v)
    requires Walk(ss[i].ram, d, v).Some?
    ensures Walk(ss[j].ram, d, v) == Walk(ss[i].ram, d, v)
  {
    RunInv(ss, ops, i);
    RunInv(ss, ops, j);
    RunGrows(ss, ops, i, j);
    hide Inv, Grows, Walk, IsRun;
    TranslationsKeptHere(ss[i], ss[j], d, v);
  }

  // ------------------------------------------------------------------ one kernel half

  lemma KernelHalfIn(s: State, d: int, v: int)
    requires d in s.dirs && USER_TOP <= v < 0xffc0_0000
    requires Inv(s)
    ensures 768 <= PdeIdx(v) < 1023
    ensures var t := KernelTable(PdeIdx(v));
            Walk(s.ram, d, v) == if Present(Entry(s.ram, t, PteIdx(v)))
                                 then Some(FrameOf(Entry(s.ram, t, PteIdx(v))) + v % PAGE) else None
  {
    InvRegions(s);
    var e := PdeIdx(v);
    assert 768 <= e < 1023;
    assert 0x20_0000 <= 4 * |s.ram|;
    KernelTablePage(e);
    FrameOfEntry(KernelTable(e));
    WalkEntries(s, d, v);
    assert Entry(s.ram, d, e) == KernelTable(e) + FLAGS;
    hide Inv, Entry, Walk, KernelTable, PdeIdx, PteIdx;
  }

  /** All address spaces ever made translate every kernel address alike. */
  lemma KernelHalfShared(ss: seq<State>, ops: seq<Op>, i: nat, d1: int, d2: int, v: int)
    requires IsRun(ss, ops) && i < |ss| && d1 in ss[i].dirs && d2 in ss[i].dirs && USER_TOP <= v < 0xffc0_0000
    ensures Walk(ss[i].ram, d1, v) == Walk(ss[i].ram, d2, v)
  {
    RunInv(ss, ops, i);
    KernelHalfIn(ss[i], d1, v);
    KernelHalfIn(ss[i], d2, v);
    hide Inv, IsRun, Walk, Entry;
  }

  // --------------------------------------------------------------------- used frames

  ghost predicate FreeFrame(p: Pool, f: int) { InPool(p, f) && !p.bits[(f - p.start) / PAGE] }

  lemma OwnedNotFree(s: State, f: int)
    requires Sizes(s) && PoolsOk(s) && (f in s.owner || f in s.uowner)
    ensures !FreeFrame(s.kernel, f) && !FreeFrame(s.user, f)
  {
    var p := if f in s.owner then s.kernel else s.user;
    assert InPool(p, f);
    var b := (f - p.start) / PAGE;
    assert f == FrameAt(p, b);
  }

  lemma LowNotFree(s: State, f: int)
    requires Sizes(s) && f < 0x20_0000
    ensures !FreeFrame(s.kernel, f) && !FreeFrame(s.user, f)
  {
  }

  /** The heap page of an entry of a boot table. */
  lemma BootTableIndex(base: int, k: int)
    requires 0x10_1000 <= base < 0x20_0000 && base % PAGE == 0 && 0 <= k < 1024
    requires !(base == KernelTable(768) && k < 256)
    ensures var i := (base - 0x10_1000) / PAGE * 1024 + k - 256;
            0 <= i < HEAP_ENTRIES && HeapTable(i) == base && HeapIdx(i) == k
  {
    var e := (base - 0x10_1000) / PAGE;
    assert base == 0x10_1000 + e * PAGE && 0 <= e < 255;
    var i := e * 1024 + k - 256;
    assert (256 + i) / 1024 == e && (256 + i) % 1024 == k;
  }

  lemma BootEntryFrame(s: State, base: int, k: int)
    requires 0x10_1000 <= base < 0x20_0000 && base % PAGE == 0 && 0 <= k < 1024 && Present(Entry(s.ram, base, k))
    requires Inv(s)
    ensures Entry(s.ram, base, k) - FLAGS in s.owner || 0 <= Entry(s.ram, base, k) - FLAGS < 0x10_0000
    ensures (Entry(s.ram, base, k) - FLAGS) % PAGE == 0
  {
    hide Entry, UserOk, TablesOk, DirsOk, ProcsOk;
    InvRegions(s);
    if base == KernelTable(768) && k < 256 {
      assert Entry(s.ram, base, k) == k * PAGE + FLAGS;
    } else {
      BootTableIndex(base, k);
      var i := (base - 0x10_1000) / PAGE * 1024 + k - 256;
      assert HeapPte(s.ram, i) == Entry(s.ram, base, k);
      hide KernelTable, HeapTable, HeapIdx;
    }
  }

  lemma EntryFrame(s: State, base: int, k: int)
    requires EntryPage(s, base) && 0 <= k < 1024 && Present(Entry(s.ram, base, k))
    requires Inv(s)
    ensures var f := Entry(s.ram, base, k) - FLAGS;
            f % PAGE == 0 && (f in s.owner || f in s.uowner || f < 0x20_0000)
  {
    OwnedFramesGood(s);
    InvRegions(s);
    if base in s.dirs {
      PresentDirEntry(s, base, k);
      hide Inv, Entry;
      KernelTablePage(if 768 <= k < 1023 then k else 768);
    } else if base in s.owner && s.owner[base].Table? {
      hide Entry;
    } else {
      hide Entry;
      BootEntryFrame(s, base, k);
    }
  }

  /** No frame that a present entry of any directory or page table refers to is ever marked free. */
  lemma ReferencedFramesAreUsed(ss: seq<State>, ops: seq<Op>, i: nat, base: int, k: int)
    requires IsRun(ss, ops) && i < |ss|
    requires EntryPage(ss[i], base) && 0 <= k < 1024 && Present(Entry(ss[i].ram, base, k))
    ensures var f := FrameOf(Entry(ss[i].ram, base, k));
            !FreeFrame(ss[i].kernel, f) && !FreeFrame(ss[i].user, f)
  {
    var s := ss[i];
    RunInv(ss, ops, i);
    EntryFrame(s, base, k);
    var f := Entry(s.ram, base, k) - FLAGS;
    FrameOfEntry(f);
    InvParts(s);
    hide Inv, IsRun, Entry, EntryPage;
    if f in s.owner || f in s.uowner { OwnedNotFree(s, f); } else { LowNotFree(s, f); }
  }

  // -------------------------------------------------------------------- conservation

  /** m and w are inverse to each other between xs and ys. */
  ghost predicate Inverse<A(!new), B(!new)>(xs: set<A>, ys: set<B>, m: map<A, B>, w: map<B, A>) {
    && (forall x :: x in xs ==> x in m && m[x] in ys && m[x] in w && w[m[x]] == x)
    && (forall y :: y in ys ==> y in w && w[y] in xs && w[y] in m && m[w[y]] == y)
  }

  lemma {:induction false} SameSize<A(!new), B(!new)>(xs: set<A>, ys: set<B>, m: map<A, B>, w: map<B, A>)
    requires Inverse(xs, ys, m, w)
    ensures |xs| == |ys|
    decreases xs
  {
    if xs == {} {
      assert ys == {} by {
        if y :| y in ys { assert w[y] in xs; }
      }
    } else {
      var x :| x in xs;
      SameSize(xs - {x}, ys - {m[x]}, m, w);
    }
  }

  /** The frames of a pool that are marked used. */
  ghost function UsedBits(p: Pool): set<int> { set b | 0 <= b < |p.bits| - 8 && p.bits[b] }

  ghost function MappedHeapPages(s: State): set<int> { set i | 0 <= i < HeapPages(s) && Present(HeapPte(s.ram, i)) }

  /** The directory entries of user space that refer to a page table. */
  ghost function UserTables(s: State): set<(int, int)> {
    set d, e | d in s.dirs && 0 <= e < 768 && !BootAlias(d, e) && Present(Entry(s.ram, d, e)) :: (d, e)
  }

  ghost predicate UserEntryPresent(s: State, d: int, e: int, t: int) {
    && d in s.dirs && 0 <= e < 768 && !BootAlias(d, e) && 0 <= t < 1024
    && Present(Entry(s.ram, d, e)) && Present(Entry(s.ram, Entry(s.ram, d, e) - FLAGS, t))
  }

  ghost function MappedUserPages(s: State): set<(int, int, int)> {
    set d, e, t | d in s.dirs && 0 <= e < 768 && 0 <= t < 1024 && UserEntryPresent(s, d, e, t) :: (d, e, t)
  }

  lemma BitsAreOwners<T>(p: Pool, owner: map<int, T>)
    requires |p.bits| >= 8
    requires forall b :: 0 <= b < |p.bits| - 8 ==> (p.bits[b] <==> FrameAt(p, b) in owner)
    requires forall f :: f in owner ==> InPool(p, f)
    ensures |UsedBits(p)| == |owner.Keys|
  {
    var m := map b | b in UsedBits(p) :: FrameAt(p, b);
    var w := map f | f in owner.Keys :: (f - p.start) / PAGE;
    forall f | f in owner.Keys ensures f in w && w[f] in UsedBits(p) && w[f] in m && m[w[f]] == f {
      assert InPool(p, f);
      assert FrameAt(p, w[f]) == f;
    }
    forall b | b in UsedBits(p) ensures b in m && m[b] in owner.Keys && m[b] in w && w[m[b]] == b {}
    SameSize(UsedBits(p), owner.Keys, m, w);
  }

  lemma HeapFramesCount(s: State)
    requires Sizes(s) && HeapOk(s)
    requires forall f :: f in s.owner ==> f % PAGE == 0
    ensures |set f | f in s.owner && s.owner[f].Heap?| == |MappedHeapPages(s)|
  {
    hide HeapPte;
    var xs := set f | f in s.owner && s.owner[f].Heap?;
    var m := map f | f in xs :: s.owner[f].i;
    var w := map i | i in MappedHeapPages(s) :: HeapPte(s.ram, i) - FLAGS;
    forall f | f in xs ensures f in m && m[f] in MappedHeapPages(s) && m[f] in w && w[m[f]] == f {
      assert f % PAGE == 0;
      FrameOfEntry(f);
      hide Present;
    }
    forall i | i in MappedHeapPages(s) ensures i in w && w[i] in xs && w[i] in m && m[w[i]] == i {}
    SameSize(xs, MappedHeapPages(s), m, w);
  }

  lemma TableFramesCount(s: State)
    requires TablesOk(s)
    requires forall f :: f in s.owner ==> f % PAGE == 0
    ensures |set f | f in s.owner && s.owner[f].Table?| == |UserTables(s)|
  {
    hide Entry;
    var xs := set f | f in s.owner && s.owner[f].Table?;
    var ys := UserTables(s);
    var m := map f | f in xs :: (s.owner[f].dir, s.owner[f].e);
    var w := map p | p in ys :: Entry(s.ram, p.0, p.1) - FLAGS;
    forall f | f in xs ensures f in m && m[f] in ys && m[f] in w && w[m[f]] == f {
      assert TableBack(s, f, s.owner[f].dir, s.owner[f].e);
      assert f % PAGE == 0;
      FrameOfEntry(f);
      hide Present;
    }
    forall p | p in ys ensures p in w && w[p] in xs && w[p] in m && m[w[p]] == p {}
    SameSize(xs, ys, m, w);
  }

  lemma KernelFrames(s: State)
    requires Inv(s)
    ensures |UsedBits(s.kernel)| == |MappedHeapPages(s)| + |UserTables(s)|
  {
    OwnedFramesGood(s);
    BitsAreOwners(s.kernel, s.owner);
    HeapFramesCount(s);
    TableFramesCount(s);
    hide Inv, UsedBits, MappedHeapPages, UserTables;
    var h, t := set f | f in s.owner && s.owner[f].Heap?, set f | f in s.owner && s.owner[f].Table?;
    assert s.owner.Keys == h + t && h !! t;
  }

  /** In every run the kernel pool's used frames are as many as the heap pages mapped and the page tables in use: no
      frame is lost and none is counted twice, whether allocations succeeded or failed half way. */
  lemma KernelFramesConserved(ss: seq<State>, ops: seq<Op>, i: nat)
    requires IsRun(ss, ops) && i < |ss|
    ensures |UsedBits(ss[i].kernel)| == |MappedHeapPages(ss[i])| + |UserTables(ss[i])|
  {
    RunInv(ss, ops, i);
    hide Inv, IsRun;
    KernelFrames(ss[i]);
  }

  /** The entries of a frame's one user page. */
  lemma UserFrameEntries(s: State, g: int)
    requires g in s.uowner
    requires Inv(s)
    ensures var u := s.uowner[g];
      && UserEntryPresent(s, u.dir, u.e, u.t)
      && Entry(s.ram, u.dir, u.e) == u.table + FLAGS && Entry(s.ram, u.table, u.t) == g + FLAGS
  {
    OwnedFramesGood(s);
    assert UserBack(s, g);
    var u := s.uowner[g];
    assert TableBack(s, u.table, u.dir, u.e);
    FrameOfEntry(g);
    FrameOfEntry(u.table);
    hide Inv, Entry, Present;
  }

  lemma UserEntryFrame(s: State, d: int, e: int, t: int)
    requires UserEntryPresent(s, d, e, t)
    requires Inv(s)
    ensures var f := Entry(s.ram, d, e) - FLAGS;
            Owns(s.uowner, Entry(s.ram, f, t) - FLAGS, UserPage(d, e, t, f))
  {
    hide Entry;
  }

  lemma InMappedUserPages(s: State, d: int, e: int, t: int)
    ensures (d, e, t) in MappedUserPages(s) <==> UserEntryPresent(s, d, e, t)
  {
    if UserEntryPresent(s, d, e, t) { PresentBounds(s, d, e, t); }
    hide UserEntryPresent;
  }

  function PageKey(u: UserPage): (int, int, int) { (u.dir, u.e, u.t) }

  ghost function FrameOfPage(s: State, p: (int, int, int)): int {
    Entry(s.ram, Entry(s.ram, p.0, p.1) - FLAGS, p.2) - FLAGS
  }

  lemma UserFrames(s: State)
    requires Inv(s)
    ensures |UsedBits(s.user)| == |MappedUserPages(s)|
  {
    BitsAreOwners(s.user, s.uowner);
    hide Inv, Entry, UsedBits, UserEntryPresent, MappedUserPages, Present;
    var xs, ys := s.uowner.Keys, MappedUserPages(s);
    var m := map g | g in xs :: PageKey(s.uowner[g]);
    var w := map p | p in ys :: FrameOfPage(s, p);
    forall g | g in xs ensures g in m && m[g] in ys && m[g] in w && w[m[g]] == g {
      UserFrameEntries(s, g);
      InMappedUserPages(s, s.uowner[g].dir, s.uowner[g].e, s.uowner[g].t);
    }
    forall p | p in ys ensures p in w && w[p] in xs && w[p] in m && m[w[p]] == p {
      InMappedUserPages(s, p.0, p.1, p.2);
      UserEntryFrame(s, p.0, p.1, p.2);
    }
    SameSize(xs, ys, m, w);
  }

  lemma PresentBounds(s: State, d: int, e: int, t: int)
    requires UserEntryPresent(s, d, e, t)
    ensures d in s.dirs && 0 <= e < 768 && 0 <= t < 1024
  {
  }

  /** The user pool's used frames are as many as the user pages mapped in all address spaces together. */
  lemma UserFramesConserved(ss: seq<State>, ops: seq<Op>, i: nat)
    requires IsRun(ss, ops) && i < |ss|
    ensures |UsedBits(ss[i].user)| == |MappedUserPages(ss[i])|
  {
    RunInv(ss, ops, i);
    hide Inv, IsRun;
    UserFrames(ss[i]);
  }

  // --------------------------------------------------------------------- no sharing

  lemma UserEntriesWalked(s: State, d: int, v: int, e: int, t: int)
    requires d in s.dirs && Address(v) && e == PdeIdx(v) && t == PteIdx(v) && 0 <= e < 768 && !BootAlias(d, e)
    requires Walk(s.ram, d, v).Some?
    requires Inv(s)
    ensures UserEntryPresent(s, d, e, t)
    ensures Walk(s.ram, d, v) == Some(FrameOf(Entry(s.ram, Entry(s.ram, d, e) - FLAGS, t)) + v % PAGE)
  {
    assert Regions(s) by { InvRegions(s); }
    hide PdeIdx, PteIdx, Entry, Walk, Inv, Present, FrameOf, Regions, PdeAt, PteAt, InRam;
    WalkEntries(s, d, v);
    TableIsEntryPage(s, d, e);
  }

  /** The books name the page behind a translated user address. */
  lemma UserWalk(s: State, d: int, v: int)
    requires d in s.dirs && 0 <= v < USER_TOP && !BootAlias(d, PdeIdx(v)) && Walk(s.ram, d, v).Some?
    requires Inv(s)
    ensures var g := FrameOf(Walk(s.ram, d, v).value);
            g in s.uowner && s.uowner[g].dir == d && s.uowner[g].e == PdeIdx(v) && s.uowner[g].t == PteIdx(v)
  {
    hide Inv, Entry, Walk, FrameOf, Present, UserEntryPresent;
    var e, t := PdeIdx(v), PteIdx(v);
    assert 0 <= e < 768 && 0 <= t < 1024;
    hide PdeIdx, PteIdx;
    UserEntriesWalked(s, d, v, e, t);
    UserEntryFrame(s, d, e, t);
    var x := Entry(s.ram, Entry(s.ram, d, e) - FLAGS, t);
    UserFrameAligned(s, x - FLAGS);
    FrameOfEntry(x - FLAGS);
    InPage(x - FLAGS, v % PAGE);
  }

  lemma UserFrameAligned(s: State, g: int)
    requires g in s.uowner
    requires Inv(s)
    ensures g % PAGE == 0
  {
    OwnedFramesGood(s);
  }

  lemma InPage(g: int, k: int)
    requires g % PAGE == 0 && 0 <= k < PAGE
    ensures FrameOf(g + k) == g
  {
  }

  lemma SamePageNumber(v: int, w: int)
    requires 0 <= v && 0 <= w && PdeIdx(v) == PdeIdx(w) && PteIdx(v) == PteIdx(w)
    ensures v / PAGE == w / PAGE
  {
    assert v / PAGE == v / 0x40_0000 * 1024 + v / PAGE % 1024;
    assert w / PAGE == w / 0x40_0000 * 1024 + w / PAGE % 1024;
  }

  /** In every run two user addresses, of one process or of two, lie in the same frame only if they are addresses of
      the same page of the same process. */
  lemma UserFramesAreNotShared(ss: seq<State>, ops: seq<Op>, i: nat, d1: int, v1: int, d2: int, v2: int)
    requires IsRun(ss, ops) && i < |ss| && d1 in ss[i].dirs && d2 in ss[i].dirs
    requires 0 <= v1 < USER_TOP && 0 <= v2 < USER_TOP && !BootAlias(d1, PdeIdx(v1)) && !BootAlias(d2, PdeIdx(v2))
    requires Walk(ss[i].ram, d1, v1).Some? && Walk(ss[i].ram, d2, v2).Some?
    requires FrameOf(Walk(ss[i].ram, d1, v1).value) == FrameOf(Walk(ss[i].ram, d2, v2).value)
    ensures d1 == d2 && v1 / PAGE == v2 / PAGE
  {
    RunInv(ss, ops, i);
    hide Inv, IsRun, Walk, FrameOf;
    UserWalk(ss[i], d1, v1);
    UserWalk(ss[i], d2, v2);
    SamePageNumber(v1, v2);
  }

  lemma HeapPageFrame(s: State, d: int, j: int)
    requires d in s.dirs && 0 <= j < HeapPages(s) && Walk(s.ram, d, HeapAddr(j)).Some?
    requires Inv(s)
    ensures Owns(s.owner, Walk(s.ram, d, HeapAddr(j)).value, Heap(j)) && Walk(s.ram, d, HeapAddr(j)).value !in s.uowner
  {
    assert |s.heap| <= 32768;
    OwnedFramesGood(s);
    HeapWalk(s, d, j);
    FrameOfEntry(HeapPte(s.ram, j) - FLAGS) by { hide HeapPte; assert HeapOk(s); }
    hide HeapPte, Walk, Entry, HeapTable, Present;
  }

  /** Two heap pages never share a frame, and no heap page shares one with a user page. */
  lemma HeapFramesAreNotShared(ss: seq<State>, ops: seq<Op>, i: nat, d: int, j: int, k: int, u: int, v: int)
    requires IsRun(ss, ops) && i < |ss| && d in ss[i].dirs && u in ss[i].dirs
    requires 0 <= j < HeapPages(ss[i]) && 0 <= k < HeapPages(ss[i]) && Walk(ss[i].ram, d, HeapAddr(j)).Some?
    ensures j != k ==> Walk(ss[i].ram, d, HeapAddr(k)) != Walk(ss[i].ram, d, HeapAddr(j))
    ensures 0 <= v < USER_TOP && !BootAlias(u, PdeIdx(v)) && Walk(ss[i].ram, u, v).Some? ==>
              FrameOf(Walk(ss[i].ram, u, v).value) != Walk(ss[i].ram, d, HeapAddr(j)).value
  {
    var s := ss[i];
    RunInv(ss, ops, i);
    hide Inv, IsRun, Walk, HeapAddr, FrameOf;
    HeapPageFrame(s, d, j);
    if Walk(s.ram, d, HeapAddr(k)).Some? { HeapPageFrame(s, d, k); }
    if 0 <= v < USER_TOP && !BootAlias(u, PdeIdx(v)) && Walk(s.ram, u, v).Some? { UserWalk(s, u, v); }
  }

  // --------------------------------------------------------------------- allocation

  lemma FreeKernelFrameIs(s: State, f: int)
    requires Sizes(s) && PoolsOk(s) && InPool(s.kernel, f) && f !in s.owner
    ensures FreeFrame(s.kernel, f)
  {
    assert f == FrameAt(s.kernel, (f - s.kernel.start) / PAGE);
  }

  lemma FreeUserFrameIs(s: State, f: int)
    requires Sizes(s) && PoolsOk(s) && InPool(s.user, f) && f !in s.uowner
    ensures FreeFrame(s.user, f)
  {
    assert f == FrameAt(s.user, (f - s.user.start) / PAGE);
  }

  lemma HeapRunPage(s: State, s': State, i: int, cnt: nat, j: int, d: int)
    requires HeapRunMapped(s, s', i, cnt) && i <= j < i + cnt && 0 <= i && i + cnt <= HeapPages(s) && |s.heap| <= 32768
    requires d in s.dirs && d in s'.dirs && !Present(HeapPte(s.ram, j))
    requires Inv(s) && Inv(s')
    ensures Walk(s.ram, d, HeapAddr(j)) == None
    ensures Walk(s'.ram, d, HeapAddr(j)) == Some(HeapPte(s'.ram, j) - FLAGS)
    ensures FreeFrame(s.kernel, HeapPte(s'.ram, j) - FLAGS)
  {
    var f := HeapPte(s'.ram, j) - FLAGS;
    HeapWalk(s, d, j);
    HeapWalk(s', d, j);
    InvParts(s);
    hide Inv, HeapPte, Walk, Entry, HeapTable, HeapIdx;
    FrameOfEntry(f);
    FreeKernelFrameIs(s, f);
  }

  lemma HeapRunIsFresh(s: State, s': State, i: int, cnt: nat, j: int, k: int, d: int)
    requires HeapRunMapped(s, s', i, cnt) && i <= j < i + cnt && i <= k < i + cnt
    requires 0 <= i && i + cnt <= HeapPages(s) && 8 <= |s.heap| <= 32768 && !s.heap[j] && !s.heap[k]
    requires d in s.dirs && d in s'.dirs
    requires Inv(s) && Inv(s')
    ensures Walk(s.ram, d, HeapAddr(j)) == None
    ensures Walk(s'.ram, d, HeapAddr(j)).Some? && FreeFrame(s.kernel, Walk(s'.ram, d, HeapAddr(j)).value)
    ensures j != k ==> Walk(s'.ram, d, HeapAddr(j)) != Walk(s'.ram, d, HeapAddr(k))
  {
    hide Inv, Walk, HeapPte, FreeFrame, Present, HeapAddr, HeapRunMapped;
    ClearHeapPage(s, j);
    ClearHeapPage(s, k);
    HeapRunPage(s, s', i, cnt, j, d);
    HeapRunPage(s, s', i, cnt, k, d);
    if j != k { HeapOwnersDiffer(s, s', i, cnt, j, k); }
  }

  lemma KernelPagesGot(s: State, cnt: nat, s': State, v: int) returns (i: int)
    requires MallocPage(s, PfKernel, cnt) == Got(s', v)
    requires Inv(s)
    ensures 0 <= i && i + cnt <= HeapPages(s) && v == HeapAddr(i) && HeapRunMapped(s, s', i, cnt)
    ensures 8 <= |s.heap| <= 32768 && forall j :: i <= j < i + cnt ==> !s.heap[j]
    ensures s'.dirs == s.dirs && Inv(s')
  {
    i := RoomFor(s.heap, cnt);
    assert 8 <= |s.heap| <= 32768;
    MallocKernel(s, cnt);
    hide Inv, MallocPage, RoomFor, Grows, HeapRunMapped, FreeFrames;
    HeapVaddr(s, cnt);
  }

  /** w is the address of one of the cnt pages from v on. */
  predicate PageOfBlock(v: int, cnt: nat, w: int) { v <= w < v + cnt * PAGE && (w - v) % PAGE == 0 }

  lemma BlockPage(v: int, cnt: nat, w: int) returns (j: int)
    requires PageOfBlock(v, cnt, w)
    ensures 0 <= j < cnt && w == v + j * PAGE
  {
    j := (w - v) / PAGE;
  }

  lemma HeapBlockPage(i: int, cnt: nat, w: int) returns (j: int)
    requires PageOfBlock(HeapAddr(i), cnt, w)
    ensures i <= j < i + cnt && w == HeapAddr(j)
  {
    j := i + (w - HeapAddr(i)) / PAGE;
  }

  /** A successful malloc_page for the kernel hands out pages that no address space translated before; afterwards every
      address space translates each to its own frame, which was free. */
  lemma KernelPagesAreFresh(s: State, cnt: nat, s': State, v: int, w: int, x: int, d: int)
    requires MallocPage(s, PfKernel, cnt) == Got(s', v) && PageOfBlock(v, cnt, w)
    requires PageOfBlock(v, cnt, x) && d in s.dirs
    requires Inv(s)
    ensures Walk(s.ram, d, w) == None
    ensures Walk(s'.ram, d, w).Some? && FreeFrame(s.kernel, Walk(s'.ram, d, w).value)
    ensures w != x ==> Walk(s'.ram, d, w) != Walk(s'.ram, d, x)
  {
    hide Inv, MallocPage, Walk, FreeFrame, HeapRunMapped, HeapAddr, PageOfBlock, HeapPages;
    var i := KernelPagesGot(s, cnt, s', v);
    var j := HeapBlockPage(i, cnt, w);
    var k := HeapBlockPage(i, cnt, x);
    HeapRunIsFresh(s, s', i, cnt, j, k, d);
  }

  lemma HeapOwnersDiffer(s: State, s': State, i: int, cnt: nat, j: int, k: int)
    requires HeapRunMapped(s, s', i, cnt) && i <= j < i + cnt && i <= k < i + cnt && j != k
    ensures HeapPte(s'.ram, j) != HeapPte(s'.ram, k)
  {
    hide HeapPte, InPool;
  }

  lemma NotMappedNoWalk(s: State, d: int, page: int)
    requires 0 <= page < 768 * 1024 && d in s.dirs && !BootAlias(d, page / 1024) && !UserMapped(s.uowner, d, page)
    requires Inv(s)
    ensures Walk(s.ram, d, page * PAGE) == None
  {
    var v, e, t := page * PAGE, page / 1024, page % 1024;
    PageIndices(page, e, t);
    if Walk(s.ram, d, v).Some? {
      UserWalk(s, d, v);
      var g := FrameOf(Walk(s.ram, d, v).value);
      assert IsPage(s.uowner[g], d, page);
    }
  }

  lemma UserRunPage(s: State, s': State, first: int, cnt: nat, page: int) returns (g: int)
    requires UserRunMapped(s, s', first, cnt) && first <= page < first + cnt && 0 <= page < 768 * 1024
    requires !UserMapped(s.uowner, s.cr3, page)
    requires Inv(s) && Inv(s')
    ensures Walk(s'.ram, s.cr3, page * PAGE) == Some(g) && FreeFrame(s.user, g)
    ensures g in s'.uowner && IsPage(s'.uowner[g], s.cr3, page)
  {
    assert UserMapped(s'.uowner, s.cr3, page);
    g :| g in s'.uowner && IsPage(s'.uowner[g], s.cr3, page);
    assert g !in s.uowner;
    MappedWords(s', s.cr3, page, g);
    InvParts(s);
    hide Inv, Walk, UserMapped, InPool;
    FreeUserFrameIs(s, g);
  }

  /** One of the pages, before and after. */
  lemma NewPageWalks(s: State, s': State, first: int, cnt: nat, page: int) returns (g: int)
    requires UserRunMapped(s, s', first, cnt) && first <= page < first + cnt && NewUserPage(s, page) && s.cr3 in s.dirs
    requires Inv(s) && Inv(s')
    ensures Walk(s.ram, s.cr3, page * PAGE) == None
    ensures Walk(s'.ram, s.cr3, page * PAGE) == Some(g) && FreeFrame(s.user, g)
    ensures g in s'.uowner && IsPage(s'.uowner[g], s.cr3, page)
  {
    hide Inv, Walk, UserMapped, FreeFrame, UserRunMapped, BootAlias, IsPage;
    NotMappedNoWalk(s, s.cr3, page);
    g := UserRunPage(s, s', first, cnt, page);
  }

  lemma UserRunPages(s: State, s': State, first: int, cnt: nat, a: int, b: int, w: int, x: int)
    requires UserRunMapped(s, s', first, cnt) && first <= a < first + cnt && first <= b < first + cnt
    requires w == a * PAGE && x == b * PAGE && s.cr3 in s.dirs
    requires NewUserPage(s, a) && NewUserPage(s, b)
    requires Inv(s) && Inv(s')
    ensures Walk(s.ram, s.cr3, w) == None
    ensures Walk(s'.ram, s.cr3, w).Some?
    ensures FreeFrame(s.user, Walk(s'.ram, s.cr3, w).value)
    ensures w != x ==> Walk(s'.ram, s.cr3, w) != Walk(s'.ram, s.cr3, x)
  {
    hide Inv, Walk, UserMapped, FreeFrame, UserRunMapped, NewUserPage;
    var g := NewPageWalks(s, s', first, cnt, a);
    var h := NewPageWalks(s, s', first, cnt, b);
  }

  lemma AllUnmapped(s: State, page: int, cnt: nat)
    requires Unmapped(s, page, cnt) == cnt
    ensures forall j :: page <= j < page + cnt ==> !UserMapped(s.uowner, s.cr3, j)
    decreases cnt
  {
    hide UserMapped;
    if cnt > 0 { AllUnmapped(s, page + 1, cnt - 1); }
  }

  /** Handing out addresses changes neither which directory is active nor what it maps. */
  lemma FreshBefore(s: State, i: int, cnt: nat, page: int)
    requires OwnOrBoot(s) && 0 <= i && i + cnt <= |s.procs[s.run].bits|
    requires PlacedUserPage(UserTaken(s, i, cnt), page) && !UserMapped(s.uowner, s.cr3, page)
    ensures 0 <= page < 768 * 1024 && !BootAlias(s.cr3, page / 1024)
  {
  }

  /** Page number `page` can be walked to before and after. */
  ghost predicate NewUserPage(s: State, page: int) {
    0 <= page < 768 * 1024 && !BootAlias(s.cr3, page / 1024) && !UserMapped(s.uowner, s.cr3, page)
  }

  lemma UserPagesGot(s: State, cnt: nat, s': State, v: int) returns (first: int)
    requires OwnOrBoot(s) && MallocPage(s, PfUser, cnt) == Got(s', v)
    requires Inv(s)
    ensures v == first * PAGE && UserRunMapped(s, s', first, cnt)
    ensures forall page :: first <= page < first + cnt ==> NewUserPage(s, page)
    ensures Inv(s')
  {
    var p, i := s.procs[s.run], RoomFor(s.procs[s.run].bits, cnt);
    first := PageNo(p, i);
    hide Inv, MallocPage, RoomFor, Grows, UserRunMapped, UserMapped, PlacedUserPage, ProcsOk, UserTaken, PageNo,
      FreeFrames, MissingTables, OwnOrBoot, Unmapped;
    InvProcs(s);
    MallocUser(s, cnt);
    UserRoom(s, cnt);
    AllUnmapped(s, first, cnt);
    forall page | first <= page < first + cnt ensures NewUserPage(s, page) { FreshBefore(s, i, cnt, page); }
  }

  /** The same for the pages of a process, in the directory that is active: they were not mapped, and each now has its
      own frame, which was free. */
  lemma UserPagesAreFresh(s: State, cnt: nat, s': State, v: int, w: int, x: int)
    requires OwnOrBoot(s) && MallocPage(s, PfUser, cnt) == Got(s', v)
    requires PageOfBlock(v, cnt, w) && PageOfBlock(v, cnt, x)
    requires Inv(s)
    ensures Walk(s.ram, s.cr3, w) == None
    ensures Walk(s'.ram, s.cr3, w).Some? && FreeFrame(s.user, Walk(s'.ram, s.cr3, w).value)
    ensures w != x ==> Walk(s'.ram, s.cr3, w) != Walk(s'.ram, s.cr3, x)
  {
    var j := BlockPage(v, cnt, w);
    var k := BlockPage(v, cnt, x);
    ActiveDir(s);
    hide Inv, MallocPage, Walk, FreeFrame, UserRunMapped, UserMapped, PageOfBlock, OwnOrBoot;
    var first := UserPagesGot(s, cnt, s', v);
    assert NewUserPage(s, first + j) && NewUserPage(s, first + k);
    UserRunPages(s, s', first, cnt, first + j, first + k, w, x);
  }

  // ------------------------------------------- a process that runs in the boot directory

  /** Translation goes by pages. */
  lemma WalkByPage(ram: seq<int>, d: int, v: int)
    requires Address(v)
    ensures Walk(ram, d, v).Some? <==> Walk(ram, d, v - v % PAGE).Some?
  {
    PageOf(v);
    hide PdeIdx, PteIdx, FrameOf;
  }

  lemma PoolPage(p: Pool, v: int, j: int)
    requires Address(v) && j == BitIdx(v, p.start) && 0 < j < |p.bits| - 8
    requires 0 <= p.start && p.start % PAGE == 0 && p.start + (|p.bits| - 8) * PAGE <= USER_TOP
    ensures var page := PageNo(p, j);
      && 0 <= page < 768 * 1024 && page * PAGE == v - v % PAGE && v < USER_TOP
      && PdeIdx(v) == page / 1024 && PteIdx(v) == page % 1024
      && (p.start >= 0x40_0000 ==> page / 1024 > 0)
  {
    UserBitIdx(v, p, j);
    PageInPool(p, j);
    var page := PageNo(p, j);
    PageOf(v);
    PageIndices(page, page / 1024, page % 1024);
    if p.start >= 0x40_0000 { PageAbove(p, j); }
  }

  lemma ProcPool(s: State, d: int)
    requires d in s.procs
    requires Inv(s)
    ensures var p := s.procs[d];
      && 0 <= p.start && p.start % PAGE == 0 && p.start + (|p.bits| - 8) * PAGE <= USER_TOP
      && d in s.dirs && d != BOOT_DIR
  {
    InvProcs(s);
    assert ProcOk(s, d);
  }

  /** get_a_page by a process maps the page in the directory that is active. */
  lemma PageGoesToActive(s: State, v: int, s': State, w: int)
    requires Address(v) && OwnOrBoot(s) && GetAPage(s, PfUser, v) == Got(s', w)
    requires Inv(s)
    ensures w == v
    ensures Walk(s.ram, s.cr3, v) == None && Walk(s'.ram, s.cr3, v).Some?
  {
    hide Inv, GetAPage, Walk, UserMapped, PdeIdx, PteIdx, UserRunMapped, BootAlias, OwnOrBoot, FreeFrame, IsPage;
    var page := GotPage(s, v, s', w);
    WalkByPage(s.ram, s.cr3, v);
    WalkByPage(s'.ram, s.cr3, v);
    NotMappedNoWalk(s, s.cr3, page);
    var _ := UserRunPage(s, s', page, 1, page);
  }

  /** When that is the boot directory, the process's own directory translates the page afterwards only if it did
      before. */
  lemma OwnDirectoryUnchanged(s: State, v: int, s': State, w: int)
    requires Address(v) && OwnOrBoot(s) && GetAPage(s, PfUser, v) == Got(s', w)
    requires s.cr3 == BOOT_DIR && Walk(s.ram, s.run, v) == None
    requires Inv(s)
    ensures Walk(s'.ram, s.run, v) == None
  {
    hide Inv, GetAPage, Walk, UserMapped, PdeIdx, PteIdx, UserRunMapped;
    var page := GotPage(s, v, s', w);
    ProcPool(s, s.run);
    hide OwnOrBoot;
    WalkByPage(s.ram, s.run, v);
    WalkByPage(s'.ram, s.run, v);
    if UserMapped(s.uowner, s.run, page) { MappedWalks(s, s.run, page); }
    OtherDirUnmapped(s, s', page, s.run);
    NotMappedNoWalk(s', s.run, page);
  }

  /** The number of the page that get_a_page has mapped. */
  lemma GotPage(s: State, v: int, s': State, w: int) returns (page: int)
    requires Address(v) && OwnOrBoot(s) && GetAPage(s, PfUser, v) == Got(s', w)
    requires Inv(s)
    ensures w == v
    ensures 0 <= page < 768 * 1024 && page * PAGE == v - v % PAGE && !BootAlias(s.cr3, page / 1024)
    ensures s.cr3 in s.dirs && s'.dirs == s.dirs && Inv(s')
    ensures !UserMapped(s.uowner, s.cr3, page) && UserRunMapped(s, s', page, 1)
  {
    var p, j := s.procs[s.run], BitIdx(v, s.procs[s.run].start);
    page := PageNo(p, j);
    GetAPageUser(s, v);
    ProcPool(s, s.run);
    ActiveDir(s);
    hide Inv, GetAPage, Walk, UserMapped, PdeIdx, PteIdx, BitIdx, PageNo, UserRunMapped, FreeFrames, HasTable, Grows;
    PoolPage(p, v, j);
  }

  lemma MappedWalks(s: State, d: int, page: int)
    requires UserMapped(s.uowner, d, page)
    requires Inv(s)
    ensures Walk(s.ram, d, page * PAGE).Some?
  {
    var g :| g in s.uowner && IsPage(s.uowner[g], d, page);
    MappedWords(s, d, page, g);
  }

  lemma OtherDirUnmapped(s: State, s': State, page: int, d: int)
    requires UserRunMapped(s, s', page, 1) && d != s.cr3 && !UserMapped(s.uowner, d, page)
    ensures !UserMapped(s'.uowner, d, page)
  {
  }

  /** So, while the boot directory stays active, only the first process gets a page at v: the call of every later one
      stops at the ASSERT of page_table_add, or fails for want of a user frame. The user stack is at the same address
      in every process. */
  lemma SamePageOnlyOnce(ss: seq<State>, ops: seq<Op>, i: nat, k: nat, v: int)
    requires IsRun(ss, ops) && i <= k < |ss| && Address(v) && Walk(ss[i].ram, BOOT_DIR, v).Some?
    requires ss[k].cr3 == BOOT_DIR && OwnOrBoot(ss[k])
    requires var p := ss[k].procs[ss[k].run]; 0 < BitIdx(v, p.start) < |p.bits| - 8
    ensures var s := ss[k]; var j := BitIdx(v, s.procs[s.run].start);
            GetAPage(s, PfUser, v) == if FreeFrames(s.user) == {} then Null(UserTaken(s, j, 1)) else Stops(PteBusy)
  {
    var s := ss[k];
    var p, j := s.procs[s.run], BitIdx(v, s.procs[s.run].start);
    var page := PageNo(p, j);
    RunInv(ss, ops, i);
    RunInv(ss, ops, k);
    BootDirKnown(ss[i]);
    TranslationsLast(ss, ops, i, k, BOOT_DIR, v);
    RunGrows(ss, ops, i, k);
    ProcPool(s, s.run);
    hide Inv, IsRun, Walk, GetAPage, BitIdx, PageNo, UserMapped, PdeIdx, PteIdx, Grows, FreeFrames, HasTable,
      UserRunMapped;
    PoolPage(p, v, j);
    UserWalk(s, BOOT_DIR, v);
    PageOwned(s.uowner, FrameOf(Walk(s.ram, BOOT_DIR, v).value), s.uowner[FrameOf(Walk(s.ram, BOOT_DIR, v).value)],
              BOOT_DIR, page);
    GetAPageUser(s, v);
  }
}
