/** The unchecked palloc of page_table_add can fail in a real run: with the whole kernel pool in use and a directory
    without page tables, the first user page stops the machine although user frames are free. */
module MemoryExhaustion {
  import opened Basics
  import opened Paging
  import opened Bitmap
  import opened MemoryModel
  import opened MemoryInvariants
  import opened MemorySafety
  import opened MemoryAllocation
  import opened MemoryRuns
  import opened MemoryTheorems
  import MemoryBoot
  import PoolLayout

  /** As after boot: n frames in the kernel pool, n heap pages, and nothing taken. */
  ghost predicate Untouched(s: State, n: nat) {
    && |s.heap| == n + 8 && |s.kernel.bits| == n + 8 && FreeFrames(s.user) != {}
    && forall k :: 0 <= k < n ==> !s.heap[k] && !s.kernel.bits[k]
  }

  /** Which is how every machine of up to 32 MB boots, if it has frames for both pools. */
  lemma BootsUntouched(s: State, allMem: int)
    requires 0x21_0000 <= allMem <= 0x200_0000 && allMem % PAGE == 0 && MemoryBoot.FreshBooks(s, allMem)
    ensures var n := 8 * PoolLayout.MemPoolInit(allMem).kernel.bytesLen;
            8 <= n <= 3840 && Untouched(s, n)
  {
    var pages := (allMem - 0x20_0000) / PAGE;
    assert 16 <= pages <= 7680;
    assert 0 in FreeFrames(s.user);
  }

  /** An address pool for a process, with its first page free. */
  ghost predicate ProcessPool(p: Pool) {
    && |p.bits| > 8 && p.start == 0x804_8000 && !p.bits[0] && p.start + (|p.bits| - 8) * PAGE <= USER_TOP
    && (p.bits[|p.bits| - 8] || p.start + (|p.bits| - 7) * PAGE <= USER_TOP)
  }

  lemma {:induction false} AllClear(bits: seq<bool>, n: nat)
    requires n <= |bits| && forall k :: 0 <= k < n ==> !bits[k]
    ensures |set k | 0 <= k < n && !bits[k]| == n
  {
    if n > 0 {
      AllClear(bits, n - 1);
      assert (set k | 0 <= k < n && !bits[k]) == (set k | 0 <= k < n - 1 && !bits[k]) + {n - 1};
    }
  }

  lemma AllFree(p: Pool, n: nat)
    requires |p.bits| == n + 8 && forall k :: 0 <= k < n ==> !p.bits[k]
    ensures |FreeFrames(p)| == n
  {
    AllClear(p.bits, n);
    assert FreeFrames(p) == set k | 0 <= k < n && !p.bits[k];
  }

  lemma RoomAt(bits: seq<bool>, cnt: nat, k: nat)
    requires |bits| >= 8 && cnt >= 1 && k + cnt <= |bits| - 8 && forall j :: k <= j < k + cnt ==> !bits[j]
    ensures 0 <= RoomFor(bits, cnt) <= k
  {
    assert Run(bits, Limit(bits, cnt), cnt, k);
  }

  lemma StepTo(s: State, op: Op) returns (s': State)
    requires Permitted(s, op) && !Exec(s, op).Stops?
    requires Inv(s)
    ensures s' == Exec(s, op).s && Moves(s, op, s') && Inv(s')
  {
    s' := Exec(s, op).s;
    hide Inv, Exec, Permitted, Grows;
    MovesKept(s, op, s');
  }

  /** All kernel frames but one go to heap pages. */
  lemma TakeAllButOne(s: State, n: nat) returns (s': State)
    requires Untouched(s, n) && 2 <= n <= 3840
    requires Inv(s)
    ensures Moves(s, Malloc(PfKernel, n - 1), s') && Inv(s') && s'.user == s.user
    ensures |s'.heap| == n + 8 && !s'.heap[n - 1] && |FreeFrames(s'.kernel)| == 1
  {
    AllFree(s.kernel, n);
    RoomAt(s.heap, n - 1, 0);
    MallocKernel(s, n - 1);
    hide Inv, RoomFor, FreeFrames, MallocPage, ResultSound;
    s' := StepTo(s, Malloc(PfKernel, n - 1));
  }

  /** The last one becomes a directory. */
  lemma MakeLastDir(s: State, n: nat) returns (s': State, d: int, pgdir: int, i: int)
    requires |s.heap| == n + 8 && n >= 2 && !s.heap[n - 1] && |FreeFrames(s.kernel)| == 1
    requires Inv(s)
    ensures Moves(s, CreateDir, s') && Inv(s') && s'.user == s.user && |FreeFrames(s'.kernel)| == 0
    ensures d in s'.dirs && d != BOOT_DIR && d !in s'.procs && Entry(s'.ram, d, 32) == 0
    ensures IsPgdir(s', pgdir, i) && HeapPte(s'.ram, i) == d + FLAGS
  {
    hide Inv, RoomFor, FreeFrames, MallocPage, CreatePageDir, Walk, Entry, HeapPte, ResultSound, IsPgdir, Moves,
      StepKept;
    LastKernelPage(s, n);
    CreateDirKept(s);
    BootDirKnown(s);
    s' := StepTo(s, CreateDir);
    var r := CreatePageDir(s);
    d, i :| NewDirectory(s, r, d, i);
    pgdir := r.v;
    PoolsHaveDirs(s);
  }

  /** One kernel page is left. */
  lemma LastKernelPage(s: State, n: nat)
    requires |s.heap| == n + 8 && n >= 2 && !s.heap[n - 1] && |FreeFrames(s.kernel)| == 1
    requires Inv(s)
    ensures var m := MallocPage(s, PfKernel, 1);
            m.Got? && m.s.user == s.user && |FreeFrames(m.s.kernel)| == 0 && m.s.procs == s.procs
  {
    RoomAt(s.heap, 1, n - 1);
    MallocKernel(s, 1);
    hide Inv, RoomFor, FreeFrames, MallocPage, ResultSound;
  }

  lemma PoolsHaveDirs(s: State)
    requires Inv(s)
    ensures forall d :: d in s.procs ==> d in s.dirs
  {
    forall d | d in s.procs ensures d in s.dirs { ProcPool(s, d); }
  }

  /** The process with that directory and an address pool runs, in its own directory. */
  lemma RunProcess(s: State, d: int, pgdir: int, i: int, p: Pool) returns (s1: State, s2: State, s3: State)
    requires d in s.dirs && d != BOOT_DIR && d !in s.procs && ProcessPool(p)
    requires IsPgdir(s, pgdir, i) && HeapPte(s.ram, i) == d + FLAGS
    requires Inv(s)
    ensures Moves(s, GivePool(d, p), s1) && Moves(s1, Dispatch(d), s2) && Moves(s2, Activate(pgdir), s3)
    ensures Inv(s3) && s3 == s.(procs := s.procs[d := p], run := d, cr3 := d)
  {
    hide Inv, HeapPte, PageDirActivate;
    s1 := StepTo(s, GivePool(d, p));
    s2 := StepTo(s1, Dispatch(d));
    assert IsPgdir(s2, pgdir, i);
    ActivateIs(s2, pgdir, i);
    s3 := StepTo(s2, Activate(pgdir));
  }

  lemma FirstUserPageStops(s: State, p: Pool)
    requires s.run in s.procs && s.procs[s.run] == p && s.cr3 == s.run && ProcessPool(p)
    requires Entry(s.ram, s.cr3, 32) == 0 && |FreeFrames(s.kernel)| == 0 && FreeFrames(s.user) != {}
    requires Inv(s)
    ensures MallocPage(s, PfUser, 1) == Stops(NoTableFrame)
  {
    hide Inv, RoomFor, FreeFrames, MallocPage, UserRunMapped;
    RoomAt(p.bits, 1, 0);
    OneMissing(s);
    MallocUserOwn(s, 1);
    hide MissingTables, HasTable;
    assert PageNo(p, 0) == 0x8048;
    assert |FreeFrames(s.user)| >= 1;
  }

  /** The table of the first page of the address pool. */
  lemma OneMissing(s: State)
    requires Entry(s.ram, s.cr3, 32) == 0
    ensures |MissingTables(s, 0x8048, 1)| == 1
  {
    assert !HasTable(s, 0x8048 / 1024);
    hide HasTable;
    assert MissingTables(s, 0x8048, 1) == {32};
  }

  /** From every untouched machine some run ends in a consistent state with free user frames in which the first page a
      process asks for stops the machine. */
  lemma TablesRunOut(s: State, n: nat, p: Pool) returns (ss: seq<State>, ops: seq<Op>)
    requires Untouched(s, n) && 2 <= n <= 3840 && ProcessPool(p)
    requires Inv(s)
    ensures IsRun(ss, ops) && ss[0] == s && FreeFrames(ss[|ops|].user) != {}
    ensures Permitted(ss[|ops|], Malloc(PfUser, 1)) && Exec(ss[|ops|], Malloc(PfUser, 1)) == Stops(NoTableFrame)
  {
    hide Inv, Moves, FreeFrames, Entry, HeapPte, ProcessPool, IsPgdir, MallocPage;
    var s1 := TakeAllButOne(s, n);
    var s2, d, pgdir, i := MakeLastDir(s1, n);
    var s3, s4, s5 := RunProcess(s2, d, pgdir, i, p);
    ss := [s, s1, s2, s3, s4, s5];
    ops := [Malloc(PfKernel, n - 1), CreateDir, GivePool(d, p), Dispatch(d), Activate(pgdir)];
    FirstUserPageStops(s5, p);
  }
}
