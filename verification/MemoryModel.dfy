/** kernel/memory.c and create_page_dir as functions on physical memory, the pools and the address pools.
    Memory operations are sequential. `run` is the directory of the running thread, the boot directory for a kernel
    thread, and selects the address pool; `cr3` is the directory that is active, and selects the page tables. */
module MemoryModel {
  import opened Basics
  import opened Paging
  import opened Bitmap

  const BOOT_DIR: int := 0x10_0000
  const USER_TOP: int := 0xc000_0000
  const FLAGS: int := 7                  // PG_US_U | PG_RW_W | PG_P_1

  /** The bits include the guard byte behind the map. */
  datatype Pool = Pool(start: int, bits: seq<bool>)

  /** History: what a kernel-pool frame was taken for, and which entry of which table refers to a user-pool frame. */
  datatype Owner = Heap(i: int) | Table(dir: int, e: int)
  datatype UserPage = UserPage(dir: int, e: int, t: int, table: int)

  /** `heap` is kernel_vaddr's bitmap, `procs` the user address pools by page directory, `dirs` every page directory
      made so far; `owner` and `uowner` are history. */
  datatype State = State(ram: seq<int>, cr3: int, run: int, kernel: Pool, user: Pool, heap: seq<bool>,
                         procs: map<int, Pool>, dirs: set<int>, owner: map<int, Owner>, uowner: map<int, UserPage>)

  datatype Kind = PfKernel | PfUser

  datatype Stop = CountAssert | UserVaddrAssert | PteBusy | NoTableFrame | PageFault
                | IndexAssert | OutsidePool | WrongPool

  datatype MapResult = Mapped(s: State) | NoFrame(s: State) | MapStops(why: Stop)
  datatype Result = Got(s: State, v: int) | Null(s: State) | Stops(why: Stop)

  // -------------------------------------------------------------------- bitmaps

  /** The number of bits bitmap_scan looks at. */
  function Limit(bits: seq<bool>, cnt: nat): int { if cnt == 1 then |bits| - 8 else |bits| - 7 }

  function SetRun(bits: seq<bool>, from: int, cnt: nat): (r: seq<bool>)
    requires 0 <= from && from + cnt <= |bits|
    ensures |r| == |bits|
    ensures forall i :: 0 <= i < |bits| ==> r[i] == (bits[i] || from <= i < from + cnt)
  {
    if cnt == 0 then bits else SetRun(bits, from, cnt - 1)[from + cnt - 1 := true]
  }

  /** palloc: the first free frame of the pool, or -1. */
  ghost function FreeBit(p: Pool): (b: int)
    ensures |p.bits| >= 8 && b != -1 ==> 0 <= b < |p.bits| - 8 && !p.bits[b]
  {
    if |p.bits| < 8 then -1 else FirstFit(p.bits, |p.bits| - 8, 1)
  }

  /** It is the lowest one, and there is none only if every frame is used. */
  lemma FirstFree(p: Pool)
    requires |p.bits| >= 8
    ensures FreeBit(p) == -1 <==> forall b :: 0 <= b < |p.bits| - 8 ==> p.bits[b]
    ensures FreeBit(p) != -1 ==>
              0 <= FreeBit(p) < |p.bits| - 8 && !p.bits[FreeBit(p)] && forall b :: 0 <= b < FreeBit(p) ==> p.bits[b]
  {
    var n := |p.bits| - 8;
    forall b | 0 <= b < n && !p.bits[b] ensures 0 <= FreeBit(p) <= b { assert Run(p.bits, n, 1, b); }
  }

  function FrameAt(p: Pool, b: int): int { p.start + b * PAGE }

  function Take(p: Pool, b: int): Pool
    requires 0 <= b < |p.bits|
  {
    p.(bits := p.bits[b := true])
  }

  // ---------------------------------------------------------------- page tables

  function ZeroPage(ram: seq<int>, f: int): (r: seq<int>)
    requires 0 <= f && f % PAGE == 0 && f + PAGE <= 4 * |ram|
    ensures |r| == |ram|
    ensures forall i :: 0 <= i < |ram| ==> r[i] == if f / 4 <= i < f / 4 + 1024 then 0 else ram[i]
  {
    ram[..f / 4] + seq(1024, _ => 0) + ram[f / 4 + 1024..]
  }

  predicate GoodFrame(ram: seq<int>, f: int) { 0 <= f && f % PAGE == 0 && f + PAGE <= 4 * |ram| }

  /** Both entries of v in directory dir lie in memory. */
  predicate Reachable(ram: seq<int>, dir: int, v: int) {
    && InRam(ram, PdeAt(dir, v))
    && (Present(ram[PdeAt(dir, v) / 4]) ==> InRam(ram, PteAt(ram[PdeAt(dir, v) / 4], v)))
  }

  /** page_table_add(v, frame), for a frame just taken. */
  ghost function PageTableAdd(s: State, v: int, frame: int): (r: MapResult)
    requires Reachable(s.ram, s.cr3, v)
    ensures r.Mapped? ==> |r.s.ram| == |s.ram|
  {
    var pdeAt := PdeAt(s.cr3, v);
    var pde := s.ram[pdeAt / 4];
    if Present(pde) then
      var pteAt := PteAt(pde, v);
      if Present(s.ram[pteAt / 4]) then MapStops(PteBusy)
      else Mapped(s.(ram := s.ram[pteAt / 4 := frame + FLAGS]))
    else
      var b := FreeBit(s.kernel);
      if b == -1 || |s.kernel.bits| < 8 || !GoodFrame(s.ram, FrameAt(s.kernel, b)) then MapStops(NoTableFrame)
      else
        var f := FrameAt(s.kernel, b);
        var ram1 := ZeroPage(s.ram[pdeAt / 4 := f + FLAGS], f);
        Mapped(s.(ram := ram1[f / 4 + PteIdx(v) := frame + FLAGS], kernel := Take(s.kernel, b),
                  owner := s.owner[f := Table(s.cr3, PdeIdx(v))]))
  }

  /** One turn of the loop in malloc_page. */
  ghost function MapOne(s: State, pf: Kind, v: int): MapResult
    requires Reachable(s.ram, s.cr3, v)
  {
    var p := if pf.PfKernel? then s.kernel else s.user;
    var b := FreeBit(p);
    if b == -1 || |p.bits| < 8 then NoFrame(s)
    else
      var f := FrameAt(p, b);
      if pf.PfKernel?
      then PageTableAdd(s.(kernel := Take(p, b), owner := s.owner[f := Heap((v - K_HEAP_START) / PAGE)]), v, f)
      else
        match PageTableAdd(s.(user := Take(p, b)), v, f)
        case Mapped(s1) =>
          var u := UserPage(s.cr3, PdeIdx(v), PteIdx(v), FrameOf(s1.ram[PdeAt(s.cr3, v) / 4]));
          Mapped(s1.(uowner := s1.uowner[f := u]))
        case other => other
  }

  ghost function MapPages(s: State, pf: Kind, v: int, cnt: nat): MapResult
    decreases cnt
  {
    if cnt == 0 then Mapped(s)
    else if !Reachable(s.ram, s.cr3, v) then MapStops(PageFault)
    else
      match MapOne(s, pf, v)
      case Mapped(s1) => MapPages(s1, pf, v + PAGE, cnt - 1)
      case other => other
  }

  /** Where an address pool has room for cnt pages, or -1. */
  ghost function RoomFor(bits: seq<bool>, cnt: nat): (idx: int)
    ensures idx != -1 ==> 0 <= idx && idx + cnt <= Limit(bits, cnt) && forall i :: idx <= i < idx + cnt ==> !bits[i]
  {
    if |bits| < 8 then -1 else FirstFit(bits, Limit(bits, cnt), cnt)
  }

  /** cnt bits from b on are clear; a search for several bits also looks at the bit behind the map. */
  ghost predicate Room(bits: seq<bool>, cnt: nat, b: int) {
    && 0 <= b && b + cnt <= |bits| - (if cnt == 1 then 8 else 7)
    && forall i :: b <= i < b + cnt ==> 0 <= i < |bits| && !bits[i]
  }

  /** The room is the lowest one, and there is none only if there is no room anywhere. */
  lemma FirstRoom(bits: seq<bool>, cnt: nat)
    requires |bits| >= 8 && cnt > 0
    ensures RoomFor(bits, cnt) == -1 <==> forall b :: !Room(bits, cnt, b)
    ensures RoomFor(bits, cnt) != -1 ==> Room(bits, cnt, RoomFor(bits, cnt))
    ensures forall b :: Room(bits, cnt, b) ==> RoomFor(bits, cnt) <= b
  {
    var r := RoomFor(bits, cnt);
    forall b | Room(bits, cnt, b) ensures 0 <= r <= b { assert Run(bits, Limit(bits, cnt), cnt, b); }
    assert r != -1 ==> Room(bits, cnt, r);
  }

  function HeapTaken(s: State, idx: int, cnt: nat): State
    requires 0 <= idx && idx + cnt <= |s.heap|
  {
    s.(heap := SetRun(s.heap, idx, cnt))
  }

  function UserTaken(s: State, idx: int, cnt: nat): State
    requires s.run in s.procs && 0 <= idx && idx + cnt <= |s.procs[s.run].bits|
  {
    var p := s.procs[s.run];
    s.(procs := s.procs[s.run := p.(bits := SetRun(p.bits, idx, cnt))])
  }

  /** vaddr_get(pf, cnt). A thread without an address pool has zeroes there: a map of no bytes at address 0, whose first
      byte bitmap_scan reads all the same. */
  ghost function VaddrGet(s: State, pf: Kind, cnt: nat): Result {
    if pf.PfKernel? then
      var idx := RoomFor(s.heap, cnt);
      if idx == -1 then Null(s) else Got(HeapTaken(s, idx, cnt), K_HEAP_START + idx * PAGE)
    else if s.run !in s.procs then
      if Walk(s.ram, s.cr3, 0) == None then Stops(PageFault) else Null(s)
    else
      var p := s.procs[s.run];
      var idx := RoomFor(p.bits, cnt);
      if idx == -1 then Null(s)
      else if p.start + idx * PAGE >= USER_TOP - PAGE then Stops(UserVaddrAssert)
      else Got(UserTaken(s, idx, cnt), p.start + idx * PAGE)
  }

  function AsResult(r: MapResult, v: int): Result {
    match r
    case Mapped(s2) => Got(s2, v)
    case NoFrame(s2) => Null(s2)
    case MapStops(why) => Stops(why)
  }

  /** malloc_page(pf, cnt): addresses from the address pool, then a frame and an entry for each page. Nothing is rolled
      back when frames run out. */
  ghost function MallocPage(s: State, pf: Kind, cnt: nat): Result {
    if !(0 < cnt < 3840) then Stops(CountAssert)
    else
      match VaddrGet(s, pf, cnt)
      case Got(s1, v) => AsResult(MapPages(s1, pf, v, cnt), v)
      case other => other
  }

  /** The bit of v in an address pool that begins at `start`; the subtraction has 32 bits. */
  function BitIdx(v: int, start: int): int { (v - start) % TOP / PAGE }

  ghost function MapHere(s: State, pf: Kind, v: int): Result {
    if !Reachable(s.ram, s.cr3, v) then Stops(PageFault) else AsResult(MapOne(s, pf, v), v)
  }

  /** get_a_page(pf, v): processes get user pages, kernel threads kernel pages. A bit outside the address pool would be
      set in foreign memory. */
  ghost function GetAPage(s: State, pf: Kind, v: int): Result {
    if pf.PfUser? && s.run != BOOT_DIR then
      if s.run !in s.procs then Stops(if BitIdx(v, 0) <= 0 then IndexAssert else OutsidePool)
      else
        var j := BitIdx(v, s.procs[s.run].start);
        if j <= 0 then Stops(IndexAssert)
        else if j >= |s.procs[s.run].bits| - 8 then Stops(OutsidePool)
        else MapHere(UserTaken(s, j, 1), pf, v)
    else if pf.PfKernel? && s.run == BOOT_DIR then
      var j := BitIdx(v, K_HEAP_START);
      if j <= 0 then Stops(IndexAssert)
      else if j >= |s.heap| - 8 then Stops(OutsidePool)
      else MapHere(HeapTaken(s, j, 1), pf, v)
    else Stops(WrongPool)
  }

  // ------------------------------------------------------------- address spaces

  /** What create_page_dir makes of frame f: a cleared page, entries 768 to 1023 of the active directory, and itself as
      last entry. */
  function NewDir(ram: seq<int>, f: int, dir: int): (r: seq<int>)
    requires GoodFrame(ram, f) && GoodFrame(ram, dir)
    ensures |r| == |ram|
    ensures forall i :: 0 <= i < |ram| ==>
              r[i] == if !(f / 4 <= i < f / 4 + 1024) then ram[i]
                      else if i < f / 4 + 768 then 0
                      else if i < f / 4 + 1023 then ram[dir / 4 + (i - f / 4)]
                      else f + FLAGS
  {
    ram[..f / 4] + seq(768, _ => 0) + ram[dir / 4 + 768..dir / 4 + 1023] + [f + FLAGS] + ram[f / 4 + 1024..]
  }

  /** create_page_dir */
  ghost function CreatePageDir(s: State): Result {
    match MallocPage(s, PfKernel, 1)
    case Got(s1, v) =>
      var f := Walk(s1.ram, s1.cr3, v);
      if f == None || !GoodFrame(s1.ram, f.value) || !GoodFrame(s1.ram, s1.cr3) then Stops(PageFault)
      else Got(s1.(ram := NewDir(s1.ram, f.value, s1.cr3), dirs := s1.dirs + {f.value}), v)
    case other => other
  }

  /** get_a_page is only for the pages of a process to a process, and for heap pages to a kernel thread; to a process
      without an address pool no page belongs. */
  lemma WrongPage(s: State, pf: Kind, v: int)
    ensures pf.PfUser? && s.run == 0x10_0000 ==> GetAPage(s, pf, v) == Stops(WrongPool)
    ensures pf.PfKernel? && s.run != 0x10_0000 ==> GetAPage(s, pf, v) == Stops(WrongPool)
    ensures pf.PfUser? && s.run != 0x10_0000 && s.run !in s.procs && Address(v) ==>
              GetAPage(s, pf, v) == Stops(if v < 0x1000 then IndexAssert else OutsidePool)
  {
    assert Address(v) ==> v % TOP == v;
  }

  /** page_dir_activate: a kernel thread has no directory of its own (0). */
  function PageDirActivate(s: State, pgdir: int): Result {
    if pgdir == 0 then Got(s.(cr3 := BOOT_DIR), 0)
    else
      var pte := Walk(s.ram, s.cr3, PtePtr(pgdir));
      if pte == None || !InRam(s.ram, pte.value) then Stops(PageFault)
      else Got(s.(cr3 := AddrV2P(s.ram[pte.value / 4], pgdir)), 0)
  }
}
