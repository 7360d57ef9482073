/** setup_page and mem_pool_init: the first page tables and the first books. */
module MemoryBoot {
  import opened Basics
  import opened Paging
  import opened Bitmap
  import opened MemoryModel
  import opened MemoryInvariants
  import opened MemoryCode
  import PoolLayout

  const BOOT_TABLE: int := 0x10_1000

  // ----------------------------------------------------------------------- setup_page

  predicate Word(x: int) { 0 <= x < TOP }

  /** Byte k of a word holds this many times its value. */
  function Weight(k: nat): int
    requires k < 4
  {
    if k == 0 then 1 else if k == 1 then 0x100 else if k == 2 then 0x1_0000 else 0x100_0000
  }

  /** mov byte [..+k], 0 */
  function ClearByte(w: int, k: nat): int
    requires k < 4
  {
    w - w / Weight(k) % 0x100 * Weight(k)
  }

  function LowBytesCleared(w: int, k: nat): int
    requires k <= 4
  {
    if k == 0 then w else ClearByte(LowBytesCleared(w, k - 1), k - 1)
  }

  lemma WeightDivides(q: int, k: nat)
    requires k < 4
    ensures q * Weight(k) / Weight(k) == q
  {
  }

  lemma NextByteZero(q: int, weight: int)
    ensures q * weight - q % 0x100 * weight == q / 0x100 * (0x100 * weight)
  {
    assert q == q / 0x100 * 0x100 + q % 0x100;
  }

  /** Clearing one more byte. */
  lemma NextByteCleared(w: int, k: nat, q: int)
    requires k < 4 && q == w / Weight(k) && LowBytesCleared(w, k) == q * Weight(k)
    ensures LowBytesCleared(w, k + 1) == q / 0x100 * (0x100 * Weight(k))
  {
    WeightDivides(q, k);
    NextByteZero(q, Weight(k));
    hide Weight;
  }

  lemma AllBytesCleared(w: int)
    requires Word(w)
    ensures LowBytesCleared(w, 4) == 0
  {
    var q1, q2, q3 := w / 0x100, w / 0x1_0000, w / 0x100_0000;
    assert q2 == q1 / 0x100 && q3 == q2 / 0x100 && 0 <= q3 < 0x100;
    NextByteCleared(w, 0, w);
    NextByteCleared(w, 1, q1);
    NextByteCleared(w, 2, q2);
    NextByteCleared(w, 3, q3);
  }

  lemma ByteCleared(w: int, k: nat)
    requires Word(w) && k < 4
    ensures LowBytesCleared(w, 0) == w && LowBytesCleared(w, 4) == 0
    ensures LowBytesCleared(w, k + 1) == ClearByte(LowBytesCleared(w, k), k)
  {
    AllBytesCleared(w);
  }

  /** Entry e of the boot directory: the frame and the flags 7. */
  function BootEntry(e: int): int {
    if e == 0 then 0x10_1007
    else if e < 768 then 0
    else if e < 1023 then 0x10_1007 + (e - 768) * 0x1000
    else 0x10_0007
  }

  /** The directory maps itself and the kernel's 255 page tables, the first of them twice; that table maps the first
      megabyte to itself. */
  ghost predicate BootPages(ram: seq<int>) {
    && (forall e :: 0 <= e < 1024 ==> Entry(ram, 0x10_0000, e) == BootEntry(e))
    && (forall k :: 0 <= k < 256 ==> Entry(ram, 0x10_1000, k) == k * 0x1000 + 7)
  }

  /** After the first n words and k bytes of the next. */
  ghost predicate ClearedUpTo(ram: seq<int>, now: seq<int>, n: int, k: nat)
    requires k < 4
  {
    && |now| == |ram|
    && (forall i :: 0 <= i < |ram| && i != BOOT_DIR / 4 + n ==>
          now[i] == if BOOT_DIR / 4 <= i < BOOT_DIR / 4 + n then 0 else ram[i])
    && (0 <= BOOT_DIR / 4 + n < |ram| ==> now[BOOT_DIR / 4 + n] == LowBytesCleared(ram[BOOT_DIR / 4 + n], k))
  }

  lemma NextByte(ram: seq<int>, now: seq<int>, n: int, k: nat)
    requires k < 4 && ClearedUpTo(ram, now, n, k) && 0 <= n
    requires BOOT_DIR / 4 + n + 1 < |ram| && Word(ram[BOOT_DIR / 4 + n])
    ensures var w := BOOT_DIR / 4 + n;
            var next := now[w := ClearByte(now[w], k)];
            if k < 3 then ClearedUpTo(ram, next, n, k + 1) else ClearedUpTo(ram, next, n + 1, 0)
  {
    ByteCleared(ram[BOOT_DIR / 4 + n], k);
    ByteCleared(ram[BOOT_DIR / 4 + n], 0);
    hide ClearByte;
  }

  /** The byte loop of setup_page. */
  method ClearDirectory(mem: array<int>)
    requires mem.Length >= 0x20_0000 / 4
    requires forall i :: BOOT_DIR / 4 <= i < BOOT_DIR / 4 + 1024 ==> Word(mem[i])
    modifies mem
    ensures forall i :: 0 <= i < mem.Length ==>
              mem[i] == if BOOT_DIR / 4 <= i < BOOT_DIR / 4 + 1024 then 0 else old(mem[i])
  {
    var esi := 0;
    while esi < 4096
      invariant 0 <= esi <= 4096 && ClearedUpTo(old(mem[..]), mem[..], esi / 4, esi % 4)
    {
      NextByte(old(mem[..]), mem[..], esi / 4, esi % 4);
      hide ClearedUpTo, ClearByte;
      var w := BOOT_DIR / 4 + esi / 4;
      mem[w] := ClearByte(mem[w], esi % 4);
      esi := esi + 1;
    }
  }

  method SetupPage(mem: array<int>)
    requires mem.Length >= 0x20_0000 / 4
    requires forall i :: BOOT_DIR / 4 <= i < BOOT_DIR / 4 + 1024 ==> Word(mem[i])
    modifies mem
    ensures BootPages(mem[..])
    ensures forall i :: 0 <= i < mem.Length && !(BOOT_DIR / 4 <= i < BOOT_TABLE / 4 + 256) ==> mem[i] == old(mem[i])
    ensures forall i :: BOOT_TABLE / 4 + 256 <= i < mem.Length ==> mem[i] == old(mem[i])
  {
    var dir, table := BOOT_DIR / 4, BOOT_TABLE / 4;
    ClearDirectory(mem);
    mem[dir] := BOOT_TABLE + FLAGS;
    mem[dir + 768] := BOOT_TABLE + FLAGS;
    mem[dir + 1023] := BOOT_DIR + FLAGS;
    var edx, esi := FLAGS, 0;
    while esi < 256
      invariant 0 <= esi <= 256 && edx == esi * PAGE + FLAGS
      invariant forall k :: 0 <= k < esi ==> mem[table + k] == k * PAGE + FLAGS
      invariant forall i :: table + esi <= i < mem.Length || 0 <= i < dir ==> mem[i] == old(mem[i])
      invariant mem[dir] == BOOT_TABLE + FLAGS && mem[dir + 768] == BOOT_TABLE + FLAGS
      invariant mem[dir + 1023] == BOOT_DIR + FLAGS
      invariant forall i :: dir < i < dir + 1023 && i != dir + 768 ==> mem[i] == 0
    {
      mem[table + esi] := edx;
      edx, esi := edx + 4096, esi + 1;
    }
    var eax := BOOT_DIR + 0x2000 + FLAGS;
    esi := 769;
    while esi < 769 + 254
      invariant 769 <= esi <= 1023 && eax == KernelTable(esi) + FLAGS
      invariant forall k :: 0 <= k < 256 ==> mem[table + k] == k * PAGE + FLAGS
      invariant forall i :: table + 256 <= i < mem.Length || 0 <= i < dir ==> mem[i] == old(mem[i])
      invariant mem[dir + 1023] == BOOT_DIR + FLAGS
      invariant forall i :: dir <= i < dir + esi ==> mem[i] == BootEntry(i - dir)
      invariant forall i :: dir + esi <= i < dir + 1023 ==> mem[i] == 0
    {
      mem[dir + esi] := eax;
      esi, eax := esi + 1, eax + 0x1000;
    }
    forall e | 0 <= e < 1024 ensures Entry(mem[..], BOOT_DIR, e) == BootEntry(e) {}
  }

  // -------------------------------------------------------------------- mem_pool_init

  /** The books mem_pool_init leaves: nothing is taken. */
  ghost predicate FreshBooks(s: State, allMem: int) {
    var l := PoolLayout.MemPoolInit(allMem);
    && s.cr3 == BOOT_DIR && s.run == BOOT_DIR && s.dirs == {BOOT_DIR}
    && s.procs == map[] && s.owner == map[] && s.uowner == map[]
    && s.kernel.start == l.kernel.phyStart && |s.kernel.bits| == 8 * l.kernel.bytesLen + 8
    && s.user.start == l.user.phyStart && |s.user.bits| == 8 * l.user.bytesLen + 8
    && |s.heap| == 8 * l.vaddrBytesLen + 8
    && (forall b :: 0 <= b < |s.kernel.bits| - 8 ==> !s.kernel.bits[b])
    && (forall b :: 0 <= b < |s.user.bits| - 8 ==> !s.user.bits[b])
    && (forall b :: 0 <= b < |s.heap| - 8 ==> !s.heap[b])
  }

  /** A region with every bit of its map clear; the guard byte is whatever memory held. */
  method NewRegion(start: int, bytesLen: nat) returns (r: Region)
    requires 8 * bytesLen + 8 < 0x8000_0000
    ensures fresh(r) && r.Valid() && fresh(r.bitmap) && fresh(r.bitmap.bits) && r.start == start
    ensures |r.Abs().bits| == 8 * bytesLen + 8 && forall b :: 0 <= b < 8 * bytesLen ==> !r.Abs().bits[b]
  {
    var bits := new bv8[bytesLen + 1];
    var bitmap := new BitMap(bytesLen, bits);
    bitmap.Init();
    r := new Region(start, bitmap);
  }

  lemma LayoutBounds(allMem: int)
    requires 0 <= allMem < TOP
    ensures var l := PoolLayout.MemPoolInit(allMem);
            0 <= l.kernel.bytesLen <= 8191 && 0 <= l.user.bytesLen <= 8191 && l.vaddrBytesLen == l.kernel.bytesLen
  {
  }

  /** mem_pool_init, with its 32-bit and 16-bit variables. */
  method MemPoolInit(allMem: int) returns (kernelPool: Region, userPool: Region, kernelVaddr: Region)
    requires 0 <= allMem < TOP
    ensures fresh(kernelPool) && fresh(kernelPool.bitmap) && fresh(kernelPool.bitmap.bits) && kernelPool.Valid()
    ensures fresh(userPool) && fresh(userPool.bitmap) && fresh(userPool.bitmap.bits) && userPool.Valid()
    ensures fresh(kernelVaddr) && fresh(kernelVaddr.bitmap) && fresh(kernelVaddr.bitmap.bits) && kernelVaddr.Valid()
    ensures kernelPool.bitmap.bits != userPool.bitmap.bits && kernelVaddr.start == K_HEAP_START
    ensures kernelVaddr.bitmap.bits !in {kernelPool.bitmap.bits, userPool.bitmap.bits}
    ensures FreshBooks(State([], BOOT_DIR, BOOT_DIR, kernelPool.Abs(), userPool.Abs(), kernelVaddr.Abs().bits, map[],
                             {BOOT_DIR}, map[], map[]), allMem)
  {
    var pageTableSize := PAGE * 256;
    var usedMem := 0x10_0000 + pageTableSize;
    var freeMem := (allMem - usedMem) % 0x1_0000_0000;
    var allFreePages := freeMem / PAGE % 0x1_0000;
    var kernelFreePages := allFreePages / 2;
    var userFreePages := (allFreePages - kernelFreePages) % 0x1_0000;
    var kbmLength, ubmLength := kernelFreePages / 8, userFreePages / 8;
    var kpStart := usedMem;
    var upStart := kpStart + kernelFreePages * PAGE;
    ghost var l := PoolLayout.MemPoolInit(allMem);
    assert kpStart == l.kernel.phyStart && upStart == l.user.phyStart;
    assert kbmLength == l.kernel.bytesLen && ubmLength == l.user.bytesLen;
    LayoutBounds(allMem);
    hide PoolLayout.MemPoolInit, Region.Abs;
    kernelPool := NewRegion(kpStart, kbmLength);
    userPool := NewRegion(upStart, ubmLength);
    kernelVaddr := NewRegion(K_HEAP_START, kbmLength);
  }

  lemma FreshSizes(s: State, allMem: int)
    requires 0x20_0000 <= allMem < TOP && allMem % PAGE == 0 && 4 * |s.ram| == allMem && FreshBooks(s, allMem)
    ensures Sizes(s)
  {
    PoolLayout.PoolsFitExactly(allMem);
    PoolLayout.BitmapsFit(allMem);
    PoolLayout.AlignedStarts(allMem);
    PoolLayout.BytesWithinPages(allMem);
    FirstFrame(allMem);
    hide PoolLayout.MemPoolInit;
  }

  lemma FirstFrame(allMem: int)
    ensures PoolLayout.MemPoolInit(allMem).kernel.phyStart == 0x20_0000
  {
  }

  /** The first page tables and the first books are consistent, given that the entries setup_page does not write are
      not present. */
  lemma BootInv(s: State, allMem: int)
    requires 0x20_0000 <= allMem < TOP && allMem % PAGE == 0 && 4 * |s.ram| == allMem && FreshBooks(s, allMem)
    requires BootPages(s.ram)
    requires forall i :: 0 <= i < HEAP_ENTRIES ==> !Present(HeapPte(s.ram, i))
    ensures Inv(s)
  {
    FreshSizes(s, allMem);
    hide HeapPte, Entry;
  }

  /** The machine as the loader and mem_init leave it. */
  method Boot(mem: array<int>, allMem: int) returns (m: Machine)
    requires 0x20_0000 <= allMem < TOP && allMem % PAGE == 0 && 4 * mem.Length == allMem
    requires forall i :: 0 <= i < mem.Length ==> Word(mem[i])
    requires forall i :: 0 <= i < HEAP_ENTRIES ==> !Present(HeapPte(mem[..], i))
    modifies mem
    ensures m.mem == mem && m.Valid() && Inv(m.Abs()) && FreshBooks(m.Abs(), allMem)
  {
    hide HeapPte, BootPages, FreshBooks, Inv;
    ghost var before := mem[..];
    SetupPage(mem);
    LaterEntries(before, mem[..]);
    ghost var ram := mem[..];
    var kernelPool, userPool, kernelVaddr := MemPoolInit(allMem);
    assert mem[..] == ram;
    m := new Machine(mem, kernelPool, userPool, kernelVaddr);
    SameFresh(State([], BOOT_DIR, BOOT_DIR, kernelPool.Abs(), userPool.Abs(), kernelVaddr.Abs().bits, map[], {BOOT_DIR},
                    map[], map[]), m.Abs(), allMem);
    BootInv(m.Abs(), allMem);
  }

  lemma SameFresh(s: State, s': State, allMem: int)
    requires FreshBooks(s, allMem) && s' == s.(ram := s'.ram)
    ensures FreshBooks(s', allMem)
  {
  }

  /** setup_page writes no entry of a heap page. */
  lemma LaterEntries(before: seq<int>, after: seq<int>)
    requires |after| == |before|
    requires forall i :: BOOT_TABLE / 4 + 256 <= i < |after| ==> after[i] == before[i]
    requires forall i :: 0 <= i < HEAP_ENTRIES ==> !Present(HeapPte(before, i))
    ensures forall i :: 0 <= i < HEAP_ENTRIES ==> !Present(HeapPte(after, i))
  {
    forall i | 0 <= i < HEAP_ENTRIES ensures !Present(HeapPte(after, i)) {
      assert HeapTable(i) / 4 + HeapIdx(i) >= BOOT_TABLE / 4 + 256;
      assert !Present(HeapPte(before, i));
    }
  }
}
