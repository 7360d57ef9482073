/** mem_pool_init: how physical memory and the bitmaps that manage it are laid out. */
module PoolLayout {
  import opened Basics

  const TABLES_END: int := 0x20_0000        // low megabyte, boot directory and 255 boot tables
  const BITMAP_BASE: int := 0xc009_a000     // MEM_BITMAP_BASE

  datatype PoolInit = PoolInit(phyStart: int, pages: int, bits: int, bytesLen: int)

  datatype Layout = Layout(kernel: PoolInit, user: PoolInit, vaddrBits: int, vaddrBytesLen: int)

  /** The computation of mem_pool_init, with its 32-bit difference and its 16-bit page counts. */
  function MemPoolInit(allMem: int): Layout {
    var pageTableSize := PAGE * 256;
    var usedMem := 0x10_0000 + pageTableSize;
    var freeMem := (allMem - usedMem) % 0x1_0000_0000;
    var allFreePages := freeMem / PAGE % 0x1_0000;
    var kernelFreePages := allFreePages / 2;
    var userFreePages := (allFreePages - kernelFreePages) % 0x1_0000;
    var kbmLength := kernelFreePages / 8;
    var ubmLength := userFreePages / 8;
    var kpStart := usedMem;
    var upStart := kpStart + kernelFreePages * PAGE;
    Layout(PoolInit(kpStart, kernelFreePages, BITMAP_BASE, kbmLength),
           PoolInit(upStart, userFreePages, BITMAP_BASE + kbmLength, ubmLength),
           BITMAP_BASE + kbmLength + ubmLength, kbmLength)
  }

  /** The frame that bit b of a pool's bitmap stands for. */
  function FrameOfBit(p: PoolInit, b: int): int { p.phyStart + b * PAGE }

  ghost predicate FramesInside(p: PoolInit, lo: int, hi: int) {
    forall b :: 0 <= b < 8 * p.bytesLen ==> lo <= FrameOfBit(p, b) && FrameOfBit(p, b) + PAGE <= hi
  }

  ghost predicate PoolsFit(allMem: int) {
    var l := MemPoolInit(allMem);
    && TABLES_END <= l.kernel.phyStart
    && l.kernel.phyStart + l.kernel.pages * PAGE == l.user.phyStart
    && l.user.phyStart + l.user.pages * PAGE <= allMem
  }

  /** The pools halve the free pages and use all of them, as far as 16 bits count them; each bitmap has one byte for
      eight whole pages of its pool, and the heap one for eight pages of the kernel pool. */
  lemma PoolsHalve(allMem: int)
    requires 0x20_0000 <= allMem < 0x1_0000_0000
    ensures var l, free := MemPoolInit(allMem), (allMem - 0x20_0000) / 0x1000;
      && l.kernel.pages + l.user.pages == free % 0x1_0000
      && l.kernel.pages <= l.user.pages <= l.kernel.pages + 1
      && l.kernel.phyStart == 0x20_0000 && l.user.phyStart == 0x20_0000 + l.kernel.pages * 0x1000
      && 8 * l.kernel.bytesLen <= l.kernel.pages < 8 * l.kernel.bytesLen + 8
      && 8 * l.user.bytesLen <= l.user.pages < 8 * l.user.bytesLen + 8
      && l.vaddrBytesLen == l.kernel.bytesLen
  {
    assert (allMem - 0x20_0000) % 0x1_0000_0000 == allMem - 0x20_0000;
  }

  /** Below 2 MB the difference wraps. */
  lemma TooSmall(allMem: int)
    requires 0 <= allMem < 0x20_0000 && allMem % PAGE == 0
    ensures var l := MemPoolInit(allMem);
      && l.kernel.pages + l.user.pages == 65024 + allMem / PAGE
      && l.user.phyStart == TABLES_END + l.kernel.pages * PAGE
  {
    var m := allMem / PAGE;
    assert allMem == m * 4096 && 0 <= m < 512;
    assert (allMem - 0x20_0000) % 0x1_0000_0000 == allMem - 0x20_0000 + 0x1_0000_0000;
    assert allMem - 0x20_0000 + 0x1_0000_0000 == (0x10_0000 - 512 + m) * 4096;
  }

  /** For every page-aligned memory size the two pools lie between the boot page tables and the end of memory, side by
      side, exactly when there are at least 2 MB. */
  lemma PoolsFitExactly(allMem: int)
    requires 0 <= allMem < 0x1_0000_0000 && allMem % PAGE == 0
    ensures PoolsFit(allMem) <==> allMem >= 0x20_0000
  {
    hide MemPoolInit;
    if allMem < 0x20_0000 {
      TooSmall(allMem);
    } else {
      PoolsHalve(allMem);
      KernelStart(allMem);
    }
  }

  lemma KernelStart(allMem: int)
    ensures MemPoolInit(allMem).kernel.phyStart == TABLES_END
  {
  }

  lemma BytesWithinPages(allMem: int)
    ensures var l := MemPoolInit(allMem);
            0 <= 8 * l.kernel.bytesLen <= l.kernel.pages && 0 <= 8 * l.user.bytesLen <= l.user.pages
  {
  }

  lemma BitInside(p: PoolInit)
    requires 0 <= 8 * p.bytesLen <= p.pages
    ensures FramesInside(p, p.phyStart, p.phyStart + p.pages * PAGE)
  {
  }

  lemma AlignedFrames(p: PoolInit)
    requires p.phyStart % PAGE == 0
    ensures forall b :: FrameOfBit(p, b) % PAGE == 0
  {
    forall b ensures FrameOfBit(p, b) % PAGE == 0 {}
  }

  lemma AlignedStarts(allMem: int)
    ensures var l := MemPoolInit(allMem); l.kernel.phyStart % PAGE == 0 && l.user.phyStart % PAGE == 0
  {
    var pages := MemPoolInit(allMem).kernel.pages;
    assert (TABLES_END + pages * PAGE) % PAGE == 0;
  }

  /** Every bit of a bitmap stands for a page-aligned frame inside its own pool. */
  lemma BitsStayInPool(allMem: int)
    requires 0x20_0000 <= allMem < 0x1_0000_0000 && allMem % PAGE == 0
    ensures var l := MemPoolInit(allMem);
      && FramesInside(l.kernel, TABLES_END, l.user.phyStart)
      && FramesInside(l.user, l.user.phyStart, allMem)
      && (forall b :: FrameOfBit(l.kernel, b) % PAGE == 0) && (forall b :: FrameOfBit(l.user, b) % PAGE == 0)
  {
    var l := MemPoolInit(allMem);
    hide MemPoolInit, FrameOfBit;
    PoolsFitExactly(allMem);
    BytesWithinPages(allMem);
    AlignedStarts(allMem);
    BitInside(l.kernel);
    BitInside(l.user);
    AlignedFrames(l.kernel);
    AlignedFrames(l.user);
  }

  /** The three bitmaps follow one another without overlap and end, guard byte included, below the PCB of main, because
      the page count has 16 bits; the heap addresses they manage end below the self-map. */
  lemma BitmapsFit(allMem: int)
    requires 0x20_0000 <= allMem < 0x1_0000_0000
    ensures var l := MemPoolInit(allMem);
      && l.kernel.bits == 0xc009_a000
      && l.kernel.bits + l.kernel.bytesLen == l.user.bits
      && l.user.bits + l.user.bytesLen == l.vaddrBits
      && l.vaddrBits + l.vaddrBytesLen + 1 <= 0xc009_e000
      && 8 * l.vaddrBytesLen <= 8 * 4095
      && 0xc010_0000 + 0x1000 * (8 * l.vaddrBytesLen + 1) <= 0xffc0_0000
  {
  }
}
