/** lib/kernel/bitmap.c: allocation bits packed in bytes, and the first-fit search. */
module Bitmap {
  // --------------------------------------------------------------- bits in a byte

  /** BITMAP_MASK << k */
  function Mask(k: nat): bv8
    requires k < 8
  {
    1 << k
  }

  predicate BitOf(b: bv8, k: nat)
    requires k < 8
  {
    b & Mask(k) != 0
  }

  lemma SetBit(b: bv8, k: nat, j: nat)
    requires k < 8 && j < 8
    ensures BitOf(b | Mask(k), j) == (j == k || BitOf(b, j))
    ensures BitOf(b & !Mask(k), j) == (j != k && BitOf(b, j))
  {
    assert Mask(k) & Mask(j) == if j == k then Mask(k) else 0;
    assert Mask(k) != 0;
  }

  lemma NotFull(b: bv8)
    requires forall k: nat :: k < 8 ==> BitOf(b, k)
    ensures b == 0xff
  {
    assert BitOf(b, 0) && BitOf(b, 1) && BitOf(b, 2) && BitOf(b, 3);
    assert BitOf(b, 4) && BitOf(b, 5) && BitOf(b, 6) && BitOf(b, 7);
  }

  lemma SomeClear(b: bv8)
    requires b != 0xff
    ensures exists k: nat :: k < 8 && !BitOf(b, k)
  {
    if forall k: nat :: k < 8 ==> BitOf(b, k) { NotFull(b); }
  }

  lemma BitIs(b: bv8, k: nat)
    requires k < 8
    ensures BitOf(b, k) == (Mask(k) & b != 0)
  {
  }

  function Bits(bytes: seq<bv8>): (s: seq<bool>)
    ensures |s| == 8 * |bytes|
  {
    seq(8 * |bytes|, i requires 0 <= i < 8 * |bytes| => BitOf(bytes[i / 8], i % 8))
  }

  lemma BitIsShift(b: bv8, k: nat)
    requires k < 8
    ensures BitOf(b, k) <==> (b >> k) & 1 == 1
  {
  }

  /** Bit i of the map is bit i % 8 of byte i / 8, counted from the least significant. */
  lemma BitOfMap(bytes: seq<bv8>, i: nat)
    requires i < 8 * |bytes|
    ensures Bits(bytes)[i] <==> (bytes[i / 8] >> (i % 8)) & 1 == 1
  {
    BitIsShift(bytes[i / 8], i % 8);
  }

  function WithBit(b: bv8, k: nat, value: bool): bv8
    requires k < 8
  {
    if value then b | Mask(k) else b & !Mask(k)
  }

  lemma WithBitIs(b: bv8, k: nat)
    requires k < 8
    ensures WithBit(b, k, true) == b | Mask(k) && WithBit(b, k, false) == b & !Mask(k)
  {
  }

  lemma WithBitAt(b: bv8, k: nat, value: bool, j: nat)
    requires k < 8 && j < 8
    ensures BitOf(WithBit(b, k, value), j) == if j == k then value else BitOf(b, j)
  {
    SetBit(b, k, j);
  }

  lemma BitsUpdateAt(bytes: seq<bv8>, k: nat, odd: nat, value: bool, i: nat)
    requires k < |bytes| && odd < 8 && i < 8 * |bytes|
    ensures BitOf(bytes[k := WithBit(bytes[k], odd, value)][i / 8], i % 8)
         == if i == 8 * k + odd then value else BitOf(bytes[i / 8], i % 8)
  {
    hide WithBit, BitOf;
    if i / 8 == k { WithBitAt(bytes[k], odd, value, i % 8); }
  }

  lemma BitsUpdate(bytes: seq<bv8>, k: nat, odd: nat, value: bool)
    requires k < |bytes| && odd < 8
    ensures Bits(bytes[k := WithBit(bytes[k], odd, value)]) == Bits(bytes)[8 * k + odd := value]
  {
    hide WithBit, BitOf;
    var x, y := Bits(bytes[k := WithBit(bytes[k], odd, value)]), Bits(bytes)[8 * k + odd := value];
    forall i | 0 <= i < |x| ensures x[i] == y[i] { BitsUpdateAt(bytes, k, odd, value, i); }
  }

  lemma ByteBits(bytes: seq<bv8>, k: nat)
    requires k < |bytes|
    ensures forall odd: nat :: odd < 8 ==> Bits(bytes)[8 * k + odd] == BitOf(bytes[k], odd)
  {
    hide BitOf;
    forall odd: nat | odd < 8 ensures Bits(bytes)[8 * k + odd] == BitOf(bytes[k], odd) {
      assert (8 * k + odd) / 8 == k && (8 * k + odd) % 8 == odd;
    }
  }

  lemma FullBytes(bytes: seq<bv8>, n: nat)
    requires n <= |bytes| && forall j :: 0 <= j < n ==> bytes[j] == 0xff
    ensures forall i :: 0 <= i < 8 * n ==> Bits(bytes)[i]
  {
    forall i | 0 <= i < 8 * n ensures Bits(bytes)[i] { assert BitOf(0xff, i % 8); }
  }

  // ------------------------------------------------------- what a search should find

  /** The cnt bits from s on are clear and below `limit`. */
  ghost predicate Run(bits: seq<bool>, limit: int, cnt: nat, s: int)
    requires limit <= |bits|
  {
    0 <= s && s + cnt <= limit && forall i :: s <= i < s + cnt ==> !bits[i]
  }

  /** The smallest start of a run, or -1. */
  ghost function FirstFit(bits: seq<bool>, limit: int, cnt: nat): (r: int)
    requires limit <= |bits|
    ensures r == -1 || Run(bits, limit, cnt, r)
    ensures forall s :: Run(bits, limit, cnt, s) ==> 0 <= r <= s
  {
    FirstFitFrom(bits, limit, cnt, 0)
  }

  ghost function FirstFitFrom(bits: seq<bool>, limit: int, cnt: nat, from: nat): (r: int)
    requires limit <= |bits|
    ensures r == -1 || (from <= r && Run(bits, limit, cnt, r))
    ensures forall s :: from <= s && Run(bits, limit, cnt, s) ==> 0 <= r <= s
    decreases limit - from
  {
    if from + cnt > limit then -1
    else if Run(bits, limit, cnt, from) then from
    else if from < limit then FirstFitFrom(bits, limit, cnt, from + 1)
    else -1
  }

  lemma FirstFitIs(bits: seq<bool>, limit: int, cnt: nat, r: int)
    requires limit <= |bits|
    requires r == -1 || Run(bits, limit, cnt, r)
    requires forall s :: 0 <= s && (r == -1 || s < r) ==> !Run(bits, limit, cnt, s)
    ensures FirstFit(bits, limit, cnt) == r
  {
    var f := FirstFit(bits, limit, cnt);
    assert r == -1 || Run(bits, limit, cnt, r);
  }

  /** The one way a search that also looks at the guard bit goes wrong: a run that ends on the guard bit. */
  ghost predicate Overruns(bits: seq<bool>, n: nat, cnt: nat)
    requires n < |bits|
  {
    && !bits[n] && cnt >= 2 && n + 1 >= cnt
    && (forall i :: n + 1 - cnt <= i < n ==> !bits[i])
    && FirstFit(bits, n, cnt) == -1
  }

  lemma RunShrinks(bits: seq<bool>, n: nat, cnt: nat, s: int)
    requires n < |bits|
    ensures Run(bits, n + 1, cnt, s) && s + cnt <= n ==> Run(bits, n, cnt, s)
  {
  }

  /** Looking one bit too far gives the right answer unless the guard bit is clear and completes a run that the map
      itself does not hold; so a set guard bit makes every search right. */
  lemma GuardDecides(bits: seq<bool>, n: nat, cnt: nat)
    requires n < |bits| && cnt >= 2
    ensures FirstFit(bits, n + 1, cnt) == FirstFit(bits, n, cnt) <==> !Overruns(bits, n, cnt)
    ensures Overruns(bits, n, cnt) ==> FirstFit(bits, n + 1, cnt) == n + 1 - cnt
    ensures bits[n] ==> !Overruns(bits, n, cnt)
  {
    var far, near := FirstFit(bits, n + 1, cnt), FirstFit(bits, n, cnt);
    RunShrinks(bits, n, cnt, far);
    if Overruns(bits, n, cnt) {
      assert Run(bits, n + 1, cnt, n + 1 - cnt);
      assert far == n + 1 - cnt && near == -1;
    } else if near != -1 {
      assert Run(bits, n + 1, cnt, near);
    }
  }

  /** A free bit in front of a clear guard bit and behind a used one: a search for two bits runs over the end. */
  lemma OverrunExample()
    ensures Overruns([true, false, false], 2, 2)
    ensures FirstFit([true, false, false], 3, 2) == 1 && FirstFit([true, false, false], 2, 2) == -1
  {
    var bits := [true, false, false];
    forall s ensures !Run(bits, 2, 2, s) { assert s == 0 ==> bits[0]; }
    GuardDecides(bits, 2, 2);
  }

  /** What a search for no bits finds: the bit behind the first used bit that follows a free one, guard bit included. */
  ghost predicate BehindUsed(bits: seq<bool>, n: nat, r: int)
    requires n < |bits|
  {
    var free := FirstFit(bits, n, 1);
    if free == -1 || forall i :: free < i <= n ==> !bits[i] then r == -1
    else free + 1 < r <= n + 1 && bits[r - 1] && forall i :: free < i < r - 1 ==> !bits[i]
  }

  // ----------------------------------------------------------------------- code

  class BitMap {
    const len: nat          // btmp_bytes_len
    const bits: array<bv8>  // len bytes and the byte behind them, which bitmap_scan reads

    ghost predicate Valid()
    {
      bits.Length == len + 1 && 8 * len + 8 < 0x8000_0000
    }

    /** The bits as the program sees them, guard byte included. */
    ghost function View(): (s: seq<bool>)
      requires Valid()
      reads bits
      ensures |s| == 8 * len + 8
    {
      Bits(bits[..])
    }

    constructor (len: nat, bits: array<bv8>)
      requires bits.Length == len + 1 && 8 * len + 8 < 0x8000_0000
      ensures Valid() && this.len == len && this.bits == bits
    {
      this.len, this.bits := len, bits;
    }

    /** bitmap_init clears the map but not the guard byte. */
    method Init()
      requires Valid()
      modifies bits
      ensures forall i :: 0 <= i < 8 * len ==> !View()[i]
      ensures forall i :: 8 * len <= i < 8 * len + 8 ==> View()[i] == old(View())[i]
    {
      for i := 0 to len
        invariant forall j :: 0 <= j < i ==> bits[j] == 0
        invariant bits[len] == old(bits[len])
      {
        bits[i] := 0;
      }
    }

    method Test(bitIdx: nat) returns (r: bool)
      requires Valid() && bitIdx < 8 * len + 8
      ensures r == View()[bitIdx]
    {
      var byteIndex, bitOdd := bitIdx / 8, bitIdx % 8;
      r := bits[byteIndex] & Mask(bitOdd) != 0;
    }

    method Set(bitIdx: nat, value: bool)
      requires Valid() && bitIdx < 8 * len + 8
      modifies bits
      ensures View() == old(View())[bitIdx := value]
    {
      hide Bits, Mask, BitOf, WithBit;
      var byteIdx, bitOdd := bitIdx / 8, bitIdx % 8;
      BitsUpdate(bits[..], byteIdx, bitOdd, value);
      SetInByte(byteIdx, bitOdd, value);
    }

    method SetInByte(byteIdx: nat, bitOdd: nat, value: bool)
      requires byteIdx < bits.Length && bitOdd < 8
      modifies bits
      ensures bits[..] == old(bits[..])[byteIdx := WithBit(old(bits[byteIdx]), bitOdd, value)]
    {
      WithBitIs(bits[byteIdx], bitOdd);
      hide Mask, WithBit;
      if value {
        bits[byteIdx] := bits[byteIdx] | Mask(bitOdd);
      } else {
        bits[byteIdx] := bits[byteIdx] & !Mask(bitOdd);
      }
    }

    /** The first byte with a clear bit, or len. */
    method FirstFreeByte() returns (idxByte: nat)
      requires Valid()
      ensures idxByte <= len && (idxByte < len ==> bits[idxByte] != 0xff)
      ensures forall i :: 0 <= i < 8 * idxByte ==> View()[i]
    {
      idxByte := 0;
      while bits[idxByte] == 0xff && idxByte < len
        invariant 0 <= idxByte <= len
        invariant forall j :: 0 <= j < idxByte ==> bits[j] == 0xff
        decreases len - idxByte
      {
        idxByte := idxByte + 1;
      }
      FullBytes(bits[..], idxByte);
    }

    /** The first clear bit of byte idxByte, which has one, as a bit number of the map. */
    method FirstFreeBit(idxByte: nat) returns (start: nat)
      requires Valid() && idxByte < len && bits[idxByte] != 0xff
      ensures 8 * idxByte <= start < 8 * idxByte + 8 && !View()[start]
      ensures forall i :: 8 * idxByte <= i < start ==> View()[i]
    {
      hide Bits, Mask, BitOf;
      ghost var b := bits[idxByte];
      SomeClear(b);
      ByteBits(bits[..], idxByte);
      var idxBit := 0;
      BitIs(b, 0);
      while Mask(idxBit) & bits[idxByte] != 0
        invariant 0 <= idxBit < 8 && BitOf(b, idxBit) == (Mask(idxBit) & b != 0)
        invariant forall k: nat :: k < idxBit ==> BitOf(b, k)
        invariant exists k: nat :: idxBit <= k < 8 && !BitOf(b, k)
        decreases 8 - idxBit
      {
        idxBit := idxBit + 1;
        BitIs(b, idxBit);
      }
      start := idxByte * 8 + idxBit;
      forall i | 8 * idxByte <= i < start ensures View()[i] { assert BitOf(b, i - 8 * idxByte); }
    }

    /** bitmap_scan. A search for one bit stays inside the map; a longer one also looks at the guard. */
    method Scan(cnt: nat) returns (r: int)
      requires Valid()
      ensures cnt >= 1 ==> r == FirstFit(View(), if cnt == 1 then 8 * len else 8 * len + 1, cnt)
      ensures cnt == 0 ==> BehindUsed(View(), 8 * len, r)
    {
      hide Bits, Mask, BitOf, FirstFit, FirstFitFrom, BehindUsed;
      var idxByte := FirstFreeByte();
      ghost var v, limit := View(), if cnt == 1 then 8 * len else 8 * len + 1;
      if idxByte == len {
        NoFit(v, limit, cnt, 8 * len);
        return -1;
      }
      var start := FirstFreeBit(idxByte);
      OneFit(v, 8 * len, start);
      if cnt == 1 { return start; }
      NoRunBefore(v, limit, cnt, start);
      var bitLeft := len * 8 - start;
      var nextBit := start + 1;
      var count := 1;
      assert Scanned(v, limit, cnt, start, nextBit, count);
      hide Scanned;
      while bitLeft > 0
        invariant 0 <= bitLeft && nextBit + bitLeft == 8 * len + 1
        invariant Scanned(v, limit, cnt, start, nextBit, count)
        decreases bitLeft
      {
        bitLeft := bitLeft - 1;
        var busy := Test(nextBit);
        ScannedNext(v, limit, cnt, start, nextBit, count);
        count := if busy then 0 else count + 1;
        if count == cnt {
          r := nextBit - cnt + 1;
          return r;
        }
        nextBit := nextBit + 1;
      }
      ScannedAll(v, limit, cnt, start, nextBit, count);
      return -1;
    }
  }

  /** What the loop of bitmap_scan knows in front of bit `next`: the `count` bits before it are clear, and no run that
      starts earlier was overlooked. */
  ghost predicate Scanned(bits: seq<bool>, limit: int, cnt: nat, start: nat, next: nat, count: int) {
    && start < next <= limit <= |bits| && 0 <= count <= next && count != cnt
    && (forall i :: next - count <= i < next ==> !bits[i])
    && (cnt >= 1 ==> count < cnt && forall s :: 0 <= s < next - count ==> !Run(bits, limit, cnt, s))
    && (cnt == 0 ==> forall i :: start < i < next ==> !bits[i])
  }

  /** One turn of the loop: it goes on, or has found the answer. */
  lemma ScannedNext(bits: seq<bool>, limit: int, cnt: nat, start: nat, next: nat, count: int)
    requires Scanned(bits, limit, cnt, start, next, count) && next < limit
    requires cnt != 1 && FirstFit(bits, limit - 1, 1) == start
    ensures var c, r := if bits[next] then 0 else count + 1, next - cnt + 1;
      && (c != cnt ==> Scanned(bits, limit, cnt, start, next + 1, c))
      && (c == cnt && cnt >= 1 ==> r == FirstFit(bits, limit, cnt))
      && (c == cnt && cnt == 0 ==> BehindUsed(bits, limit - 1, r))
  {
    hide FirstFit;
    var c, r := if bits[next] then 0 else count + 1, next - cnt + 1;
    if c == cnt && cnt >= 1 { FirstFitIs(bits, limit, cnt, r); }
    if bits[next] { BlockedBy(bits, limit, cnt, next); }
  }

  lemma ScannedAll(bits: seq<bool>, limit: int, cnt: nat, start: nat, next: nat, count: int)
    requires Scanned(bits, limit, cnt, start, next, count) && next == limit
    requires cnt != 1 && FirstFit(bits, limit - 1, 1) == start
    ensures cnt >= 1 ==> FirstFit(bits, limit, cnt) == -1
    ensures cnt == 0 ==> BehindUsed(bits, limit - 1, -1)
  {
    hide FirstFit;
    if cnt >= 1 { FirstFitIs(bits, limit, cnt, -1); }
  }

  /** A used bit is in no run. */
  lemma BlockedBy(bits: seq<bool>, limit: int, cnt: nat, b: nat)
    requires limit <= |bits| && b < limit && bits[b]
    ensures forall s :: b - cnt < s <= b ==> !Run(bits, limit, cnt, s)
  {
  }

  lemma OneFit(bits: seq<bool>, n: nat, start: nat)
    requires start < n <= |bits| && !bits[start] && forall i :: 0 <= i < start ==> bits[i]
    ensures FirstFit(bits, n, 1) == start
  {
    NoRunBefore(bits, n, 1, start);
    FirstFitIs(bits, n, 1, start);
  }

  /** Nothing is found in a full map; the guard bit alone is too short for a longer search. */
  lemma NoFit(bits: seq<bool>, limit: int, cnt: nat, n: nat)
    requires n < |bits| && limit == (if cnt == 1 then n else n + 1) && forall i :: 0 <= i < n ==> bits[i]
    ensures cnt >= 1 ==> FirstFit(bits, limit, cnt) == -1
    ensures cnt == 0 ==> BehindUsed(bits, n, -1)
  {
    if cnt >= 1 {
      NoRunBefore(bits, limit, cnt, n);
      FirstFitIs(bits, limit, cnt, -1);
    } else {
      NoRunBefore(bits, n, 1, n);
      FirstFitIs(bits, n, 1, -1);
    }
  }

  lemma NoRunBefore(bits: seq<bool>, limit: int, cnt: nat, start: nat)
    requires limit <= |bits| && start <= |bits| && forall i :: 0 <= i < start ==> bits[i]
    ensures cnt >= 1 ==> forall s :: 0 <= s < start ==> !Run(bits, limit, cnt, s)
  {
    if cnt >= 1 {
      forall s | 0 <= s < start ensures !Run(bits, limit, cnt, s) { assert bits[s]; }
    }
  }
}
