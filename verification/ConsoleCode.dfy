/** The console as code: video memory and the cursor register changed in place. */
module ConsoleCode {
  import opened Console

  /** Video memory as cells. */
  ghost function Cells(bytes: seq<Byte>): (cells: seq<int>)
    requires |bytes| == 2 * CELLS
    ensures |cells| == CELLS
  {
    seq(CELLS, i requires 0 <= i < CELLS => Cell(bytes[2 * i], bytes[2 * i + 1]))
  }

  lemma CellWritten(a: seq<Byte>, b: seq<Byte>, k: int, c: Byte, attribute: Byte)
    requires |a| == 2 * CELLS && 0 <= k < CELLS && b == a[2 * k := c][2 * k + 1 := attribute]
    ensures Cells(b) == Cells(a)[k := Cell(c, attribute)]
  {
  }

  /** Video memory one row up, 160 bytes, and the last row blank. */
  lemma RowsMoved(a: seq<Byte>, b: seq<Byte>)
    requires |a| == |b| == 2 * CELLS
    requires forall k :: 0 <= k < 3840 ==> b[k] == a[k + 160]
    requires forall i :: 1920 <= i < 2000 ==> b[2 * i] == 0x20 && b[2 * i + 1] == 0x07
    ensures Cells(b) == Rolled(Cells(a))
  {
    forall i | 0 <= i < CELLS ensures Cells(b)[i] == Rolled(Cells(a))[i] {
      if i < 1920 { assert b[2 * i] == a[2 * i + 160] && b[2 * i + 1] == a[2 * i + 1 + 160]; }
    }
  }

  class Terminal {
    const video: array<Byte>   // the 4000 bytes at 0xb8000
    var cursor: int            // the CRT controller's cursor register

    constructor (video: array<Byte>, cursor: int)
      requires video.Length == 2 * CELLS && 0 <= cursor < CELLS
      ensures Valid() && Abs() == Screen(Cells(video[..]), cursor) && this.video == video
    {
      this.video, this.cursor := video, cursor;
    }

    ghost predicate Valid()
      reads this
    {
      video.Length == 2 * CELLS && 0 <= cursor < CELLS
    }

    ghost function Abs(): Screen
      requires video.Length == 2 * CELLS
      reads this, video
    {
      Screen(Cells(video[..]), cursor)
    }

    /** rep movsd: 960 double words, four bytes each, move up one row. */
    method MoveRows()
      requires video.Length == 2 * CELLS
      modifies video
      ensures forall k :: 0 <= k < 3840 ==> video[k] == old(video[k + 160])
    {
      var i := 0;
      while i < 960
        invariant 0 <= i <= 960
        invariant forall k :: 0 <= k < 4 * i ==> video[k] == old(video[k + 160])
        invariant forall k :: 4 * i <= k < 4000 ==> video[k] == old(video[k])
      {
        video[4 * i], video[4 * i + 1], video[4 * i + 2], video[4 * i + 3] :=
          video[4 * i + 160], video[4 * i + 161], video[4 * i + 162], video[4 * i + 163];
        i := i + 1;
      }
    }

    /** .cls: 80 words 0x0720 from offset 3840 on. */
    method ClearLastRow()
      requires video.Length == 2 * CELLS
      modifies video
      ensures forall k :: 0 <= k < 3840 ==> video[k] == old(video[k])
      ensures forall i :: 1920 <= i < 2000 ==> video[2 * i] == 0x20 && video[2 * i + 1] == 0x07
    {
      var ebx := 3840;
      while ebx < 4000
        invariant 3840 <= ebx <= 4000 && ebx % 2 == 0
        invariant forall k :: 0 <= k < 3840 ==> video[k] == old(video[k])
        invariant forall i :: 1920 <= i < ebx / 2 ==> video[2 * i] == 0x20 && video[2 * i + 1] == 0x07
      {
        video[ebx], video[ebx + 1] := 0x20, 0x07;
        ebx := ebx + 2;
      }
    }

    /** .roll_screen */
    method RollScreen()
      requires video.Length == 2 * CELLS
      modifies video
      ensures Cells(video[..]) == Rolled(Cells(old(video[..])))
    {
      MoveRows();
      ClearLastRow();
      RowsMoved(old(video[..]), video[..]);
    }

    /** .is_carriage_return, which is also where a full last row falls through to */
    method NextLine(bx: int)
      requires video.Length == 2 * CELLS && 0 <= bx <= CELLS
      modifies video, `cursor
      ensures Valid() && Abs() == NewLine(Cells(old(video[..])), bx)
    {
      var dx := bx % 80;
      var next := bx - dx + 80;
      if next < 2000 {
        cursor := next;
      } else {
        RollScreen();
        cursor := 1920;
      }
    }

    /** The two byte stores of a cell. */
    method Store(k: int, c: Byte, attribute: Byte)
      requires video.Length == 2 * CELLS && 0 <= k < CELLS
      modifies video
      ensures video[..] == old(video[..])[2 * k := c][2 * k + 1 := attribute]
      ensures Cells(video[..]) == Cells(old(video[..]))[k := Cell(c, attribute)]
    {
      var bx := 2 * k % 0x1_0000;
      video[bx] := c;
      bx := bx + 1;
      video[bx] := attribute;
      CellWritten(old(video[..]), video[..], k, c, attribute);
    }

    /** put_char */
    method PutChar(cl: Byte) returns (fault: bool)
      requires Valid()
      modifies video, `cursor
      ensures Valid()
      ensures match Console.PutChar(old(Abs()), cl) case Ok(s) => !fault && Abs() == s case Fault => fault
      ensures cl != 0x0d && cl != 0x0a && cl != 0x08 && old(cursor) < 1999 ==>
                && cursor == old(cursor) + 1
                && video[..] == old(video[..])[2 * old(cursor) := cl][2 * old(cursor) + 1 := 0x07]
    {
      var bx := cursor;
      fault := false;
      if cl == 0x0d || cl == 0x0a {
        NextLine(bx);
      } else if cl == 0x08 {
        bx := (bx - 1) % 0x1_0000;
        var offset := bx * 2 % 0x1_0000;
        if offset > VIDEO_LIMIT { return true; }
        Store(bx, 0x20, 0x07);
        cursor := bx;
      } else {
        Store(bx, cl, 0x07);
        bx := bx + 1;
        if bx < 2000 { cursor := bx; } else { NextLine(bx); }
      }
    }

    /** put_str: the characters before the zero byte. */
    method PutStr(text: array<Byte>, ghost len: nat) returns (fault: bool)
      requires Valid() && len < text.Length && text[len] == 0 && text != video
      requires forall i :: 0 <= i < len ==> text[i] != 0
      modifies video, `cursor
      ensures Valid()
      ensures match Console.PutStr(old(Abs()), text[..len]) case Ok(s) => !fault && Abs() == s case Fault => fault
    {
      ghost var s := Abs();
      var i := 0;
      fault := false;
      while text[i] != 0
        invariant 0 <= i <= len && Valid() && text[..] == old(text[..])
        invariant Console.PutStr(s, text[..len]) == Console.PutStr(Abs(), text[i..len])
        decreases len - i
      {
        assert text[i..len][1..] == text[i + 1..len];
        fault := PutChar(text[i]);
        if fault { return; }
        i := i + 1;
      }
    }

    /** .put_each_num */
    method PutDigits(buffer: array<Byte>, digits: nat, first: int, c: Byte, ghost left: seq<Byte>)
      requires Valid() && buffer.Length == digits + 2 && buffer != video && left != [] && left[0] == c
      requires (0 <= first < digits && left == buffer[first..digits]) || (first == digits && left == [ZERO])
      requires Console.PutStr(Abs(), left).Ok?
      modifies video, `cursor
      ensures Valid() && Console.PutStr(old(Abs()), left) == Ok(Abs())
    {
      ghost var s, rest := Abs(), left;
      var edi, cl, more := first, c, true;
      while more
        invariant Valid() && (more <==> rest != []) && (more ==> rest[0] == cl)
        invariant more ==> (0 <= edi < digits && rest == buffer[edi..digits]) || (edi == digits && rest == [ZERO])
        invariant Console.PutStr(s, left) == Console.PutStr(Abs(), rest) && Console.PutStr(s, left).Ok?
        decreases if more then digits + 1 - edi else 0
      {
        var fault := PutChar(cl);
        rest := rest[1..];
        edi := edi + 1;
        cl := buffer[edi];
        more := edi < digits;
      }
    }

    /** put_int, for any number of digits. */
    method PutInt(n: nat, digits: nat)
      requires Valid() && digits > 0 && Fits(n, digits)
      modifies video, `cursor
      ensures Valid() && Console.PutStr(old(Abs()), HexText(n)) == Ok(Abs())
      ensures old(cursor) + |HexText(n)| < 2000 ==> cursor == old(cursor) + |HexText(n)|
      ensures old(cursor) + |HexText(n)| < 2000 ==>
                forall i :: 0 <= i < |HexText(n)| ==> Holds(Abs().cells[old(cursor) + i], HexText(n)[i])
    {
      hide Console.PutStr, HexText, Padded, Fits;
      ghost var s := Abs();
      var buffer := new Byte[digits + 2];   // put_int_buffer and what follows it
      FillBuffer(buffer, n, digits);
      HexDigitsArePlain(n);
      PlainTextShown(s, HexText(n));
      if s.cursor + |HexText(n)| < 2000 { PlainTextCells(s, HexText(n)); }
      var edi, cl := SkipZeros(buffer, n, digits);
      PutDigits(buffer, digits, edi, cl, HexText(n));
    }
  }

  /** The digit loop of put_int. */
  method FillBuffer(buffer: array<Byte>, n: nat, digits: nat)
    requires buffer.Length == digits + 2 && Fits(n, digits)
    modifies buffer
    ensures buffer[..digits] == Padded(n, digits)
  {
    var eax, edi, ecx := n, digits - 1, digits;
    while ecx > 0
      invariant edi == ecx - 1 && 0 <= ecx <= digits && 0 <= eax
      invariant Padded(n, digits) == Padded(eax, ecx) + buffer[ecx..digits]
      decreases ecx
    {
      var edx := eax % 16;
      var dl: Byte := if edx > 9 then edx - 10 + 0x41 else edx + 0x30;
      buffer[edi] := dl;
      edi := edi - 1;
      eax := eax / 16;
      ecx := ecx - 1;
    }
  }

  /** The prefix loop of put_int: the first character to print and its place. */
  method SkipZeros(buffer: array<Byte>, n: nat, digits: nat) returns (edi: int, cl: Byte)
    requires buffer.Length == digits + 2 && digits > 0 && Fits(n, digits) && buffer[..digits] == Padded(n, digits)
    ensures cl == HexText(n)[0] && 0 <= edi <= digits
    ensures if edi < digits then HexText(n) == buffer[edi..digits] else HexText(n) == [ZERO]
  {
    PaddedText(n, digits);
    HexTextReadsBack(n);
    ghost var k := digits - |HexText(n)|;
    assert forall i :: 0 <= i < digits ==> buffer[i] == buffer[..digits][i];
    assert forall i :: 0 <= i < digits ==> buffer[i] == if i < k then ZERO else HexText(n)[i - k];
    edi := 0;
    while true
      invariant 0 <= edi <= digits && (n != 0 ==> edi <= k) && forall i :: 0 <= i < edi ==> buffer[i] == ZERO
      decreases digits - edi
    {
      if edi == digits { return edi, ZERO; }
      cl := buffer[edi];
      edi := edi + 1;
      if cl != ZERO {
        assert edi - 1 == k && buffer[k..digits] == HexText(n);
        return edi - 1, cl;
      }
    }
  }
}
