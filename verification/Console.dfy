/** lib/kernel/print.S: a 25-row window onto 80-column paper, and numbers in hex. */
module Console {
  const COLS: int := 80
  const CELLS: int := 2000
  const BLANK: int := 0x0720        // a space, grey on black
  const CR: int := 0x0d
  const LF: int := 0x0a
  const BS: int := 0x08
  const VIDEO_LIMIT: int := 0x7fff  // of the segment in gs

  type Byte = c: int | 0 <= c < 0x100

  const GREY: Byte := 0x07          // the attribute: grey on black

  /** A cell is two bytes, the character at the lower address. */
  function Cell(c: Byte, attribute: Byte): int { c + 0x100 * attribute }

  datatype Screen = Screen(cells: seq<int>, cursor: int) {
    predicate Valid() { |cells| == CELLS && 0 <= cursor < CELLS }
  }

  datatype Shown = Ok(s: Screen) | Fault

  // ----------------------------------------------------------- what put_char shows

  /** Rows 1 to 24 move up one row, and row 24 is blank. */
  function Rolled(cells: seq<int>): (r: seq<int>)
    requires |cells| == CELLS
    ensures |r| == CELLS
    ensures forall i :: 0 <= i < CELLS ==> r[i] == if i < CELLS - COLS then cells[i + COLS] else BLANK
  {
    cells[COLS..] + seq(COLS, _ => BLANK)
  }

  function NewLine(cells: seq<int>, bx: int): Screen
    requires |cells| == CELLS && 0 <= bx <= CELLS
  {
    var next := bx - bx % COLS + COLS;
    if next < CELLS then Screen(cells, next) else Screen(Rolled(cells), CELLS - COLS)
  }

  function PutChar(s: Screen, c: Byte): (r: Shown)
    requires s.Valid()
    ensures r.Fault? <==> c == 0x08 && s.cursor == 0
    ensures r.Ok? ==> r.s.Valid()
  {
    if c == CR || c == LF then Ok(NewLine(s.cells, s.cursor))
    else if c == BS then
      if s.cursor == 0 then Fault else Ok(Screen(s.cells[s.cursor - 1 := BLANK], s.cursor - 1))
    else
      var cells := s.cells[s.cursor := Cell(c, GREY)];
      if s.cursor + 1 < CELLS then Ok(Screen(cells, s.cursor + 1)) else Ok(NewLine(cells, CELLS))
  }

  function PutStr(s: Screen, text: seq<Byte>): (r: Shown)
    requires s.Valid()
    ensures r.Ok? ==> r.s.Valid()
    decreases |text|
  {
    if text == [] then Ok(s)
    else
      match PutChar(s, text[0])
      case Fault => Fault
      case Ok(s1) => PutStr(s1, text[1..])
  }

  // -------------------------------------------------------------------------- paper

  /** Paper of unbounded length: a pen that writes cell after cell, row after row, and never scrolls. */
  datatype Paper = Paper(ink: map<int, int>, pen: int)

  /** What is not written is a grey space on black. */
  function At(p: Paper, i: int): int { if i in p.ink then p.ink[i] else 0x0720 }

  /** Carriage return and line feed both begin a new row of 80; a backspace blanks the cell it goes back to. */
  function Write(p: Paper, c: Byte): Paper {
    if c == 0x0d || c == 0x0a then p.(pen := p.pen - p.pen % 80 + 80)
    else if c == 0x08 then Paper(p.ink[p.pen - 1 := 0x0720], p.pen - 1)
    else Paper(p.ink[p.pen := 0x0700 + c], p.pen + 1)
  }

  function WriteAll(p: Paper, text: seq<Byte>): Paper
    decreases |text|
  {
    if text == [] then p else WriteAll(Write(p, text[0]), text[1..])
  }

  /** The window's first row: it moves down just enough to keep the pen's row in sight. */
  function Follow(top: int, pen: int): int { if pen / 80 >= top + 25 then pen / 80 - 24 else top }

  /** The screen shows rows top .. top + 25 of the paper, with the cursor at the pen; nothing is written below. */
  ghost predicate Shows(s: Screen, p: Paper, top: int) {
    && s.Valid() && s.cursor == p.pen - top * 80
    && (forall i :: 0 <= i < 2000 ==> s.cells[i] == At(p, top * 80 + i))
    && (forall i :: i in p.ink ==> i < (top + 25) * 80)
  }

  /** Whatever is on the screen is a window onto some paper. */
  lemma SomePaper(s: Screen)
    requires s.Valid()
    ensures Shows(s, Paper(map i | 0 <= i < CELLS :: s.cells[i], s.cursor), 0)
  {
  }

  lemma NewLineShows(cells: seq<int>, bx: int, p: Paper, top: int)
    requires |cells| == CELLS && 0 <= bx < CELLS && bx == p.pen - top * COLS
    requires forall i :: 0 <= i < CELLS ==> cells[i] == At(p, top * COLS + i)
    requires forall i :: i in p.ink ==> i < (top + 25) * COLS
    ensures var q := p.(pen := p.pen - p.pen % COLS + COLS);
            Shows(NewLine(cells, bx), q, Follow(top, q.pen)) && Follow(top, q.pen) <= top + 1
  {
    var q := p.(pen := p.pen - p.pen % COLS + COLS);
    var next := bx - bx % COLS + COLS;
    assert q.pen == top * COLS + next && next % COLS == 0;
    if next < CELLS {
      assert q.pen / COLS < top + 25;
    } else {
      forall i | 0 <= i < CELLS ensures Rolled(cells)[i] == At(q, (top + 1) * COLS + i) {
        assert (top + 1) * COLS + i == top * COLS + (i + COLS);
      }
    }
  }

  /** Every character keeps the window on the paper; the window moves by at most one row, and moves exactly when the pen
      leaves its last row. */
  lemma PutCharShows(s: Screen, p: Paper, top: int, c: Byte)
    requires Shows(s, p, top) && !(c == 0x08 && s.cursor == 0)
    ensures var q := Write(p, c);
            Shows(PutChar(s, c).s, q, Follow(top, q.pen)) && top <= Follow(top, q.pen) <= top + 1
  {
    if c == CR || c == LF {
      NewLineShows(s.cells, s.cursor, p, top);
    } else if c == BS {
      assert (p.pen - 1) / COLS < top + 25;
    } else {
      var q := Write(p, c);
      var cells := s.cells[s.cursor := Cell(c, GREY)];
      forall i | 0 <= i < CELLS ensures cells[i] == At(q, top * COLS + i) {}
      if s.cursor + 1 < CELLS {
        assert q.pen / COLS < top + 25;
      } else {
        FullRow(q, top);
        NewRowShows(cells, q, top);
      }
    }
  }

  lemma FullRow(q: Paper, top: int)
    requires q.pen == (top + 25) * COLS
    ensures q.pen / COLS == top + 25 && q.pen % COLS == 0 && Follow(top, q.pen) == top + 1
  {
  }

  /** A full last row scrolls at once: the pen is already on the next row. */
  lemma NewRowShows(cells: seq<int>, q: Paper, top: int)
    requires |cells| == CELLS && q.pen == (top + 25) * COLS && forall i :: i in q.ink ==> i < (top + 25) * COLS
    requires forall i :: 0 <= i < CELLS ==> cells[i] == At(q, top * COLS + i)
    ensures Shows(NewLine(cells, CELLS), q, top + 1)
  {
    forall i | 0 <= i < CELLS ensures Rolled(cells)[i] == At(q, (top + 1) * COLS + i) {
      assert (top + 1) * COLS + i == top * COLS + (i + COLS);
    }
  }

  ghost function FollowAll(top: int, p: Paper, text: seq<Byte>): int
    decreases |text|
  {
    if text == [] then top else FollowAll(Follow(top, Write(p, text[0]).pen), Write(p, text[0]), text[1..])
  }

  /** A string from any cursor: while no backspace meets cell 0, the screen stays the window that follows the pen over
      the paper on which the string is simply written. */
  lemma {:induction false} PutStrShows(s: Screen, p: Paper, top: int, text: seq<Byte>)
    requires Shows(s, p, top) && PutStr(s, text).Ok?
    ensures Shows(PutStr(s, text).s, WriteAll(p, text), FollowAll(top, p, text))
    decreases |text|
  {
    if text != [] {
      PutCharShows(s, p, top, text[0]);
      var q := Write(p, text[0]);
      PutStrShows(PutChar(s, text[0]).s, q, Follow(top, q.pen), text[1..]);
    }
  }

  ghost predicate Plain(text: seq<Byte>) {
    forall i :: 0 <= i < |text| ==> text[i] != 0x0d && text[i] != 0x0a && text[i] != 0x08
  }

  /** A cell holds character c, grey on black: c in the byte at the lower address and 7 in the other. */
  predicate Holds(cell: int, c: Byte) { cell % 0x100 == c && cell / 0x100 == 7 }

  /** Text without control characters lies on the paper cell after cell from where the pen was. */
  lemma {:induction false} PlainTextWritten(p: Paper, text: seq<Byte>)
    requires Plain(text)
    ensures WriteAll(p, text).pen == p.pen + |text|
    ensures forall i :: 0 <= i < |text| ==> Holds(At(WriteAll(p, text), p.pen + i), text[i])
    ensures forall i :: i < p.pen || p.pen + |text| <= i ==> At(WriteAll(p, text), i) == At(p, i)
    decreases |text|
  {
    if text != [] {
      var q := Write(p, text[0]);
      PlainTextWritten(q, text[1..]);
      forall i | 0 <= i < |text| ensures Holds(At(WriteAll(p, text), p.pen + i), text[i]) {
        if i > 0 { assert Holds(At(WriteAll(q, text[1..]), q.pen + (i - 1)), text[1..][i - 1]); }
      }
    }
  }

  /** On the screen it lies cell after cell from the cursor on, if it fits; no other cell changes. */
  lemma {:induction false} PlainTextCells(s: Screen, text: seq<Byte>)
    requires s.Valid() && Plain(text) && s.cursor + |text| < 2000
    ensures PutStr(s, text).Ok? && PutStr(s, text).s.cursor == s.cursor + |text|
    ensures forall i :: 0 <= i < |text| ==> Holds(PutStr(s, text).s.cells[s.cursor + i], text[i])
    ensures forall i :: 0 <= i < 2000 && !(s.cursor <= i < s.cursor + |text|) ==>
              PutStr(s, text).s.cells[i] == s.cells[i]
    decreases |text|
  {
    if text != [] {
      var s1 := PutChar(s, text[0]).s;
      PlainTextCells(s1, text[1..]);
      forall i | 0 <= i < |text| ensures Holds(PutStr(s, text).s.cells[s.cursor + i], text[i]) {
        if i > 0 { assert Holds(PutStr(s1, text[1..]).s.cells[s1.cursor + (i - 1)], text[1..][i - 1]); }
      }
    }
  }

  /** Plain text never faults. */
  lemma {:induction false} PlainTextShown(s: Screen, text: seq<Byte>)
    requires s.Valid() && Plain(text)
    ensures PutStr(s, text).Ok?
    decreases |text|
  {
    if text != [] { PlainTextShown(PutChar(s, text[0]).s, text[1..]); }
  }

  // -------------------------------------------------------------------- hexadecimal

  const ZERO: Byte := 0x30   // '0'

  function Digit(k: int): Byte
    requires 0 <= k < 16
  {
    if k > 9 then k - 10 + 0x41 else k + ZERO
  }

  /** The number in upper-case hex, most significant digit first. */
  function HexText(n: nat): (t: seq<Byte>)
    ensures |t| >= 1
  {
    if n < 16 then [Digit(n)] else HexText(n / 16) + [Digit(n % 16)]
  }

  function DigitValue(c: Byte): int { if c >= 0x41 then c - 0x41 + 10 else c - 0x30 }

  function ParseHex(t: seq<Byte>): int {
    if t == [] then 0 else ParseHex(t[..|t| - 1]) * 16 + DigitValue(t[|t| - 1])
  }

  predicate IsHexDigit(c: Byte) { 0x30 <= c <= 0x39 || 0x41 <= c <= 0x46 }

  /** Reading the text gives the number back; every character is an upper-case hex digit, and only zero begins with
      '0'. */
  lemma {:induction false} HexTextReadsBack(n: nat)
    ensures ParseHex(HexText(n)) == n
    ensures forall i :: 0 <= i < |HexText(n)| ==> IsHexDigit(HexText(n)[i])
    ensures HexText(n)[0] == 0x30 <==> n == 0
  {
    if n < 16 {
      assert HexText(n)[..0] == [];
    } else {
      HexTextReadsBack(n / 16);
      assert HexText(n)[..|HexText(n)| - 1] == HexText(n / 16);
    }
  }

  lemma {:induction false} HexDigitsArePlain(n: nat)
    ensures Plain(HexText(n))
  {
    HexTextReadsBack(n);
  }

  /** All of put_int_buffer: d digits. */
  function Padded(n: nat, d: nat): (t: seq<Byte>)
    ensures |t| == d
  {
    if d == 0 then [] else Padded(n / 16, d - 1) + [Digit(n % 16)]
  }

  function Pow16(d: nat): nat { if d == 0 then 1 else 16 * Pow16(d - 1) }

  /** d digits hold the number. */
  predicate Fits(n: nat, d: nat) { n < Pow16(d) }

  function Zeros(k: nat): seq<Byte> { seq(k, _ => ZERO) }

  lemma {:induction false} PaddedZero(d: nat)
    ensures Padded(0, d) == Zeros(d)
  {
    if d > 0 { PaddedZero(d - 1); }
  }

  /** The buffer holds zeros and then the text. */
  lemma {:induction false} PaddedText(n: nat, d: nat)
    requires Fits(n, d) && d > 0
    ensures |HexText(n)| <= d && Padded(n, d) == Zeros(d - |HexText(n)|) + HexText(n)
  {
    if n < 16 {
      PaddedZero(d - 1);
    } else {
      PaddedText(n / 16, d - 1);
    }
  }

  /** Eight digits hold exactly the 32-bit numbers. */
  lemma EightDigits()
    ensures forall n: nat :: Fits(n, 8) <==> n < 0x1_0000_0000
  {
    assert Pow16(4) == 0x1_0000;
    assert Pow16(8) == 0x1_0000_0000;
  }
}
