/**
 * The kernel's text console (kernel.cpp): `printf` writes characters into the
 * 80x25 VGA text buffer, one 16-bit cell per character (attribute in the high
 * byte, character code in the low byte), keeping a cursor (x, y) between
 * calls; `printNum` formats a signed 32-bit integer in decimal through it.
 */
module Console {
  import opened CInt

  const Columns := 80
  const Rows := 25
  const CellCount := 2000

  /** The backspace character, written `'\b'` in C. */
  const BS: char := '\U{0008}'

  /** A C `char` holds one byte; codes 128..255 are negative (GCC's `char` is signed on x86). */
  predicate IsByte(ch: char) {
    ch as int < 256
  }

  predicate AllBytes(str: seq<char>) {
    forall i :: 0 <= i < |str| ==> IsByte(str[i])
  }

  /**
   * The 16-bit value `str[i]` contributes to `cell | str[i]`: the char is promoted
   * to `int` with sign extension, so a negative char fills the high byte with ones.
   */
  function Promote(ch: char): bv16
    requires IsByte(ch)
  {
    if ch as int < 128 then (ch as int) as bv16 else ((ch as int) as bv16) | 0xFF00
  }

  /**
   * `(cell & 0xFF00) | ch`: the cell after writing character ch. Its low byte is
   * the character; its attribute byte is kept for codes 0..127, and is forced to
   * 0xFF by sign extension for codes 128..255.
   */
  function WriteCell(cell: bv16, ch: char): (r: bv16)
    requires IsByte(ch)
    ensures r & 0xFF == (ch as int) as bv16
    ensures ch as int < 128 ==> r & 0xFF00 == cell & 0xFF00
    ensures ch as int >= 128 ==> r & 0xFF00 == 0xFF00
  {
    (cell & 0xFF00) | Promote(ch)
  }

  /** The console as a value: the cells of video memory and the cursor. */
  datatype Screen = Screen(cells: seq<bv16>, x: int, y: int)

  /** Between characters the cursor is always on the screen. */
  predicate ValidScreen(s: Screen) {
    |s.cells| == CellCount && 0 <= s.x < Columns && 0 <= s.y < Rows
  }

  /** Inside one step of the loop the cursor may stand one past the last column or row. */
  predicate InStep(s: Screen) {
    |s.cells| == CellCount && 0 <= s.x <= Columns && 0 <= s.y <= Rows
  }

  /** Every cell rewritten to a blank, attributes kept. */
  function Blanked(cells: seq<bv16>): (r: seq<bv16>)
    ensures |r| == |cells|
  {
    seq(|cells|, i requires 0 <= i < |cells| => WriteCell(cells[i], ' '))
  }

  /** The `switch` on one character: newline, carriage return, backspace, or a printed cell. */
  function Switch(s: Screen, ch: char): (r: Screen)
    requires ValidScreen(s) && IsByte(ch)
    ensures InStep(r) && (r.x == Columns ==> r.y < Rows)
  {
    var here := Columns * s.y + s.x;
    if ch == '\n' then s.(x := 0, y := s.y + 1)
    else if ch == '\r' then s.(x := 0)
    else if ch == BS then
      if s.x > 0 then s.(cells := s.cells[here - 1 := WriteCell(s.cells[here - 1], ' ')], x := s.x - 1)
      else s
    else s.(cells := s.cells[here := WriteCell(s.cells[here], ch)], x := s.x + 1)
  }

  /** After the switch: wrap at the right margin, then clear everything when the bottom is passed. */
  function Settle(s: Screen): (r: Screen)
    requires InStep(s) && (s.x == Columns ==> s.y < Rows)
    ensures ValidScreen(r)
  {
    var t := if s.x >= Columns then s.(x := 0, y := s.y + 1) else s;
    if t.y >= Rows then Screen(Blanked(t.cells), 0, 0) else t
  }

  /** One iteration of `printf`'s character loop, for any character but the terminator. */
  function PutChar(s: Screen, ch: char): (r: Screen)
    requires ValidScreen(s) && IsByte(ch) && ch != '\0'
    ensures ValidScreen(r)
  {
    Settle(Switch(s, ch))
  }

  /** `printf(str)`: every character up to the first '\0' (or the end of str). */
  function PrintText(s: Screen, str: seq<char>): (r: Screen)
    requires ValidScreen(s) && AllBytes(str)
    ensures ValidScreen(r)
    decreases |str|
  {
    if str == [] || str[0] == '\0' then s
    else PrintText(PutChar(s, str[0]), str[1..])
  }

  predicate NoTerminator(str: seq<char>) {
    forall i :: 0 <= i < |str| ==> str[i] != '\0'
  }

  /** Printing t then u is printing t + u, as long as t holds no terminator. */
  lemma {:induction false} PrintTextAppend(s: Screen, t: seq<char>, u: seq<char>)
    requires ValidScreen(s) && AllBytes(t) && AllBytes(u) && NoTerminator(t)
    ensures PrintText(s, t + u) == PrintText(PrintText(s, t), u)
    decreases |t|
  {
    if t != [] {
      assert (t + u)[0] == t[0] && (t + u)[1..] == t[1..] + u;
      PrintTextAppend(PutChar(s, t[0]), t[1..], u);
    } else {
      assert t + u == u;
    }
  }

  // ---------------------------------------------------------------------
  // Properties of one character step

  /** '\n' moves to the start of the next line and '\r' to the start of this one; no cell is written. */
  lemma NewlineAndReturn(s: Screen)
    requires ValidScreen(s)
    ensures s.y + 1 < Rows ==> PutChar(s, '\n') == Screen(s.cells, 0, s.y + 1)
    ensures s.y + 1 == Rows ==> PutChar(s, '\n') == Screen(Blanked(s.cells), 0, 0)
    ensures PutChar(s, '\r') == Screen(s.cells, 0, s.y)
  {
  }

  /**
   * Backspace steps back one column and blanks the cell it lands on; at the left
   * margin it does nothing (it never wraps to the previous line).
   */
  lemma Backspace(s: Screen)
    requires ValidScreen(s)
    ensures s.x == 0 ==> PutChar(s, BS) == s
    ensures s.x > 0 ==>
      var here := Columns * s.y + s.x - 1;
      PutChar(s, BS) == Screen(s.cells[here := WriteCell(s.cells[here], ' ')], s.x - 1, s.y)
  {
  }

  /**
   * Any other character writes exactly the cell under the cursor and advances
   * the cursor, wrapping to the next line at column 80 and clearing the whole
   * screen once the last line is passed.
   */
  lemma OrdinaryCharacter(s: Screen, ch: char)
    requires ValidScreen(s) && IsByte(ch) && ch !in {'\0', '\n', '\r', BS}
    ensures var here := Columns * s.y + s.x;
      var written := s.cells[here := WriteCell(s.cells[here], ch)];
      PutChar(s, ch) ==
        if s.x + 1 < Columns then Screen(written, s.x + 1, s.y)
        else if s.y + 1 < Rows then Screen(written, 0, s.y + 1)
        else Screen(Blanked(written), 0, 0)
  {
  }

  /** Only the cell under the cursor can change, unless the screen is cleared. */
  lemma OnlyCursorCellChanges(s: Screen, ch: char, i: int)
    requires ValidScreen(s) && IsByte(ch) && ch !in {'\0', '\n', '\r', BS}
    requires 0 <= i < CellCount && i != Columns * s.y + s.x
    requires !(s.x == Columns - 1 && s.y == Rows - 1)
    ensures PutChar(s, ch).cells[i] == s.cells[i]
  {
  }

  /**
   * No step ever changes an attribute byte when the character is in 0..127:
   * not the written cell, not the backspaced cell, not the cleared screen.
   */
  lemma AttributesKept(s: Screen, ch: char, i: int)
    requires ValidScreen(s) && IsByte(ch) && ch != '\0' && ch as int < 128
    requires 0 <= i < CellCount
    ensures PutChar(s, ch).cells[i] & 0xFF00 == s.cells[i] & 0xFF00
  {
    var t := Switch(s, ch);
    SwitchKeepsAttributes(s, ch, i);
    SettleCells(t);
    var r := Settle(t);
    assert PutChar(s, ch) == r;
    if r.cells != t.cells {
      BlankedKeepsAttribute(t.cells, i);
    }
  }

  lemma BlankedKeepsAttribute(cells: seq<bv16>, i: int)
    requires 0 <= i < |cells|
    ensures Blanked(cells)[i] & 0xFF00 == cells[i] & 0xFF00
  {
    assert Blanked(cells)[i] == WriteCell(cells[i], ' ');
  }

  lemma SettleCells(t: Screen)
    requires InStep(t) && (t.x == Columns ==> t.y < Rows)
    ensures Settle(t).cells == t.cells || Settle(t).cells == Blanked(t.cells)
  {
  }

  lemma SwitchKeepsAttributes(s: Screen, ch: char, i: int)
    requires ValidScreen(s) && IsByte(ch) && ch as int < 128
    requires 0 <= i < CellCount
    ensures Switch(s, ch).cells[i] & 0xFF00 == s.cells[i] & 0xFF00
  {
  }

  /** A negative char (code 128..255) sets the written cell's attribute to 0xFF. */
  lemma NegativeCharOverwritesAttribute(s: Screen, ch: char)
    requires ValidScreen(s) && IsByte(ch) && ch as int >= 128
    requires !(s.x == Columns - 1 && s.y == Rows - 1)
    ensures PutChar(s, ch).cells[Columns * s.y + s.x] == 0xFF00 | (ch as int) as bv16
  {
    var c := s.cells[Columns * s.y + s.x];
    assert WriteCell(c, ch) == 0xFF00 | (ch as int) as bv16;
  }

  /**
   * Printing stops at the first '\0': nothing after it is shown.
   */
  lemma {:induction false} StopsAtTerminator(s: Screen, t: seq<char>, u: seq<char>)
    requires ValidScreen(s) && AllBytes(t) && AllBytes(u) && NoTerminator(t)
    ensures PrintText(s, t + ['\0'] + u) == PrintText(s, t)
  {
    PrintTextAppend(s, t, ['\0'] + u);
    assert t + ['\0'] + u == t + (['\0'] + u);
    assert PrintText(s, t) == PrintText(s, t + []) by {
      PrintTextAppend(s, t, []);
      assert t + [] == t;
    }
  }

  // ---------------------------------------------------------------------
  // Decimal formatting

  function DigitChar(d: int): (ch: char)
    requires 0 <= d < 10
  {
    ('0' as int + d) as char
  }

  predicate IsDigit(ch: char) {
    '0' <= ch <= '9'
  }

  /** The decimal digits of n, most significant first; no digit at all for 0. */
  function Digits(n: nat): (r: seq<char>)
    ensures forall i :: 0 <= i < |r| ==> IsDigit(r[i])
    ensures n > 0 ==> |r| > 0 && r[0] != '0'
    ensures n == 0 ==> r == []
  {
    if n == 0 then [] else Digits(n / 10) + [DigitChar(n % 10)]
  }

  function Pow10(k: nat): nat {
    if k == 0 then 1 else 10 * Pow10(k - 1)
  }

  /** A number below 10^k has at most k digits. */
  lemma {:induction false} DigitsLength(n: nat, k: nat)
    requires n < Pow10(k)
    ensures |Digits(n)| <= k
  {
    if n > 0 {
      assert k > 0;
      DigitsLength(n / 10, k - 1);
    }
  }

  /** What `printNum` emits: "0", or an optional '-' and the digits of the magnitude. */
  function DecimalText(num: int): string {
    if num == 0 then "0"
    else if num < 0 then "-" + Digits(-num)
    else Digits(num)
  }

  /**
   * The shape of `printNum`'s output: "0" for zero; otherwise a '-' exactly when
   * the number is negative, followed by 1 to 10 digits with no leading zero.
   */
  lemma DecimalTextShape(num: int)
    requires Negatable(num)
    ensures var t := DecimalText(num);
      var digits := if num < 0 then t[1..] else t;
      && (num == 0 ==> t == "0")
      && (num != 0 ==> 1 <= |digits| <= 10 && digits[0] != '0' && digits == Digits(Abs(num)))
      && (|t| > 0 && t[0] == '-' <==> num < 0)
      && (forall i :: 0 <= i < |digits| ==> IsDigit(digits[i]))
      && AllBytes(t) && NoTerminator(t)
  {
    assert Pow10(10) == 10000000000;
    DigitsLength(Abs(num), 10);
    var t := DecimalText(num);
    if num < 0 {
      assert t[1..] == Digits(-num);
    }
  }

  /** The reverse of a sequence: the order `printNum` emits its digit buffer in. */
  function Reversed(s: seq<char>): (r: seq<char>)
    ensures |r| == |s|
  {
    if s == [] then [] else [s[|s| - 1]] + Reversed(s[..|s| - 1])
  }

  lemma {:induction false} ReversedAt(s: seq<char>, k: int)
    requires 0 <= k < |s|
    ensures Reversed(s)[k] == s[|s| - 1 - k]
  {
    if k > 0 {
      ReversedAt(s[..|s| - 1], k - 1);
    }
  }

  // ---------------------------------------------------------------------
  // The console object

  /** The statics of `printf`: the video memory at 0xB8000 and the cursor. */
  class TextConsole {
    const video: array<bv16>
    var x: int
    var y: int

    ghost predicate Valid()
      reads this
    {
      video.Length == CellCount && 0 <= x < Columns && 0 <= y < Rows
    }

    function View(): Screen
      reads this, video
    {
      Screen(video[..], x, y)
    }

    /** The cursor starts at the top left corner; video memory is whatever it holds. */
    constructor (video: array<bv16>)
      requires video.Length == CellCount
      ensures Valid() && this.video == video && View() == Screen(old(video[..]), 0, 0)
    {
      this.video := video;
      x, y := 0, 0;
    }

    /** Writes the blank character into every cell, row by row, as the clearing loops do. */
    method ClearAll()
      requires video.Length == CellCount
      modifies this, video
      ensures video[..] == Blanked(old(video[..]))
      ensures x == Columns && y == Rows
    {
      ghost var before := video[..];
      y := 0;
      while y < Rows
        invariant 0 <= y <= Rows
        invariant forall i :: 0 <= i < Columns * y ==> video[i] == WriteCell(before[i], ' ')
        invariant forall i :: Columns * y <= i < CellCount ==> video[i] == before[i]
        invariant x == Columns || y == 0
      {
        ghost var row := y;
        x := 0;
        while x < Columns
          invariant 0 <= x <= Columns && y == row
          invariant forall i :: 0 <= i < Columns * y + x ==> video[i] == WriteCell(before[i], ' ')
          invariant forall i :: Columns * y + x <= i < CellCount ==> video[i] == before[i]
        {
          video[Columns * y + x] := WriteCell(video[Columns * y + x], ' ');
          x := x + 1;
        }
        y := y + 1;
      }
    }

    /** One iteration of `printf`'s loop. */
    method Put(ch: char)
      requires Valid() && IsByte(ch) && ch != '\0'
      modifies this, video
      ensures Valid() && View() == PutChar(old(View()), ch)
    {
      Control(ch);
      Wrap();
    }

    /** The `switch` on the character. */
    method Control(ch: char)
      requires Valid() && IsByte(ch)
      modifies this, video
      ensures video.Length == CellCount && View() == Switch(old(View()), ch)
    {
      if ch == '\n' {
        x := 0;
        y := y + 1;
      } else if ch == '\r' {
        x := 0;
      } else if ch == BS {
        if x > 0 {
          x := x - 1;
          video[Columns * y + x] := WriteCell(video[Columns * y + x], ' ');
        }
      } else {
        video[Columns * y + x] := WriteCell(video[Columns * y + x], ch);
        x := x + 1;
      }
    }

    /** The wrap at the right margin and the clear below the last row. */
    method Wrap()
      requires video.Length == CellCount && InStep(View()) && (x == Columns ==> y < Rows)
      modifies this, video
      ensures Valid() && View() == Settle(old(View()))
    {
      if x >= Columns {
        x := 0;
        y := y + 1;
      }
      if y >= Rows {
        ClearAll();
        x := 0;
        y := 0;
      }
    }

    /** `printf(str)`. */
    method Print(str: seq<char>)
      requires Valid() && AllBytes(str)
      modifies this, video
      ensures Valid() && View() == PrintText(old(View()), str)
    {
      var i := 0;
      while i < |str| && str[i] != '\0'
        invariant 0 <= i <= |str| && Valid()
        invariant PrintText(old(View()), str) == PrintText(View(), str[i..])
      {
        assert str[i..][0] == str[i] && str[i..][1..] == str[i + 1..];
        Put(str[i]);
        i := i + 1;
      }
    }

    /**
     * `printNum(num)`: the digits are collected least significant first in a
     * 16-byte buffer, then printed from the last one back, one `printf` each.
     */
    method PrintNum(num: int)
      requires Valid() && Negatable(num)
      modifies this, video
      ensures Valid() && View() == PrintText(old(View()), DecimalText(num))
    {
      if num == 0 {
        Print("0");
        return;
      }
      ghost var start := View();
      var n := num;
      if n < 0 {
        Print("-");
        n := -n;
      }
      ghost var sign := if num < 0 then "-" else "";
      assert View() == PrintText(start, sign);
      assert n == Abs(num);
      var buffer, pos := DigitBuffer(n);
      ghost var middle := View();
      DigitsAreText(Digits(n));
      PrintBackwards(buffer, pos);
      DigitsAreText(sign);
      PrintTextAppend(start, sign, Digits(n));
      assert DecimalText(num) == sign + Digits(n);
    }

    /** The second loop of `printNum`: `buffer[pos-1]` down to `buffer[0]`, one `printf` each. */
    method PrintBackwards(buffer: array<char>, pos: int)
      requires Valid() && 0 <= pos <= buffer.Length && IsText(Reversed(buffer[..pos]))
      requires buffer as object != video
      modifies this, video
      ensures Valid() && View() == PrintText(old(View()), old(Reversed(buffer[..pos])))
    {
      ghost var digits := Reversed(buffer[..pos]);
      ghost var start := View();
      var i := pos - 1;
      while i >= 0
        invariant -1 <= i < pos && Valid()
        invariant View() == PrintText(start, digits[..pos - 1 - i])
      {
        EmitStep(start, buffer[..pos], digits, i);
        Print([buffer[i]]);
        assert View() == PrintText(start, digits[..pos - i]);
        i := i - 1;
      }
      assert digits[..pos] == digits;
    }
  }

  predicate IsText(t: seq<char>) {
    AllBytes(t) && NoTerminator(t)
  }

  lemma DigitsAreText(t: seq<char>)
    requires forall i :: 0 <= i < |t| ==> IsDigit(t[i]) || t[i] == '-'
    ensures IsText(t)
  {
  }

  /** Printing the buffer's next digit extends the printed prefix of the digits by one. */
  lemma EmitStep(s: Screen, buf: seq<char>, digits: seq<char>, i: int)
    requires ValidScreen(s) && Reversed(buf) == digits && IsText(digits)
    requires 0 <= i < |buf|
    ensures AllBytes([buf[i]]) && AllBytes(digits[..|buf| - 1 - i])
    ensures PrintText(s, digits[..|buf| - i]) == PrintText(PrintText(s, digits[..|buf| - 1 - i]), [buf[i]])
  {
    var k := |buf| - 1 - i;
    ReversedAt(buf, k);
    assert digits[..k + 1] == digits[..k] + [digits[k]];
    PrintTextAppend(s, digits[..k], [digits[k]]);
  }

  /**
   * The first loop of `printNum`: `buffer[pos++] = '0' + n % 10; n /= 10`
   * until n is 0. The buffer then holds the decimal digits of n in reverse,
   * and for any int32 magnitude at most 10 of its 16 bytes are used.
   */
  method DigitBuffer(n: int) returns (buffer: array<char>, pos: int)
    requires 0 < n <= Int32Max
    ensures fresh(buffer) && buffer.Length == 16 && 1 <= pos <= 10
    ensures Reversed(buffer[..pos]) == Digits(n)
  {
    assert Pow10(10) == 10000000000;
    DigitsLength(n, 10);
    buffer := new char[16];
    pos := 0;
    var m := n;
    while m > 0
      invariant 0 <= m && 0 <= pos <= 10
      invariant Digits(m) + Reversed(buffer[..pos]) == Digits(n)
    {
      ghost var done := buffer[..pos];
      buffer[pos] := DigitChar(m % 10);
      DigitStep(m, done, buffer[..pos + 1]);
      m := m / 10;
      pos := pos + 1;
    }
  }

  /** Moving the lowest digit of m into the buffer keeps digits-so-far + rest unchanged. */
  lemma DigitStep(m: nat, done: seq<char>, next: seq<char>)
    requires m > 0 && next == done + [DigitChar(m % 10)]
    ensures Digits(m / 10) + Reversed(next) == Digits(m) + Reversed(done)
  {
    ReversedSnoc(done, DigitChar(m % 10));
  }

  lemma ReversedSnoc(s: seq<char>, c: char)
    ensures Reversed(s + [c]) == [c] + Reversed(s)
  {
    assert (s + [c])[..|s|] == s;
  }
}
