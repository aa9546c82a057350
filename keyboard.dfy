/**
 * The keyboard line editor and the quadratic-equation solver of
 * `keyboard.cpp`: a 32-byte line buffer filled by printable keys, backspace,
 * Enter that parses the line as a signed decimal and stores it as the next
 * coefficient, and `q`/`Q` that stops the machine. After the third
 * coefficient the solver prints the discriminant and the roots, computed in
 * integers with C's truncating division.
 *
 * Everything the module prints (through `printf` and `printNum`) is kept as
 * one output text; `Console.PrintText` turns such a text into screen
 * contents, and `Console.PrintTextAppend` shows that printing the pieces one
 * after the other gives the same screen as printing the whole text.
 */
module Keyboard {
  import opened CInt
  import opened Console

  const LineSize := 32
  /** The longest line: one cell of the buffer is kept for the terminator. */
  const MaxLine := 31

  const Banner := "QUADRATIC EQUATION SOLVER\n" + "ax^2 + bx + c = 0\n" + "Press 'q' to quit\n\n" + "Enter coefficient a: "
  const QuitText := "\nShutting down...\n"
  const EraseText := [BS, ' ', BS]
  const PromptB := "Enter coefficient b: "
  const PromptC := "Enter coefficient c: "
  const Again := "\nPress any key to solve another equation...\n"

  // ---------------------------------------------------------------------
  // Parsing a submitted line

  function DigitValue(ch: char): int
    requires IsDigit(ch)
  {
    ch as int - '0' as int
  }

  /**
   * The number the digits of s spell, every other character skipped: the
   * fold `n*10 + d` over the digits from left to right.
   */
  function Magnitude(s: seq<char>): int {
    if |s| == 0 then 0
    else if IsDigit(s[|s| - 1]) then Magnitude(s[..|s| - 1]) * 10 + DigitValue(s[|s| - 1])
    else Magnitude(s[..|s| - 1])
  }

  /** The line read as a signed decimal: only a '-' in the first position negates. */
  function ParseValue(line: seq<char>): int {
    if |line| > 0 && line[0] == '-' then -Magnitude(line[1..]) else Magnitude(line)
  }

  // ---------------------------------------------------------------------
  // Integer square roots

  function Square(k: int): int {
    k * k
  }

  /** The integer square root: the largest r whose square does not exceed n. */
  function Isqrt(n: nat): (r: nat)
    ensures Square(r) <= n < Square(r + 1)
  {
    if n == 0 then 0
    else
      var r := Isqrt(n - 1);
      SquareStep(r);
      if Square(r + 1) <= n then r + 1 else r
  }

  lemma SquareStep(r: nat)
    ensures Square(r + 1) < Square(r + 2)
  {
  }

  /** The root the solver's search finds: the positive root of a perfect square, else 0. */
  function PerfectRoot(d: int): int {
    if d > 0 && Square(Isqrt(d)) == d then Isqrt(d) else 0
  }

  // ---------------------------------------------------------------------
  // The solver

  function Discriminant(a: int, b: int, c: int): int {
    b * b - 4 * a * c
  }

  /** What the solver concludes about a*x^2 + b*x + c = 0. */
  datatype Roots =
    | Linear(x: int)
    | NoSolution
    | TwoIntegral(x1: int, x2: int)
    | TwoSurd
    | One(x: int)
    | Complex

  function Solve(a: int, b: int, c: int): Roots {
    if a == 0 then
      if b != 0 then Linear(TruncDiv(-c, b)) else NoSolution
    else
      var d := Discriminant(a, b, c);
      if d > 0 then
        var s := PerfectRoot(d);
        if s > 0 then TwoIntegral(TruncDiv(-b + s, 2 * a), TruncDiv(-b - s, 2 * a)) else TwoSurd
      else if d == 0 then One(TruncDiv(-b, 2 * a))
      else Complex
  }

  function Header(a: int, b: int, c: int): string {
    "\nSolving equation: " + DecimalText(a) + "x^2 + " + DecimalText(b) + "x + " + DecimalText(c) + " = 0\n"
  }

  /** Everything the solver prints for the coefficients a, b, c. */
  function SolverText(a: int, b: int, c: int): string {
    Header(a, b, c) + Report(a, b, c)
  }

  /** What follows the echoed equation: the verdict for a == 0, else the discriminant and the roots. */
  function Report(a: int, b: int, c: int): string {
    var d := Discriminant(a, b, c);
    match Solve(a, b, c)
    case Linear(x) => "Not a quadratic equation (a = 0)\n" + "Linear solution: x = " + DecimalText(x) + "\n"
    case NoSolution => "Not a quadratic equation (a = 0)\n" + "No solution\n"
    case _ => "Discriminant = " + DecimalText(d) + "\n" + RootsText(Solve(a, b, c), b, d, 2 * a) + Again
  }

  /** The lines that describe the roots of a quadratic equation with discriminant d. */
  function RootsText(r: Roots, b: int, d: int, twoA: int): string {
    match r
    case TwoIntegral(x1, x2) =>
      "Two real solutions exist\n" + "x1 = " + DecimalText(x1) + "\n" + "x2 = " + DecimalText(x2) + "\n"
    case TwoSurd => "Two real solutions exist\n" + SurdText(b, d, twoA)
    case One(x) => "One real solution exists\n" + "x = " + DecimalText(x) + "\n"
    case Complex => "No real solutions (complex solutions)\n"
    case _ => ""
  }

  /** The two roots written out symbolically as (-b +- sqrt(d)) / 2a. */
  function SurdText(b: int, d: int, twoA: int): string {
    "Solutions involve square roots\n"
    + "x1 = (-" + DecimalText(b) + " + sqrt(" + DecimalText(d) + ")) / " + DecimalText(twoA) + "\n"
    + "x2 = (-" + DecimalText(b) + " - sqrt(" + DecimalText(d) + ")) / " + DecimalText(twoA) + "\n"
  }

  /**
   * The solver runs without undefined behaviour in C: every intermediate of
   * `int32_t` arithmetic stays in range (including the squares of the root
   * search), and every value handed to `printNum` can be negated.
   */
  predicate SolverDefined(a: int, b: int, c: int) {
    && Negatable(a) && Negatable(b) && Negatable(c)
    && (a != 0 ==>
      var d := Discriminant(a, b, c);
      && Int32(b * b) && Int32(4 * a) && Int32(4 * a * c) && Negatable(d) && Negatable(2 * a)
      && (d > 0 && PerfectRoot(d) == 0 ==> Square(Isqrt(d) + 1) <= Int32Max)
      && (d > 0 && PerfectRoot(d) > 0 ==>
        var s := PerfectRoot(d);
        Int32(-b + s) && Int32(-b - s)
        && Negatable(TruncDiv(-b + s, 2 * a)) && Negatable(TruncDiv(-b - s, 2 * a))))
  }

  // ---------------------------------------------------------------------
  // The line editor as a state machine

  /** The statics of `keyboard.cpp`, plus the output printed so far and whether the CPU halted. */
  datatype LineState = LineState(
    buffer: seq<char>, pos: int, ready: bool, stage: int,
    a: int, b: int, c: int, halted: bool, output: string)

  /** Between two keys the cursor leaves room for the terminator and no line is pending. */
  predicate WellFormed(s: LineState) {
    |s.buffer| == LineSize && 0 <= s.pos <= MaxLine && 0 <= s.stage <= 3 && !s.ready
  }

  /** The statics as the program image holds them: all zero. */
  function Initial(): LineState {
    LineState(seq(LineSize, _ => '\0'), 0, false, 0, 0, 0, 0, false, "")
  }

  /** `StartQuadraticSolver`: the banner and the first prompt. */
  function Started(s: LineState): LineState {
    s.(output := s.output + Banner, stage := 0)
  }

  predicate IsQuit(key: char) {
    key == 'q' || key == 'Q'
  }

  predicate IsSubmit(key: char) {
    key == '\n' || key == '\r'
  }

  predicate IsPrintable(key: char) {
    ' ' <= key <= '~'
  }

  function KeyStep(s: LineState, key: char): (r: LineState)
    requires WellFormed(s) && !s.halted
  {
    if IsQuit(key) then s.(output := s.output + QuitText, halted := true)
    else if IsSubmit(key) then Submit(s)
    else if key == BS then
      if s.pos > 0 then s.(pos := s.pos - 1, output := s.output + EraseText) else s
    else if IsPrintable(key) && s.pos < MaxLine then
      s.(buffer := s.buffer[s.pos := key], pos := s.pos + 1, output := s.output + [key])
    else s
  }

  /** Enter: terminate the line, parse it, store it as the next coefficient, clear the line. */
  function Submit(s: LineState): LineState
    requires WellFormed(s)
  {
    var terminated := s.buffer[s.pos := '\0'];
    var number := ParseValue(terminated[..s.pos]);
    var t := Store(s.(buffer := terminated, ready := true, output := s.output + "\n"), number);
    t.(pos := 0, ready := false)
  }

  /** The switch on the coefficient stage; stage 3 has no case and drops the number. */
  function Store(s: LineState, number: int): LineState {
    if s.stage == 0 then s.(a := number, stage := 1, output := s.output + PromptB)
    else if s.stage == 1 then s.(b := number, stage := 2, output := s.output + PromptC)
    else if s.stage == 2 then SolveStep(s.(c := number, stage := 3))
    else s
  }

  /** `SolveQuadraticEquation`: print, then reset the stage and coefficients unless a == 0. */
  function SolveStep(s: LineState): LineState {
    var out := s.output + SolverText(s.a, s.b, s.c);
    if s.a == 0 then s.(output := out)
    else s.(output := out, stage := 0, a := 0, b := 0, c := 0)
  }

  /** The key is handled without undefined behaviour in C. */
  predicate KeyDefined(s: LineState, key: char)
    requires WellFormed(s)
  {
    IsSubmit(key) ==>
      var line := s.buffer[..s.pos];
      var start := if |line| > 0 && line[0] == '-' then 1 else 0;
      && Magnitude(line[start..]) <= Int32Max
      && (s.stage == 2 ==> SolverDefined(s.a, s.b, ParseValue(line)))
  }

  /** The keys handed to the editor one by one; after a halt nothing runs any more. */
  function Feed(s: LineState, keys: seq<char>): (r: LineState)
    requires WellFormed(s)
    ensures WellFormed(r)
    decreases |keys|
  {
    if s.halted || |keys| == 0 then s
    else
      KeyStepWellFormed(s, keys[0]);
      Feed(KeyStep(s, keys[0]), keys[1..])
  }

  /** `0 <= input_pos <= 31` and the stage range survive every key. */
  lemma KeyStepWellFormed(s: LineState, key: char)
    requires WellFormed(s) && !s.halted
    ensures WellFormed(KeyStep(s, key))
  {
  }

  // ---------------------------------------------------------------------
  // The imperative editor

  /** The statics of `keyboard.cpp` as an object. */
  class LineInput {
    const buffer: array<char>
    var pos: int
    var ready: bool
    var stage: int
    var a: int
    var b: int
    var c: int
    var halted: bool
    var output: string

    function View(): LineState
      reads this, buffer
    {
      LineState(buffer[..], pos, ready, stage, a, b, c, halted, output)
    }

    ghost predicate Valid()
      reads this, buffer
    {
      buffer.Length == LineSize && WellFormed(View())
    }

    constructor ()
      ensures Valid() && View() == Initial() && fresh(buffer)
    {
      buffer := new char[LineSize](_ => '\0');
      pos, ready, stage := 0, false, 0;
      a, b, c := 0, 0, 0;
      halted, output := false, "";
    }

    /** `StartQuadraticSolver`. */
    method Start()
      requires Valid()
      modifies this
      ensures Valid() && View() == Started(old(View()))
    {
      var banner := "QUADRATIC EQUATION SOLVER\n";
      banner := banner + "ax^2 + bx + c = 0\n";
      banner := banner + "Press 'q' to quit\n\n";
      banner := banner + "Enter coefficient a: ";
      output := output + banner;
      stage := 0;
    }

    /** `ProcessKeyboardInput`. */
    method ProcessKey(key: char)
      requires Valid() && !halted && KeyDefined(View(), key)
      modifies this, buffer
      ensures Valid() && View() == KeyStep(old(View()), key)
    {
      if key == 'q' || key == 'Q' {
        output := output + QuitText;
        halted := true;
      } else if key == '\n' || key == '\r' {
        SubmitLine();
      } else if key == BS {
        if pos > 0 {
          pos := pos - 1;
          output := output + EraseText;
        }
      } else if ' ' <= key <= '~' && pos < MaxLine {
        buffer[pos] := key;
        pos := pos + 1;
        output := output + [key];
      }
    }

    /** The Enter branch: terminate the line, parse it, store the number, clear the line. */
    method SubmitLine()
      requires Valid()
      modifies this, buffer
      ensures Valid() && View() == Submit(old(View()))
    {
      buffer[pos] := '\0';
      ready := true;
      output := output + "\n";
      var number := ParseLine();
      StoreNumber(number);
      pos := 0;
      ready := false;
    }

    /** The `switch` on the coefficient stage. */
    method StoreNumber(number: int)
      modifies this
      ensures View() == Store(old(View()), number)
    {
      if stage == 0 {
        a := number;
        stage := 1;
        output := output + PromptB;
      } else if stage == 1 {
        b := number;
        stage := 2;
        output := output + PromptC;
      } else if stage == 2 {
        c := number;
        stage := 3;
        SolveEquation();
      }
    }

    /** The parse loop of the Enter branch, over the first `pos` cells. */
    method ParseLine() returns (number: int)
      requires buffer.Length == LineSize && 0 <= pos <= MaxLine
      ensures number == ParseValue(buffer[..pos])
    {
      number := 0;
      var negative := false;
      var start := 0;
      if buffer[0] == '-' {
        negative := true;
        start := 1;
      }
      var i := start;
      while i < pos
        invariant start <= i && (i <= pos || i == start)
        invariant number == Magnitude(buffer[start..i])
      {
        assert buffer[start..i + 1][..i - start] == buffer[start..i];
        if '0' <= buffer[i] <= '9' {
          number := number * 10 + (buffer[i] as int - '0' as int);
        }
        i := i + 1;
      }
      if negative {
        number := -number;
      }
      if 0 < pos {
        assert buffer[..pos][1..] == buffer[1..pos];
      }
    }

    /** `SolveQuadraticEquation`; the printed pieces are appended in order when it returns. */
    method SolveEquation()
      modifies this
      ensures View() == SolveStep(old(View()))
    {
      var text := SolverTextFor(a, b, c);
      Emit(text);
      if a != 0 {
        ResetCoefficients();
      }
    }

    /** Text printed on the console. */
    method Emit(text: string)
      modifies this
      ensures View() == old(View()).(output := old(output) + text)
    {
      output := output + text;
    }

    /** The solver starts over with the first coefficient. */
    method ResetCoefficients()
      modifies this
      ensures View() == old(View()).(stage := 0, a := 0, b := 0, c := 0)
    {
      stage := 0;
      a, b, c := 0, 0, 0;
    }
  }

  /** Everything `SolveQuadraticEquation` prints, piece by piece in the order it prints them. */
  method SolverTextFor(a: int, b: int, c: int) returns (text: string)
    ensures text == SolverText(a, b, c)
  {
    text := "\nSolving equation: ";
    text := text + DecimalText(a);
    text := text + "x^2 + ";
    text := text + DecimalText(b);
    text := text + "x + ";
    text := text + DecimalText(c);
    text := text + " = 0\n";
    var report := ReportFor(a, b, c);
    text := text + report;
  }

  /** The part of `SolveQuadraticEquation` after the echoed equation. */
  method ReportFor(a: int, b: int, c: int) returns (report: string)
    ensures report == Report(a, b, c)
  {
    if a == 0 {
      report := "Not a quadratic equation (a = 0)\n";
      if b != 0 {
        report := report + "Linear solution: x = ";
        report := report + DecimalText(TruncDiv(-c, b));
        report := report + "\n";
      } else {
        report := report + "No solution\n";
      }
      return;
    }
    var discriminant := b * b - 4 * a * c;
    report := "Discriminant = ";
    report := report + DecimalText(discriminant);
    report := report + "\n";
    var roots := RootsReport(a, b, c, discriminant);
    report := report + roots;
    report := report + Again;
    assert !Solve(a, b, c).Linear? && !Solve(a, b, c).NoSolution?;
  }

  /** The branch of `SolveQuadraticEquation` on the sign of the discriminant. */
  method RootsReport(a: int, b: int, c: int, discriminant: int) returns (text: string)
    requires a != 0 && discriminant == Discriminant(a, b, c)
    ensures text == RootsText(Solve(a, b, c), b, discriminant, 2 * a)
  {
    if discriminant > 0 {
      text := "Two real solutions exist\n";
      var root := FindSquareRoot(discriminant);
      if root > 0 {
        var x1 := TruncDiv(-b + root, 2 * a);
        var x2 := TruncDiv(-b - root, 2 * a);
        text := text + "x1 = ";
        text := text + DecimalText(x1);
        text := text + "\n";
        text := text + "x2 = ";
        text := text + DecimalText(x2);
        text := text + "\n";
      } else {
        var surd := "Solutions involve square roots\n";
        surd := surd + "x1 = (-";
        surd := surd + DecimalText(b);
        surd := surd + " + sqrt(";
        surd := surd + DecimalText(discriminant);
        surd := surd + ")) / ";
        surd := surd + DecimalText(2 * a);
        surd := surd + "\n";
        surd := surd + "x2 = (-";
        surd := surd + DecimalText(b);
        surd := surd + " - sqrt(";
        surd := surd + DecimalText(discriminant);
        surd := surd + ")) / ";
        surd := surd + DecimalText(2 * a);
        surd := surd + "\n";
        text := text + surd;
      }
    } else if discriminant == 0 {
      text := "One real solution exists\n";
      var x := TruncDiv(-b, 2 * a);
      text := text + "x = ";
      text := text + DecimalText(x);
      text := text + "\n";
    } else {
      text := "No real solutions (complex solutions)\n";
    }
  }

  /** The brute-force root search: the first i with i*i == disc, or 0 once i*i passes disc. */
  method FindSquareRoot(disc: int) returns (root: int)
    requires disc > 0
    ensures root == PerfectRoot(disc)
  {
    root := 0;
    var i := 1;
    while i * i <= disc
      invariant 1 <= i && root == 0
      invariant forall k :: 1 <= k < i ==> Square(k) != disc
      decreases disc - i
    {
      if i * i == disc {
        root := i;
        break;
      }
      SquareAtLeast(i);
      i := i + 1;
    }
    if root == 0 {
      NoRootBelow(disc, i);
    } else {
      IsqrtUnique(disc, root);
    }
  }

  /** When no square below i*i hits d, d is not a perfect square. */
  lemma NoRootBelow(d: int, i: int)
    requires 0 < d < Square(i) && 1 <= i
    requires forall k :: 1 <= k < i ==> Square(k) != d
    ensures PerfectRoot(d) == 0
  {
    var q := Isqrt(d);
    if Square(q) == d {
      if i <= q {
        SquareMonotone(i, q);
      }
      assert false;
    }
  }

  lemma SquareAtLeast(i: int)
    requires i >= 1
    ensures i <= Square(i)
  {
  }

  lemma SquareMonotone(x: nat, y: nat)
    requires x <= y
    ensures Square(x) <= Square(y)
  {
  }

  /** Isqrt is determined by its contract. */
  lemma IsqrtUnique(n: nat, r: nat)
    requires Square(r) <= n < Square(r + 1)
    ensures Isqrt(n) == r
  {
    var q := Isqrt(n);
    if q < r {
      SquareMonotone(q + 1, r);
    } else if r < q {
      SquareMonotone(r + 1, q);
    }
  }

  // ---------------------------------------------------------------------
  // Properties of the parse

  /** The worked examples of the parse rules. */
  lemma ParseExamples()
    ensures ParseValue("42") == 42
    ensures ParseValue("-7") == -7
    ensures ParseValue("12x3") == 123
    ensures ParseValue("4-2") == 42
    ensures ParseValue("") == 0
  {
    assert "42"[..1] == "4" && "4"[..0] == "";
    assert "-7"[1..] == "7" && "7"[..0] == "";
    assert "12x3"[..3] == "12x" && "12x"[..2] == "12" && "12"[..1] == "1" && "1"[..0] == "";
    assert "4-2"[..2] == "4-" && "4-"[..1] == "4" && "4"[..0] == "";
  }

  /** A character that is not a digit makes no difference wherever it stands. */
  lemma {:induction false} MagnitudeSkipsNonDigit(s: seq<char>, ch: char, t: seq<char>)
    requires !IsDigit(ch)
    ensures Magnitude(s + [ch] + t) == Magnitude(s + t)
    decreases |t|
  {
    if t == [] {
      assert (s + [ch])[..|s|] == s;
      assert s + [ch] + t == s + [ch] && s + t == s;
    } else {
      var u := t[..|t| - 1];
      MagnitudeSkipsNonDigit(s, ch, u);
      assert (s + [ch] + t)[..|s + [ch] + t| - 1] == s + [ch] + u;
      assert (s + t)[..|s + t| - 1] == s + u;
    }
  }

  /** The fold never shrinks, so a bound on the whole line bounds every intermediate value. */
  lemma {:induction false} MagnitudePrefixBound(s: seq<char>, i: int)
    requires 0 <= i <= |s|
    ensures 0 <= Magnitude(s[..i]) <= Magnitude(s)
    decreases |s|
  {
    if i < |s| {
      var init := s[..|s| - 1];
      assert s[..i] == init[..i];
      MagnitudePrefixBound(init, i);
    } else {
      assert s[..i] == s;
      MagnitudeNonNegative(s);
    }
  }

  lemma {:induction false} MagnitudeNonNegative(s: seq<char>)
    ensures Magnitude(s) >= 0
    decreases |s|
  {
    if |s| > 0 {
      MagnitudeNonNegative(s[..|s| - 1]);
    }
  }

  /** Reading back the digits `printNum` writes gives the number. */
  lemma {:induction false} MagnitudeOfDigits(n: nat)
    ensures Magnitude(Digits(n)) == n
  {
    if n > 0 {
      var r := Digits(n);
      assert r[..|r| - 1] == Digits(n / 10);
      MagnitudeOfDigits(n / 10);
    }
  }

  /** The parse is the inverse of `printNum`: a printed number typed back in reads as itself. */
  lemma ParseInvertsDecimalText(n: int)
    ensures ParseValue(DecimalText(n)) == n
  {
    var t := DecimalText(n);
    if n == 0 {
      assert t == "0";
      assert t[..|t| - 1] == "" && IsDigit(t[|t| - 1]) && DigitValue(t[|t| - 1]) == 0;
      assert Magnitude(t) == 0;
    } else if n < 0 {
      assert t[1..] == Digits(-n);
      MagnitudeOfDigits(-n);
    } else {
      MagnitudeOfDigits(n);
    }
  }

  // ---------------------------------------------------------------------
  // Properties of the square-root search and the solver

  /** The root search finds exactly the positive square roots. */
  lemma PerfectRootSpec(d: int)
    ensures PerfectRoot(d) > 0 ==> Square(PerfectRoot(d)) == d
    ensures PerfectRoot(d) == 0 ==> forall k :: k > 0 ==> Square(k) != d
  {
    if PerfectRoot(d) == 0 {
      forall k | k > 0
        ensures Square(k) != d
      {
        if Square(k) == d {
          IsqrtUnique(d, k);
        }
      }
    }
  }

  predicate IsRoot(a: int, b: int, c: int, x: int) {
    a * x * x + b * x + c == 0
  }

  /** Completing the square: 4a(ax^2 + bx + c) = (2ax + b)^2 - (b^2 - 4ac). */
  lemma CompletedSquare(a: int, b: int, c: int, x: int)
    ensures 4 * a * (a * x * x + b * x + c) == Square(2 * a * x + b) - Discriminant(a, b, c)
  {
  }

  /**
   * Every integer root of a quadratic equation is among the roots the solver
   * prints, so "square roots" and "complex" are right to print no integer.
   */
  lemma IntegerRootsReported(a: int, b: int, c: int, x: int)
    requires a != 0 && IsRoot(a, b, c, x)
    ensures match Solve(a, b, c)
      case TwoIntegral(x1, x2) => x == x1 || x == x2
      case One(x0) => x == x0
      case _ => false
  {
    var m := 2 * a * x + b;
    CompletedSquare(a, b, c, x);
    assert Square(m) == Discriminant(a, b, c);
    if m == 0 {
      DoubleRootReported(a, b, c, x);
    } else {
      SimpleRootReported(a, b, c, x, m);
    }
  }

  lemma DoubleRootReported(a: int, b: int, c: int, x: int)
    requires a != 0 && 2 * a * x + b == 0 && Discriminant(a, b, c) == 0
    ensures Solve(a, b, c) == One(x)
  {
    TruncDivExact(-b, 2 * a, x);
  }

  lemma SimpleRootReported(a: int, b: int, c: int, x: int, m: int)
    requires a != 0 && m == 2 * a * x + b && m != 0 && Square(m) == Discriminant(a, b, c)
    ensures Solve(a, b, c).TwoIntegral?
    ensures x == Solve(a, b, c).x1 || x == Solve(a, b, c).x2
  {
    RootOfSquare(m, Discriminant(a, b, c));
    TruncDivExact(-b + m, 2 * a, x);
    if m < 0 {
      assert -b - Abs(m) == -b + m;
    }
  }

  /** A nonzero square is positive and its search finds the magnitude of its root. */
  lemma RootOfSquare(m: int, d: int)
    requires m != 0 && Square(m) == d
    ensures d > 0 && PerfectRoot(d) == Abs(m)
  {
    var am := Abs(m);
    assert Square(am) == d by { AbsMul(m, m); }
    SquareAtLeast(am);
    SquareStep(am - 1);
    IsqrtUnique(d, am);
  }

  /** When the truncating divisions are exact, the printed roots solve the equation. */
  lemma ExactRootsSolve(a: int, b: int, c: int)
    requires a != 0
    ensures var d := Discriminant(a, b, c);
      match Solve(a, b, c)
      case TwoIntegral(x1, x2) =>
        ((-b + PerfectRoot(d)) % (2 * a) == 0 ==> IsRoot(a, b, c, x1))
        && ((-b - PerfectRoot(d)) % (2 * a) == 0 ==> IsRoot(a, b, c, x2))
      case One(x) => (-b) % (2 * a) == 0 ==> IsRoot(a, b, c, x)
      case _ => true
  {
    var d := Discriminant(a, b, c);
    var s := PerfectRoot(d);
    PerfectRootSpec(d);
    if d > 0 && s > 0 {
      ExactRoot(a, b, c, s);
      ExactRoot(a, b, c, -s);
      assert -b - s == -b + -s;
    } else if d == 0 {
      ExactRoot(a, b, c, 0);
    }
  }

  /** An exact quotient (-b + m) / 2a, for m a square root of the discriminant, is a root. */
  lemma ExactRoot(a: int, b: int, c: int, m: int)
    requires a != 0 && Square(m) == Discriminant(a, b, c)
    ensures (-b + m) % (2 * a) == 0 ==> IsRoot(a, b, c, TruncDiv(-b + m, 2 * a))
  {
    if (-b + m) % (2 * a) == 0 {
      var k := (-b + m) / (2 * a);
      assert -b + m == k * (2 * a);
      TruncDivExact(-b + m, 2 * a, k);
      RootFromSquare(a, b, c, k, m);
    }
  }

  /** If 2ak + b squares to the discriminant, k is a root. */
  lemma RootFromSquare(a: int, b: int, c: int, k: int, m: int)
    requires a != 0 && 2 * a * k + b == m && Square(m) == Discriminant(a, b, c)
    ensures IsRoot(a, b, c, k)
  {
    CompletedSquare(a, b, c, k);
    assert 4 * a * (a * k * k + b * k + c) == 0;
  }

  /** For a == 0 the solver solves bx + c = 0, exactly when b divides c. */
  lemma LinearCase(b: int, c: int)
    ensures b == 0 ==> Solve(0, b, c) == NoSolution
    ensures b != 0 && (-c) % b == 0 ==> Solve(0, b, c).Linear? && b * Solve(0, b, c).x + c == 0
  {
    if b != 0 && (-c) % b == 0 {
      TruncDivExact(-c, b, (-c) / b);
    }
  }

  /** The worked example: x^2 - 4 = 0 has discriminant 16 and roots 2 and -2. */
  lemma SolveExample()
    ensures Discriminant(1, 0, -4) == 16
    ensures Solve(1, 0, -4) == TwoIntegral(2, -2)
  {
    IsqrtUnique(16, 4);
    TruncDivExact(4, 2, 2);
    TruncDivExact(-4, 2, -2);
  }

  /**
   * What the solver prints for x^2 - 4 = 0: the equation echoed with its
   * coefficients, discriminant 16, and the roots 2 and -2.
   */
  lemma ExampleText()
    ensures Header(1, 0, -4) == "\nSolving equation: " + "1" + "x^2 + " + "0" + "x + " + "-4" + " = 0\n"
    ensures Report(1, 0, -4) ==
      "Discriminant = " + "16" + "\n"
      + ("Two real solutions exist\n" + "x1 = " + "2" + "\n" + "x2 = " + "-2" + "\n") + Again
  {
    DecimalTexts();
    SolveExample();
  }

  /** The decimal texts the example uses. */
  lemma DecimalTexts()
    ensures DecimalText(0) == "0" && DecimalText(1) == "1" && DecimalText(-4) == "-4"
    ensures DecimalText(2) == "2" && DecimalText(-2) == "-2" && DecimalText(16) == "16"
  {
    assert Digits(1) == "1";
    assert Digits(2) == "2";
    assert Digits(4) == "4";
    assert Digits(16) == Digits(1) + "6";
  }

  // ---------------------------------------------------------------------
  // Properties of the line editor

  /** Backspace on an empty line changes nothing; otherwise it drops exactly one character. */
  lemma BackspaceStep(s: LineState)
    requires WellFormed(s) && !s.halted
    ensures s.pos == 0 ==> KeyStep(s, BS) == s
    ensures s.pos > 0 ==> KeyStep(s, BS) == s.(pos := s.pos - 1, output := s.output + EraseText)
  {
  }

  /**
   * Enter always leaves an empty line and no pending input; the parsed number
   * goes to the coefficient the stage names, and in stage 3 it is dropped.
   */
  lemma SubmitStep(s: LineState, key: char)
    requires WellFormed(s) && !s.halted && IsSubmit(key)
    ensures var r := KeyStep(s, key);
      var n := ParseValue(s.buffer[..s.pos]);
      && r.pos == 0 && !r.ready && !r.halted
      && (s.stage == 0 ==>
            r.stage == 1 && r.a == n && r.b == s.b && r.c == s.c && r.output == s.output + "\n" + PromptB)
      && (s.stage == 1 ==>
            r.stage == 2 && r.a == s.a && r.b == n && r.c == s.c && r.output == s.output + "\n" + PromptC)
      && (s.stage == 2 ==>
            r.output == s.output + "\n" + SolverText(s.a, s.b, n)
            && (s.a == 0 ==> r.stage == 3 && r.c == n)
            && (s.a != 0 ==> r.stage == 0 && r.a == 0 && r.b == 0 && r.c == 0))
      && (s.stage == 3 ==>
            r.stage == 3 && r.a == s.a && r.b == s.b && r.c == s.c && r.output == s.output + "\n")
  {
    assert s.buffer[s.pos := '\0'][..s.pos] == s.buffer[..s.pos];
  }

  /** Keys fed in two batches act as one batch. */
  lemma {:induction false} FeedAppend(s: LineState, t: seq<char>, u: seq<char>)
    requires WellFormed(s)
    ensures Feed(s, t + u) == Feed(Feed(s, t), u)
    decreases |t|
  {
    if s.halted {
    } else if t == [] {
      assert t + u == u;
    } else {
      assert (t + u)[1..] == t[1..] + u;
      FeedAppend(KeyStep(s, t[0]), t[1..], u);
    }
  }

  lemma {:induction false} FeedHalted(s: LineState, keys: seq<char>)
    requires WellFormed(s) && s.halted
    ensures Feed(s, keys) == s
  {
  }

  /**
   * `q` or `Q` halts the machine whatever came before, with whatever line and
   * stage; the keys after it have no effect.
   */
  lemma QuitIsFinal(s: LineState, keys: seq<char>, key: char, rest: seq<char>)
    requires WellFormed(s) && IsQuit(key)
    ensures Feed(s, keys + [key] + rest) == Feed(s, keys + [key])
    ensures Feed(s, keys + [key]).halted
  {
    FeedAppend(s, keys, [key]);
    FeedAppend(s, keys + [key], rest);
    var before := Feed(s, keys);
    if !before.halted {
      assert [key][1..] == [];
    }
    FeedHalted(Feed(s, keys + [key]), rest);
  }

  /** Stage 3 is never left: after a == 0 the editor keeps discarding every line. */
  lemma {:induction false} StageThreeSticks(s: LineState, keys: seq<char>)
    requires WellFormed(s) && s.stage == 3
    ensures var r := Feed(s, keys);
      r.stage == 3 && r.a == s.a && r.b == s.b && r.c == s.c
    decreases |keys|
  {
    if !s.halted && keys != [] {
      StageThreeSticks(KeyStep(s, keys[0]), keys[1..]);
    }
  }

  /** Characters that are echoed and stored: printable, and not a quit key. */
  predicate Typeable(t: seq<char>) {
    forall i :: 0 <= i < |t| ==> IsPrintable(t[i]) && !IsQuit(t[i])
  }

  /** Typing a line that fits appends it to the buffer at the cursor and echoes it. */
  lemma {:induction false} TypingFillsLine(s: LineState, t: seq<char>)
    requires WellFormed(s) && !s.halted && Typeable(t) && s.pos + |t| <= MaxLine
    ensures Feed(s, t) == s.(buffer := s.buffer[..s.pos] + t + s.buffer[s.pos + |t|..],
                            pos := s.pos + |t|, output := s.output + t)
    decreases |t|
  {
    if t == [] {
      assert s.buffer[..s.pos] + t + s.buffer[s.pos..] == s.buffer;
      assert s.output + t == s.output;
    } else {
      var s1 := KeyStep(s, t[0]);
      assert s1 == s.(buffer := s.buffer[s.pos := t[0]], pos := s.pos + 1, output := s.output + [t[0]]);
      TypingFillsLine(s1, t[1..]);
      assert s1.buffer[..s1.pos] + t[1..] + s1.buffer[s1.pos + |t[1..]|..]
        == s.buffer[..s.pos] + t + s.buffer[s.pos + |t|..];
      assert s1.output + t[1..] == s.output + t;
    }
  }

  lemma DecimalTextTypeable(n: int)
    requires Negatable(n)
    ensures Typeable(DecimalText(n)) && |DecimalText(n)| <= 11
  {
    DecimalTextShape(n);
    var t := DecimalText(n);
    if n < 0 {
      forall i | 0 <= i < |t|
        ensures IsPrintable(t[i]) && !IsQuit(t[i])
      {
        if i > 0 {
          assert t[i] == t[1..][i - 1];
        }
      }
    }
  }

  /**
   * Typing what `printNum` prints for n on an empty line and pressing Enter
   * gives the current stage exactly n.
   */
  lemma EnterStoresTypedNumber(s: LineState, n: int)
    requires WellFormed(s) && !s.halted && s.pos == 0 && Negatable(n)
    ensures var r := Feed(s, DecimalText(n) + ['\n']);
      && r.pos == 0 && !r.halted
      && (s.stage == 0 ==>
            r.stage == 1 && r.a == n && r.output == s.output + DecimalText(n) + "\n" + PromptB)
      && (s.stage == 1 ==>
            r.stage == 2 && r.a == s.a && r.b == n && r.output == s.output + DecimalText(n) + "\n" + PromptC)
      && (s.stage == 2 ==>
            r.output == s.output + DecimalText(n) + "\n" + SolverText(s.a, s.b, n)
            && (s.a != 0 ==> r.stage == 0 && r.a == 0 && r.b == 0 && r.c == 0)
            && (s.a == 0 ==> r.stage == 3 && r.a == s.a && r.b == s.b && r.c == n))
  {
    var t := DecimalText(n);
    DecimalTextTypeable(n);
    TypingFillsLine(s, t);
    FeedAppend(s, t, ['\n']);
    var typed := Feed(s, t);
    assert typed.buffer[..typed.pos] == t;
    assert ['\n'][1..] == [];
    SubmitStep(typed, '\n');
    ParseInvertsDecimalText(n);
  }

  /** Keys without Enter never store a coefficient or move the stage. */
  lemma {:induction false} NoSubmitKeepsCoefficients(s: LineState, keys: seq<char>)
    requires WellFormed(s)
    requires forall i :: 0 <= i < |keys| ==> !IsSubmit(keys[i])
    ensures var r := Feed(s, keys);
      r.stage == s.stage && r.a == s.a && r.b == s.b && r.c == s.c
    decreases |keys|
  {
    if !s.halted && keys != [] {
      NoSubmitKeepsCoefficients(KeyStep(s, keys[0]), keys[1..]);
    }
  }

  /** The lines that enter a, b and c, each as `printNum` would print it. */
  function CoefficientLines(a: int, b: int, c: int): seq<char> {
    NumberLine(a) + NumberLine(b) + NumberLine(c)
  }

  /** One coefficient typed as `printNum` would print it, then Enter. */
  function NumberLine(n: int): seq<char> {
    DecimalText(n) + ['\n']
  }

  /**
   * Entering three coefficients from stage 0 echoes them with the prompts,
   * runs the solver on exactly those values, and resets the stage unless a == 0.
   */
  lemma ThreeCoefficients(s: LineState, a: int, b: int, c: int)
    requires WellFormed(s) && !s.halted && s.pos == 0 && s.stage == 0
    requires Negatable(a) && Negatable(b) && Negatable(c)
    ensures var r := Feed(s, CoefficientLines(a, b, c));
      && r.output == s.output + DecimalText(a) + "\n" + PromptB + DecimalText(b) + "\n" + PromptC
           + DecimalText(c) + "\n" + SolverText(a, b, c)
      && r.pos == 0 && !r.halted
      && (a != 0 ==> r.stage == 0 && r.a == 0 && r.b == 0 && r.c == 0)
      && (a == 0 ==> r.stage == 3 && r.a == a && r.b == b && r.c == c)
  {
    var ta, tb, tc := NumberLine(a), NumberLine(b), NumberLine(c);
    FeedAppend(s, ta + tb, tc);
    FeedAppend(s, ta, tb);
    var s1 := Feed(s, ta);
    EnterStoresTypedNumber(s, a);
    assert s1.stage == 1 && s1.a == a && s1.pos == 0 && !s1.halted;
    assert s1.output == s.output + DecimalText(a) + "\n" + PromptB;
    var s2 := Feed(s1, tb);
    EnterStoresTypedNumber(s1, b);
    assert s2.stage == 2 && s2.a == a && s2.b == b && s2.pos == 0 && !s2.halted;
    assert s2.output == s1.output + DecimalText(b) + "\n" + PromptC;
    EnterStoresTypedNumber(s2, c);
  }
}
