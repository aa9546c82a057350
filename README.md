# wyoos-lab13: interrupts, keyboard line editor and text console in Dafny

A Dafny model of the interrupt and keyboard core of the wyoos-lab13 teaching kernel. Each part below lists what it models and what is proved about it.

- **Interrupt manager** (`interrupts.cpp`, `interrupts.h`), module `Interrupts`.
  - The 256-slot interrupt descriptor table of 32-bit interrupt gates, and how a gate is encoded.
  - The constructor. It fills the table from slot 255 down to slot 1, then slot 0, then the two request slots. It writes the ten-byte initialization sequence of the two cascaded 8259A controllers. It loads the table register.
  - The dispatcher `HandleInterrupt`, with its end-of-interrupt rule.
  - The keyboard handler. It turns a scan code into a key through a 58-entry table.
- **Keyboard line editor and quadratic solver** (`keyboard.cpp`), module `Keyboard`.
  - The statics of `keyboard.cpp` become the class `LineInput`: a 32-byte line buffer, the cursor `input_pos`, the coefficient stage and `a`, `b`, `c`.
  - Each key is one of four kinds: quit, Enter with its permissive signed-decimal parse, backspace, or a bounded printable append.
  - The integer solver computes the discriminant, searches for a square root by brute force, and divides with C's truncating division.
- **Text console** (`kernel.cpp`), module `Console`.
  - `printf` works on the 80x25 VGA cell buffer. It keeps a cursor, writes cells that keep their attribute byte, wraps lines, and clears the whole screen when the text runs off the bottom.
  - `printNum` is a signed decimal formatter built on a 16-byte digit buffer.
- **Supporting modules.**
  - `CInt`: `int32_t` ranges and C's truncating division.
  - `Ports`: the I/O port primitives, modelled as a log of port traffic.
  - `Pic8259`: an independent reference model of the 8259A. It says what the controllers do with a sequence of port writes, so the manager's writes can be checked against it.

The source does its work step by step, and the model keeps that form:
- The state-changing operations are methods on the classes `TextConsole`, `LineInput` and `InterruptManager`, with three module-level methods over arrays. `Interrupts.SetInterruptDescriptorTableEntry` is the static table setter of `InterruptManager` (`interrupts.h`); it updates one slot of the table array to `MakeGate`. `Interrupts.FillTable` runs the constructor's filling loops on that array and leaves it `SetupTable`. `Console.DigitBuffer` fills a fresh buffer with `Digits` in the order `printNum` does. Each class method's `ensures` ties the new state to a pure step function of the old state: `PutChar`, `PrintText`, `KeyStep`, `Submit`, `Store`, `SolveStep`, `SetupTable`, `InitTrace` or `AfterScanCode`.
- The lemmas state what the source promises about those step functions.

`keyboard.cpp` prints through `printf` and `printNum`. In the model, everything it prints is one output text. `Console.PrintText` turns such a text into screen contents, and `Console.PrintTextAppend` shows that printing the pieces in turn gives the same screen as printing the whole text.

In IBM scan-code set 1, 0x0E is Backspace, 0x1C is Enter and 0x39 is the space bar. The table in `interrupts.cpp` is partial and maps them to `' '`, `' '` and NUL. The model follows the code: `Interrupts.KeyboardMap` is the table as written. The consequences are recorded under Findings, along with a corrected table.

## Model

| member | source | states |
|---|---|---|
| CInt.TruncDivRemainder | wyoos-lab13-keyboard/src/keyboard.cpp:139-140 | C's `n / d` rounds toward zero: the remainder `n - q*d` is smaller than `d` in magnitude and never has the opposite sign to `n`, and `q` is no larger than `n` in magnitude |
| CInt.TruncDivExact | wyoos-lab13-keyboard/src/keyboard.cpp:171 | when `d` divides `n` exactly, C's division gives back the exact quotient |
| Console.WriteCell | wyoos-lab13-keyboard/src/kernel.cpp:28 | writing `ch` into a cell: the low byte is the character; the attribute byte is kept for codes 0..127 and becomes 0xFF (sign extension) for 128..255 |
| Console.Switch | wyoos-lab13-keyboard/src/kernel.cpp:12-31 | after the `switch` the cursor is at most one past the last column or row, and it is past the last column only while a row is left |
| Console.Settle | wyoos-lab13-keyboard/src/kernel.cpp:33-46 | after the wrap and the clear, the cursor is on screen again (`x < 80`, `y < 25`) |
| Console.PrintText | wyoos-lab13-keyboard/src/kernel.cpp:10-47 | printing any text leaves the cursor on screen |
| Console.PrintTextAppend | wyoos-lab13-keyboard/src/kernel.cpp:10-47 | printing `t` and then `u` gives the same screen as printing `t + u`, when `t` holds no NUL |
| Console.NewlineAndReturn | wyoos-lab13-keyboard/src/kernel.cpp:14-20 | `'\n'` moves to column 0 of the next line (clearing the screen below the last row); `'\r'` moves to column 0; neither writes a cell |
| Console.Backspace | wyoos-lab13-keyboard/src/kernel.cpp:21-26 | `'\b'` at column 0 changes nothing (no wrap to the previous line); otherwise it steps back one column and blanks exactly that cell |
| Console.OrdinaryCharacter | wyoos-lab13-keyboard/src/kernel.cpp:27-46 | any other character writes the cell `80*y+x` and advances the cursor, wrapping at column 80 and clearing the screen after the last row |
| Console.OnlyCursorCellChanges | wyoos-lab13-keyboard/src/kernel.cpp:27-30 | unless the screen is cleared, no cell other than the one under the cursor changes |
| Console.AttributesKept | wyoos-lab13-keyboard/src/kernel.cpp:12-46 | for a character in 0..127, no step changes any cell's attribute byte: not the written cell, the backspaced cell or the cleared screen |
| Console.NegativeCharOverwritesAttribute | wyoos-lab13-keyboard/src/kernel.cpp:28 | a negative `char` (128..255) sets the written cell's attribute byte to 0xFF |
| Console.StopsAtTerminator | wyoos-lab13-keyboard/src/kernel.cpp:10 | printing stops at the first NUL: nothing after it reaches the screen |
| Console.Digits | wyoos-lab13-keyboard/src/kernel.cpp:67-72 | the digits of `n` are decimal digits, the first one is not `'0'`, and there are none for 0 |
| Console.DigitsLength | wyoos-lab13-keyboard/src/kernel.cpp:64-72 | a number below `10^k` has at most `k` digits |
| Console.DecimalTextShape | wyoos-lab13-keyboard/src/kernel.cpp:50-80 | `printNum` prints "0" for zero; otherwise a '-' exactly when the number is negative, then 1 to 10 digits of the magnitude with no leading zero; the text holds no NUL |
| Console.TextConsole.constructor | wyoos-lab13-keyboard/src/kernel.cpp:7-8 | the cursor starts at (0, 0) on the video memory as found |
| Console.TextConsole.ClearAll | wyoos-lab13-keyboard/src/kernel.cpp:41-43 | the nested clearing loops blank every one of the 2000 cells, keeping attributes, and leave the loop counters at 80 and 25 |
| Console.TextConsole.Control | wyoos-lab13-keyboard/src/kernel.cpp:12-31 | the `switch` on one character updates video memory and the cursor as `Switch` says |
| Console.TextConsole.Wrap | wyoos-lab13-keyboard/src/kernel.cpp:33-46 | the wrap and the full clear update video memory and the cursor as `Settle` says |
| Console.TextConsole.Put | wyoos-lab13-keyboard/src/kernel.cpp:12-46 | one iteration of the character loop is `PutChar`, and the cursor stays on screen |
| Console.TextConsole.Print | wyoos-lab13-keyboard/src/kernel.cpp:5-48 | `printf(str)` leaves the screen `PrintText(old screen, str)` |
| Console.TextConsole.PrintNum | wyoos-lab13-keyboard/src/kernel.cpp:50-81 | `printNum(num)` for `num != INT32_MIN` leaves the screen as if `DecimalText(num)` had been printed |
| Console.TextConsole.PrintBackwards | wyoos-lab13-keyboard/src/kernel.cpp:74-80 | printing the buffer from `pos-1` down to 0, one `printf` per digit, prints the reversed buffer |
| Console.DigitBuffer | wyoos-lab13-keyboard/src/kernel.cpp:64-72 | the digit loop leaves the digits of `n` in reverse in the 16-byte buffer and uses 1 to 10 of its bytes |
| Keyboard.FindSquareRoot | wyoos-lab13-keyboard/src/keyboard.cpp:127-135 | the brute-force search returns the positive square root of a perfect square and 0 for anything else |
| Keyboard.PerfectRootSpec | wyoos-lab13-keyboard/src/keyboard.cpp:127-135 | a positive result squares to the discriminant; a zero result means no positive integer squares to it |
| Keyboard.ParseExamples | wyoos-lab13-keyboard/src/keyboard.cpp:29-47 | the parse reads "42" as 42, "-7" as -7, "12x3" as 123, "4-2" as 42, and the empty line as 0 |
| Keyboard.MagnitudeSkipsNonDigit | wyoos-lab13-keyboard/src/keyboard.cpp:39-45 | a non-digit anywhere in the line makes no difference to the number |
| Keyboard.MagnitudePrefixBound | wyoos-lab13-keyboard/src/keyboard.cpp:39-45 | every intermediate value of the fold `n*10 + d` lies between 0 and the final value, so a bound on the result rules out overflow in the loop |
| Keyboard.MagnitudeOfDigits | wyoos-lab13-keyboard/src/keyboard.cpp:39-45 | the fold over the digits `printNum` writes for `n` gives back `n` |
| Keyboard.ParseInvertsDecimalText | wyoos-lab13-keyboard/src/keyboard.cpp:29-47 | the parse inverts `printNum`: a printed number typed back in reads as itself |
| Keyboard.IntegerRootsReported | wyoos-lab13-keyboard/src/keyboard.cpp:117-175 | every integer root of a quadratic equation (`a != 0`) is among the roots the solver prints, so when it prints "square roots" or "complex" there is no integer root |
| Keyboard.ExactRootsSolve | wyoos-lab13-keyboard/src/keyboard.cpp:137-171 | when the truncating division is exact, every root the solver prints satisfies the equation |
| Keyboard.LinearCase | wyoos-lab13-keyboard/src/keyboard.cpp:101-113 | for `a == 0`: "No solution" when `b == 0`, otherwise `x = -c/b`, which solves `bx + c = 0` whenever `b` divides `c` |
| Keyboard.SolveExample | wyoos-lab13-keyboard/src/keyboard.cpp:117-140 | `x^2 - 4 = 0` has discriminant 16 and the roots 2 and -2 |
| Keyboard.ExampleText | wyoos-lab13-keyboard/src/keyboard.cpp:93-147 | for `x^2 - 4 = 0` the solver echoes "1x^2 + 0x + -4 = 0" and prints the discriminant 16, "Two real solutions exist", `x1 = 2` and `x2 = -2` |
| Keyboard.Feed | wyoos-lab13-keyboard/src/keyboard.cpp:14-89 | over any sequence of keys, `0 <= input_pos <= 31`, the stage stays in 0..3 and no line is left pending, so the terminator write is always in bounds |
| Keyboard.KeyStepWellFormed | wyoos-lab13-keyboard/src/keyboard.cpp:79-83 | one key keeps `0 <= input_pos <= 31`, because a printable key is stored only while `input_pos < 31` |
| Keyboard.BackspaceStep | wyoos-lab13-keyboard/src/keyboard.cpp:71-78 | backspace on an empty line changes nothing; otherwise it lowers `input_pos` by one, echoes `"\b \b"`, and leaves the buffer and everything else unchanged |
| Keyboard.SubmitStep | wyoos-lab13-keyboard/src/keyboard.cpp:23-70 | Enter always ends with `input_pos == 0` and no pending input. Stage 0 stores `a` and prompts for `b`; stage 1 stores `b` and prompts for `c`; stage 2 runs the solver on `c` and resets unless `a == 0`; stage 3 drops the number |
| Keyboard.QuitIsFinal | wyoos-lab13-keyboard/src/keyboard.cpp:16-22 | `q` or `Q` halts the machine from any state, and no key after it has any effect |
| Keyboard.StageThreeSticks | wyoos-lab13-keyboard/src/keyboard.cpp:49-66 | once in stage 3 (after `a == 0`), no sequence of keys changes the stage or the coefficients |
| Keyboard.TypingFillsLine | wyoos-lab13-keyboard/src/keyboard.cpp:79-88 | typing printable characters that fit puts them in the buffer at the cursor, moves the cursor by their number and echoes them |
| Keyboard.EnterStoresTypedNumber | wyoos-lab13-keyboard/src/keyboard.cpp:23-70 | typing the decimal text of `n` on an empty line and pressing Enter stores exactly `n` as the current coefficient |
| Keyboard.NoSubmitKeepsCoefficients | wyoos-lab13-keyboard/src/keyboard.cpp:23-70 | keys without Enter never store a coefficient or move the stage |
| Keyboard.ThreeCoefficients | wyoos-lab13-keyboard/src/keyboard.cpp:49-66 | entering three coefficient lines from stage 0 echoes them with the prompts, prints the solver's text for exactly those values, and returns to stage 0 (or stays in stage 3 when `a == 0`) |
| Keyboard.LineInput.constructor | wyoos-lab13-keyboard/src/keyboard.cpp:7-12 | the statics start zeroed: empty buffer, cursor 0, stage 0, coefficients 0 |
| Keyboard.LineInput.Start | wyoos-lab13-keyboard/src/keyboard.cpp:186-193 | `StartQuadraticSolver` prints the banner and the first prompt and sets the stage to 0 |
| Keyboard.LineInput.ProcessKey | wyoos-lab13-keyboard/src/keyboard.cpp:14-89 | `ProcessKeyboardInput` changes the statics and the output as `KeyStep` says, and keeps the cursor in 0..31 |
| Keyboard.LineInput.SubmitLine | wyoos-lab13-keyboard/src/keyboard.cpp:23-70 | the Enter branch terminates, parses and stores the line and clears it, as `Submit` says |
| Keyboard.LineInput.StoreNumber | wyoos-lab13-keyboard/src/keyboard.cpp:49-66 | the `switch` on the stage, as `Store` says |
| Keyboard.LineInput.ParseLine | wyoos-lab13-keyboard/src/keyboard.cpp:29-47 | the parse loop over the first `input_pos` cells computes `ParseValue` of the line |
| Keyboard.LineInput.SolveEquation | wyoos-lab13-keyboard/src/keyboard.cpp:91-184 | `SolveQuadraticEquation` prints `SolverText(a, b, c)` and resets the stage and coefficients unless `a == 0` |
| Keyboard.LineInput.ResetCoefficients | wyoos-lab13-keyboard/src/keyboard.cpp:182-183 | the stage and `a`, `b`, `c` are set back to 0 and nothing else changes |
| Keyboard.SolverTextFor | wyoos-lab13-keyboard/src/keyboard.cpp:93-99 | the echoed equation followed by the report is `SolverText(a, b, c)` |
| Keyboard.ReportFor | wyoos-lab13-keyboard/src/keyboard.cpp:101-181 | the branch on `a == 0` and the discriminant print `Report(a, b, c)` |
| Keyboard.RootsReport | wyoos-lab13-keyboard/src/keyboard.cpp:123-179 | the branch on the sign of the discriminant prints the roots that `Solve` gives |
| Interrupts.MakeGate | wyoos-lab13-keyboard/src/interrupts.cpp:11-17 | the gate reads back its handler as `high*65536 + low`, has the selector, reserved 0 and the present bit; for a 4-bit type it also reads back `dpl & 3` and the type |
| Interrupts.GateBytesRoundTrip | wyoos-lab13-keyboard/src/interrupts.h:16-23 | the packed eight-byte layout loses nothing: a gate read back from its bytes is itself |
| Interrupts.SetInterruptDescriptorTableEntry | wyoos-lab13-keyboard/src/interrupts.cpp:7-18 | only slot `interrupt` changes; the other 255 slots keep their value |
| Interrupts.SetupTableShape | wyoos-lab13-keyboard/src/interrupts.cpp:29-37 | after construction every slot is a present interrupt gate with privilege 0 and the code segment; slots `offset` and `offset+1` (mod 256) lead to the request stubs and all others to the ignore stub |
| Interrupts.FillTable | wyoos-lab13-keyboard/src/interrupts.cpp:29-37 | the loop from 255 down to 1, then slot 0, then the two request slots, leaves the table `SetupTable(offset, selector, stubs)` |
| Interrupts.TableRegister | wyoos-lab13-keyboard/src/interrupts.cpp:54-56 | the table register's size is 2047, which is 256 eight-byte gates minus one, and its base is the table's address |
| Interrupts.InitConfigures | wyoos-lab13-keyboard/src/interrupts.cpp:39-52 | whatever state the 8259As were in, the ten writes leave them cascaded on line 2, in 8086 mode, unmasked, with vectors from `offset` and `offset+8` (as bytes) |
| Interrupts.MasterRequestAcknowledged | wyoos-lab13-keyboard/src/interrupts.cpp:82-91 | for an offset that is a multiple of 8 and at most 240, with nothing else in service, a request on master line k arrives as vector `offset+k`; the dispatcher's single EOI to port 0x20 ends it and leaves both chips as they were |
| Interrupts.SlaveRequestAcknowledged | wyoos-lab13-keyboard/src/interrupts.cpp:82-91 | for an offset that is a multiple of 8 and at most 240, with nothing else in service, a request on slave line k arrives as vector `offset+8+k`; the EOIs to ports 0x20 and 0xA0 end it on both chips, which are then as they were |
| Interrupts.UnalignedOffsetMissesKeyboard | wyoos-lab13-keyboard/src/interrupts.cpp:42-43 | for an offset that is not a multiple of 8, the 8259A drops the low three bits, so the keyboard request arrives as `offset - offset%8 + 1`, below the `offset+1` the dispatcher tests at line 84 (0x21 for offset 0x21) |
| Interrupts.DecodeAll | wyoos-lab13-keyboard/src/interrupts.cpp:105-108 | the keys forwarded for a run of scan codes all come from the table, and there are no more of them than codes |
| Interrupts.KeyboardMapEntries | wyoos-lab13-keyboard/src/interrupts.cpp:102-108 | the table has 58 entries; 2 is '1', 11 is '0', 12 is '-', 16 is 'q'; 14 and 28 are ' ' and 57 is NUL; every code from 58 up is dropped |
| Interrupts.KeyboardMapHasNoEditKey | wyoos-lab13-keyboard/src/interrupts.cpp:102-103 | no entry of the table as written is `'\n'`, `'\r'` or `'\b'` |
| Interrupts.AsWrittenNeverSubmits | wyoos-lab13-keyboard/src/interrupts.cpp:97-108 | with the table as written, no run of keyboard interrupts ever stores a coefficient or moves the stage |
| Interrupts.CorrectedDecodesLine | wyoos-lab13-keyboard/src/interrupts.cpp:102-108 | through the corrected table, the set-1 make codes of a line of digits, '-' and Enter decode back to that line |
| Interrupts.CorrectedScenario | wyoos-lab13-keyboard/src/interrupts.cpp:80-108 | with the corrected table, the keyboard interrupts for three coefficient lines echo them with the prompts, print the solver's text for exactly those values, and reset the stage (stage 3 when `a == 0`) |
| Interrupts.AfterScanCode | wyoos-lab13-keyboard/src/interrupts.cpp:97-108 | one keyboard interrupt keeps the line editor's cursor in 0..31 and its stage in 0..3 |
| Interrupts.ScanCodes | wyoos-lab13-keyboard/src/interrupts.cpp:97-108 | any run of keyboard interrupts keeps the line editor's cursor in 0..31 and its stage in 0..3 |
| Interrupts.ScanCodesFeed | wyoos-lab13-keyboard/src/interrupts.cpp:97-108 | interrupt by interrupt, the editor receives exactly the keys the table gives for the scan codes, in order |
| Interrupts.InterruptManager.constructor | wyoos-lab13-keyboard/src/interrupts.cpp:20-58 | the table is `SetupTable`, the port log is exactly the ten initialization writes in order, the table register is loaded, and interrupts are off (the boot state, which the constructor does not change) |
| Interrupts.InterruptManager.InitializeControllers | wyoos-lab13-keyboard/src/interrupts.cpp:39-52 | appends (0x20,0x11), (0xA0,0x11), (0x21,off), (0xA1,off+8), (0x21,4), (0xA1,2), (0x21,1), (0xA1,1), (0x21,0), (0xA1,0) to the port log, with the offsets as bytes |
| Interrupts.InterruptManager.Write | wyoos-lab13-keyboard/src/port.cpp:42-45 | a byte written to a port is appended to the log and nothing else changes |
| Interrupts.InterruptManager.HardwareInterruptOffset | wyoos-lab13-keyboard/src/interrupts.cpp:65-68 | returns the offset given at construction |
| Interrupts.InterruptManager.Activate | wyoos-lab13-keyboard/src/interrupts.cpp:70-73 | `sti`: interrupts are enabled, and the port log and table register are unchanged |
| Interrupts.InterruptManager.Deactivate | wyoos-lab13-keyboard/src/interrupts.cpp:75-78 | `cli`: interrupts are disabled, and the port log and table register are unchanged |
| Interrupts.InterruptManager.HandleKeyboardInterrupt | wyoos-lab13-keyboard/src/interrupts.cpp:97-109 | one read of port 0x60 is logged; a code below 58 hands the table's key to the editor and any other code changes nothing; after a quit key (`cli` inside the editor) interrupts are off |
| Interrupts.InterruptManager.HandleInterrupt | wyoos-lab13-keyboard/src/interrupts.cpp:80-95 | returns `esp` unchanged. The keyboard vector reads port 0x60 and runs the editor first. A vector in `[off, off+16)` gets an EOI to 0x20, plus one to 0xA0 exactly when it is `>= off+8`; any other vector gets none. After a quit key, interrupts are off and no EOI is written |

## Left out

- `port.cpp` and `port.h`: `outb` and `inb` become entries of a log of port traffic (`Ports.PortIo`). The value a read returns (the scan code) is a parameter of the keyboard handler. The "slow" write's delay jumps only affect timing, which the log does not record.
- `cli`, `sti`, `hlt` and `lidt` are modelled as state, not as CPU effects. Interrupts on or off is the flag `interruptsEnabled`. The loaded operand is the field `tableRegister`. The halted CPU is the editor's `halted` flag; the model stops there, because after it the source never returns to the dispatcher.
- Interrupts.InterruptManager.constructor: the source runs no `cli`. The interrupt flag starts as `false` because that is the CPU state the boot loader enters with. The constructor itself does not set it.
- The assembly stubs `IgnoreInterruptRequest`, `HandleInterruptRequest0x00` and `HandleInterruptRequest0x01` are three opaque 32-bit addresses (`Interrupts.Stubs`). Their code is not part of this model.
- The interrupt descriptor table is a `static` array in the source. Here it is an array handed to the constructor, together with its address.
- `GlobalDescriptorTable` is not part of this model. The code-segment selector is a constructor parameter, already narrowed from `uint32_t` to the `uint16_t` the entry setter takes.
- The `ActiveInterruptManager` singleton is declared in `interrupts.h` but never defined or assigned, so it is not modelled.
- Interrupts.InterruptManager.HandleInterrupt: `interrupts.h` declares it `static`, but it uses instance fields. It is modelled as an instance method.
- Interrupts.InterruptManager.HandleInterrupt: the keyboard table is a field set at construction rather than a static local. This lets the same manager be run with the table as written or with the corrected one.
- The 8259A keeps only the top five bits of a vector base, so the source works only for offsets that are a multiple of 8. The constructor accepts any `uint16_t` and checks nothing, and its only caller passes 0x20. Interrupts.MasterRequestAcknowledged and Interrupts.SlaveRequestAcknowledged are stated for aligned offsets of at most 240; Interrupts.UnalignedOffsetMissesKeyboard shows what goes wrong otherwise.
- The destructor only calls `Deactivate`, which is modelled.
- `callConstructors`, `kernelMain` and the idle loop are boot glue, not modelled.
- Preemption and concurrency: each interrupt dispatch is one atomic step.
- Undefined behaviour in C is excluded by preconditions; the model never computes wrap-around.
  - Overflow of `number*10 + d` is excluded by `Keyboard.KeyDefined`.
  - Overflow of `b*b - 4*a*c`, overflow of the root search's `i*i`, and negating `INT32_MIN` in `printNum` are excluded by `Keyboard.SolverDefined` and `CInt.Negatable`.
- Keyboard.LineInput.ProcessKey: printed text is recorded as one output string rather than being written to video memory directly. `Console.PrintText` and `Console.PrintTextAppend` connect that string to the screen.
- Keyboard.LineInput.ProcessKey: quit is modelled as the `halted` flag set after "Shutting down..." is printed. The `hlt` and the endless loop after it are not modelled, and the method requires the editor not to be halted already.
- Keyboard.LineInput.SolveEquation: the printed pieces are gathered in order and appended in one step. The text is the same, but the intermediate screens between two `printf` calls are not modelled.
- Console.TextConsole.PrintBackwards: each digit is printed as the one-character text `[ch]`, not as the two-byte array `ch, '\0'` the source builds. Printing stops at the NUL, so the result is the same.

## Findings

| source | as written | input that shows it | evidently intended | confidence | as-written member | corrected member |
|---|---|---|---|---|---|---|
| wyoos-lab13-keyboard/src/interrupts.cpp:102-103 | the scan-code table maps Backspace (0x0E) and Enter (0x1C) to `' '` and the space bar (0x39) to NUL; no entry is `'\n'`, `'\r'` or `'\b'` | scan codes 0x02 (`1`) then 0x1C (Enter): the editor receives `'1'` then `' '`, so it echoes a space and never submits a line; no coefficient is ever stored | Backspace gives `'\b'`, Enter gives `'\n'` and the space bar gives `' '`, which are the keys `ProcessKeyboardInput` handles | not executed | Interrupts.AsWrittenNeverSubmits | Interrupts.CorrectedScenario |
