/**
 * The interrupt manager of `interrupts.cpp`: the 256-entry interrupt
 * descriptor table of 32-bit interrupt gates, the initialization of the two
 * cascaded 8259A controllers, the dispatcher that acknowledges hardware
 * interrupts, and the keyboard handler that turns a scan code into a key for
 * the line editor of module Keyboard.
 *
 * Port traffic is the log of module Ports; the assembly entry stubs are
 * three opaque 32-bit addresses; the code-segment selector comes from the
 * global descriptor table, which is not part of this model, as a parameter.
 */
module Interrupts {
  import opened Ports
  import Pic8259
  import Keyboard
  import Console
  import CInt

  datatype Option<T> = None | Some(value: T)

  // ---------------------------------------------------------------------
  // Gate descriptors

  /** One entry of the table, field by field as the packed C struct lays it out. */
  datatype GateDescriptor = GateDescriptor(
    handlerAddressLowBits: bv16,
    gdtCodeSegmentSelector: bv16,
    reserved: bv8,
    access: bv8,
    handlerAddressHighBits: bv16)

  /** The operand of `lidt`: the table's size in bytes minus one, and its address. */
  datatype TablePointer = TablePointer(size: int, base: bv32)

  const Entries := 256
  const GateSize := 8
  const Present: bv8 := 0x80
  const InterruptGate: bv8 := 0xE

  /** The handler address a gate leads to: high * 65536 + low, in 32-bit arithmetic. */
  function HandlerOf(g: GateDescriptor): bv32 {
    g.handlerAddressHighBits as bv32 * 0x1_0000 + g.handlerAddressLowBits as bv32
  }

  function PrivilegeOf(g: GateDescriptor): bv8 {
    (g.access >> 5) & 3
  }

  function TypeOf(g: GateDescriptor): bv8 {
    g.access & 0xF
  }

  predicate IsPresent(g: GateDescriptor) {
    g.access & Present != 0
  }

  /**
   * The descriptor `SetInterruptDescriptorTableEntry` writes: the handler
   * split into halves, the selector, reserved zero, and the access byte
   * present | DPL << 5 | type. The gate always reads back its handler and is
   * present; for a 4-bit type the privilege and type read back too.
   */
  function MakeGate(handler: bv32, selector: bv16, dpl: bv8, gateType: bv8): (g: GateDescriptor)
    ensures HandlerOf(g) == handler
    ensures g.gdtCodeSegmentSelector == selector && g.reserved == 0 && IsPresent(g)
    ensures gateType < 16 ==> PrivilegeOf(g) == dpl & 3 && TypeOf(g) == gateType
  {
    GateDescriptor(
      (handler & 0xFFFF) as bv16,
      selector,
      0,
      Present | ((dpl & 3) << 5) | gateType,
      ((handler >> 16) & 0xFFFF) as bv16)
  }

  /**
   * The eight bytes of a descriptor in memory, little-endian: handler bits
   * 0..15, selector, reserved, access, handler bits 16..31 (the 32-bit
   * interrupt-gate layout of section 6.11 of the Intel SDM, volume 3A).
   */
  function GateBytes(g: GateDescriptor): (r: seq<bv8>)
    ensures |r| == GateSize
  {
    [ (g.handlerAddressLowBits & 0xFF) as bv8, (g.handlerAddressLowBits >> 8) as bv8,
      (g.gdtCodeSegmentSelector & 0xFF) as bv8, (g.gdtCodeSegmentSelector >> 8) as bv8,
      g.reserved, g.access,
      (g.handlerAddressHighBits & 0xFF) as bv8, (g.handlerAddressHighBits >> 8) as bv8 ]
  }

  function Word(low: bv8, high: bv8): bv16 {
    (high as bv16 << 8) | low as bv16
  }

  /** Reading a descriptor back from its eight bytes. */
  function GateFromBytes(b: seq<bv8>): GateDescriptor
    requires |b| == GateSize
  {
    GateDescriptor(Word(b[0], b[1]), Word(b[2], b[3]), b[4], b[5], Word(b[6], b[7]))
  }

  lemma WordHalves(w: bv16)
    ensures Word((w & 0xFF) as bv8, (w >> 8) as bv8) == w
  {
  }

  /** The byte layout loses nothing: a descriptor read back from its bytes is itself. */
  lemma GateBytesRoundTrip(g: GateDescriptor)
    ensures GateFromBytes(GateBytes(g)) == g
  {
    WordHalves(g.handlerAddressLowBits);
    WordHalves(g.gdtCodeSegmentSelector);
    WordHalves(g.handlerAddressHighBits);
  }

  /** `SetInterruptDescriptorTableEntry`: overwrite one slot, leave the other 255 alone. */
  method SetInterruptDescriptorTableEntry(
    table: array<GateDescriptor>, interrupt: Byte, selector: bv16, handler: bv32, dpl: bv8, gateType: bv8)
    requires table.Length == Entries
    modifies table
    ensures table[..] == old(table[..])[interrupt := MakeGate(handler, selector, dpl, gateType)]
  {
    table[interrupt] := MakeGate(handler, selector, dpl, gateType);
  }

  // ---------------------------------------------------------------------
  // The table after construction

  /** The addresses of the assembly entry points. */
  datatype Stubs = Stubs(ignore: bv32, request0: bv32, request1: bv32)

  /** The handler the constructor leaves in slot i. */
  function SetupHandler(offset: nat, stubs: Stubs, i: int): bv32 {
    if i == ToByte(offset + 1) then stubs.request1
    else if i == ToByte(offset) then stubs.request0
    else stubs.ignore
  }

  function SetupTable(offset: nat, selector: bv16, stubs: Stubs): (t: seq<GateDescriptor>)
    ensures |t| == Entries
  {
    seq(Entries, i => MakeGate(SetupHandler(offset, stubs, i), selector, 0, InterruptGate))
  }

  /**
   * After construction every slot is a present interrupt gate of privilege 0
   * with the code segment; slots offset and offset + 1 (taken as bytes) lead
   * to the two request stubs and every other slot to the ignore stub.
   */
  lemma SetupTableShape(offset: nat, selector: bv16, stubs: Stubs, i: int)
    requires 0 <= i < Entries
    ensures var g := SetupTable(offset, selector, stubs)[i];
      && IsPresent(g) && g.gdtCodeSegmentSelector == selector && g.reserved == 0
      && PrivilegeOf(g) == 0 && TypeOf(g) == InterruptGate
      && (i == ToByte(offset) ==> HandlerOf(g) == stubs.request0)
      && (i == ToByte(offset + 1) ==> HandlerOf(g) == stubs.request1)
      && (i != ToByte(offset) && i != ToByte(offset + 1) ==> HandlerOf(g) == stubs.ignore)
  {
    assert ToByte(offset) != ToByte(offset + 1);
  }

  /** The operand of `lidt`: 256 eight-byte gates, so 2047, and the table's address. */
  function TableRegister(tableAddress: bv32): (r: TablePointer)
    ensures r.size == 2047 && r.base == tableAddress
    ensures r.size == Entries * |GateBytes(MakeGate(0, 0, 0, 0))| - 1
  {
    TablePointer(Entries * GateSize - 1, tableAddress)
  }

  // ---------------------------------------------------------------------
  // Controller initialization and acknowledgement

  /** The constructor's ten writes to the two controllers, in order. */
  function InitTrace(offset: nat): seq<PortIo> {
    [ Out(MasterCommandPort, 0x11), Out(SlaveCommandPort, 0x11),
      Out(MasterDataPort, ToByte(offset)), Out(SlaveDataPort, ToByte(offset + 8)),
      Out(MasterDataPort, 0x04), Out(SlaveDataPort, 0x02),
      Out(MasterDataPort, 0x01), Out(SlaveDataPort, 0x01),
      Out(MasterDataPort, 0x00), Out(SlaveDataPort, 0x00) ]
  }

  /**
   * Whatever state the controllers were in, the constructor's writes leave
   * them initialized: cascaded on line 2, 8086 mode, nothing masked, master
   * vectors from the offset and slave vectors from offset + 8 (as bytes).
   */
  lemma InitConfigures(p: Pic8259.Pair, offset: nat)
    ensures Pic8259.Configured(Pic8259.Run(p, InitTrace(offset)), ToByte(offset), ToByte(offset + 8))
  {
    var icw1 := [Out(MasterCommandPort, 0x11), Out(SlaveCommandPort, 0x11)];
    var icw2 := [Out(MasterDataPort, ToByte(offset)), Out(SlaveDataPort, ToByte(offset + 8))];
    var icw3 := [Out(MasterDataPort, 0x04), Out(SlaveDataPort, 0x02)];
    var icw4 := [Out(MasterDataPort, 0x01), Out(SlaveDataPort, 0x01)];
    var ocw1 := [Out(MasterDataPort, 0x00), Out(SlaveDataPort, 0x00)];
    assert InitTrace(offset) == icw1 + icw2 + icw3 + icw4 + ocw1;
    Pic8259.RunAppend(p, icw1, icw2);
    Pic8259.RunAppend(p, icw1 + icw2, icw3);
    Pic8259.RunAppend(p, icw1 + icw2 + icw3, icw4);
    Pic8259.RunAppend(p, icw1 + icw2 + icw3 + icw4, ocw1);
    var p1 := Pic8259.Run(p, icw1);
    RunPair(p, icw1);
    assert p1 == Pic8259.Pair(Pic8259.CommandWrite(p.master, 0x11), Pic8259.CommandWrite(p.slave, 0x11));
    var p2 := Pic8259.Run(p1, icw2);
    RunPair(p1, icw2);
    assert p2 == Pic8259.Pair(Pic8259.DataWrite(p1.master, ToByte(offset)), Pic8259.DataWrite(p1.slave, ToByte(offset + 8)));
    var p3 := Pic8259.Run(p2, icw3);
    RunPair(p2, icw3);
    assert p3 == Pic8259.Pair(Pic8259.DataWrite(p2.master, 0x04), Pic8259.DataWrite(p2.slave, 0x02));
    var p4 := Pic8259.Run(p3, icw4);
    RunPair(p3, icw4);
    assert p4 == Pic8259.Pair(Pic8259.DataWrite(p3.master, 0x01), Pic8259.DataWrite(p3.slave, 0x01));
    var p5 := Pic8259.Run(p4, ocw1);
    RunPair(p4, ocw1);
    assert p5 == Pic8259.Pair(Pic8259.DataWrite(p4.master, 0x00), Pic8259.DataWrite(p4.slave, 0x00));
    ChipInitialized(p.master, ToByte(offset), 0x04);
    ChipInitialized(p.slave, ToByte(offset + 8), 0x02);
  }

  /**
   * One chip through ICW1 0x11 (edge triggered, cascade, ICW4 needed), ICW2
   * base, ICW3, ICW4 0x01 (8086 mode) and OCW1 0x00.
   */
  lemma ChipInitialized(c: Pic8259.Chip, base: Byte, cascade: Byte)
    ensures var d := Pic8259.DataWrite(Pic8259.DataWrite(Pic8259.DataWrite(Pic8259.DataWrite(
                       Pic8259.CommandWrite(c, 0x11), base), cascade), 0x01), 0x00);
      && d.phase == Pic8259.Ready && d.vectorBase == Pic8259.VectorBase(base) && d.cascade == cascade
      && d.icw4 == 0x01 && d.mask == 0x00
  {
    assert Pic8259.HasBit(0x11, 0x10) && !Pic8259.HasBit(0x11, 0x02) && Pic8259.HasBit(0x11, 0x01);
    var c1 := Pic8259.CommandWrite(c, 0x11);
    assert c1.phase == Pic8259.AwaitIcw2 && c1.icw1 == 0x11;
    var c2 := Pic8259.DataWrite(c1, base);
    assert c2.phase == Pic8259.AwaitIcw3 && c2.vectorBase == Pic8259.VectorBase(base);
    var c3 := Pic8259.DataWrite(c2, cascade);
    assert c3.phase == Pic8259.AwaitIcw4;
  }

  /** Two writes in a row. */
  lemma RunPair(p: Pic8259.Pair, t: seq<PortIo>)
    requires |t| == 2
    ensures Pic8259.Run(p, t) == Pic8259.Apply(Pic8259.Apply(p, t[0]), t[1])
  {
    var p1 := Pic8259.Apply(p, t[0]);
    assert Pic8259.Run(p, t) == Pic8259.Run(p1, t[1..]);
    assert t[1..][0] == t[1] && t[1..][1..] == [];
    assert Pic8259.Run(p1, t[1..]) == Pic8259.Run(Pic8259.Apply(p1, t[1]), []);
  }

  /**
   * The dispatcher's end-of-interrupt writes for vector n: for a hardware
   * vector (offset..offset+15) a non-specific EOI to the master, and to the
   * slave as well exactly when the vector is one of the slave's; nothing for
   * any other vector.
   */
  function Acknowledge(offset: nat, n: int): seq<PortIo> {
    if offset <= n < offset + 16 then
      [Out(MasterCommandPort, 0x20)] + (if offset + 8 <= n then [Out(SlaveCommandPort, 0x20)] else [])
    else []
  }

  /**
   * Against the controller model: once initialized with an offset that is a
   * multiple of 8 and leaves room for 16 vectors, a request on master line k
   * arrives as vector offset + k and its acknowledgement leaves both chips as
   * they were; the slave is not touched.
   */
  lemma MasterRequestAcknowledged(p: Pic8259.Pair, offset: nat, k: int)
    requires offset % 8 == 0 && offset + 16 <= 256
    requires Pic8259.Configured(p, ToByte(offset), ToByte(offset + 8)) && Pic8259.Idle(p)
    requires 0 <= k < 8 && k != 2
    ensures var (q, v) := Pic8259.RaiseMaster(p, k);
      v == offset + k && Pic8259.Run(q, Acknowledge(offset, v)) == p
  {
    BaseKept(offset);
    var (q, v) := Pic8259.RaiseMaster(p, k);
    var ack := Acknowledge(offset, v);
    assert ack == [Out(MasterCommandPort, 0x20)];
    assert ack[1..] == [];
    EndOfInterrupt(q.master, k);
    assert q.master.(inService := {}) == p.master;
  }

  /**
   * A request on slave line k arrives as vector offset + 8 + k; its
   * acknowledgement ends it on both chips, which are then as they were.
   */
  lemma SlaveRequestAcknowledged(p: Pic8259.Pair, offset: nat, k: int)
    requires offset % 8 == 0 && offset + 16 <= 256
    requires Pic8259.Configured(p, ToByte(offset), ToByte(offset + 8)) && Pic8259.Idle(p)
    requires 0 <= k < 8
    ensures var (q, v) := Pic8259.RaiseSlave(p, k);
      v == offset + 8 + k && Pic8259.Run(q, Acknowledge(offset, v)) == p
  {
    BaseKept(offset);
    NextAligned(offset);
    BaseKept(offset + 8);
    var (q, v) := Pic8259.RaiseSlave(p, k);
    var ack := Acknowledge(offset, v);
    assert ack == [Out(MasterCommandPort, 0x20), Out(SlaveCommandPort, 0x20)];
    RunPair(q, ack);
    EndOfInterrupt(q.master, 2);
    EndOfInterrupt(q.slave, k);
    assert q.master.(inService := {}) == p.master;
    assert q.slave.(inService := {}) == p.slave;
  }

  /**
   * The 8259A keeps only the top five bits of the vector base, so with an
   * offset that is not a multiple of 8 requests do not arrive where the
   * dispatcher looks: the keyboard's line 1 arrives below `offset + 1`, the
   * vector the dispatcher tests for the keyboard (with offset 0x21, as 0x21).
   */
  lemma UnalignedOffsetMissesKeyboard(p: Pic8259.Pair, offset: nat)
    requires offset % 8 != 0 && offset + 16 <= 256
    requires Pic8259.Configured(p, ToByte(offset), ToByte(offset + 8)) && Pic8259.Idle(p)
    ensures var v := Pic8259.RaiseMaster(p, 1).1;
      v == offset - offset % 8 + 1 && v < offset + 1
  {
    assert ToByte(offset) == offset;
    assert Pic8259.RaiseMaster(p, 1).1 == p.master.vectorBase + 1;
  }

  /** A non-specific EOI to a chip with a single line in service ends that line. */
  lemma EndOfInterrupt(c: Pic8259.Chip, line: int)
    requires 0 <= line < 8 && c.inService == {line}
    ensures Pic8259.CommandWrite(c, 0x20) == c.(inService := {})
  {
    var h := Pic8259.Highest(c.inService, 0);
    assert h == line;
  }

  lemma NextAligned(n: nat)
    requires n % 8 == 0
    ensures (n + 8) % 8 == 0
  {
  }

  /** An offset that is a multiple of 8 survives ICW2's rounding. */
  lemma BaseKept(offset: nat)
    requires offset % 8 == 0 && offset < 256
    ensures ToByte(offset) == offset && Pic8259.VectorBase(ToByte(offset)) == offset
  {
  }

  // ---------------------------------------------------------------------
  // Scan codes

  /**
   * The keyboard table as written: the 57 characters of the string literal
   * and its terminating NUL, indexed by scan code 0..57. The literal is
   * split into its four keyboard rows (scan codes 0-15, 16-29, 30-42, 43-57).
   */
  const Row0 := "  1234567890-=  "
  const Row1 := "qwertyuiop[]  "
  const Row2 := "asdfghjkl;'` "
  const Row3 := "\\zxcvbnm,./   \0"
  const KeyboardMap: seq<char> := Row0 + Row1 + Row2 + Row3

  /**
   * The table with the entries for Backspace (scan code 0x0E), Enter (0x1C)
   * and the space bar (0x39) the line editor evidently expects.
   */
  const CorrectedKeyboardMap: seq<char> := KeyboardMap[14 := Console.BS][28 := '\n'][57 := ' ']

  /** The key a scan code produces: table codes forward their entry, the rest nothing. */
  function Decode(keymap: seq<char>, scancode: Byte): Option<char>
    requires |keymap| == 58
  {
    if scancode < 58 then Some(keymap[scancode]) else None
  }

  /** The keys a sequence of scan codes forwards to the line editor, in order. */
  function DecodeAll(keymap: seq<char>, codes: seq<Byte>): (keys: seq<char>)
    requires |keymap| == 58
    ensures forall i :: 0 <= i < |keys| ==> keys[i] in keymap
    ensures |keys| <= |codes|
  {
    if codes == [] then []
    else
      var rest := DecodeAll(keymap, codes[1..]);
      match Decode(keymap, codes[0])
      case Some(k) => [k] + rest
      case None => rest
  }

  /** Entries of the table as written, among them the ones the line editor cares about. */
  lemma KeyboardMapEntries()
    ensures |KeyboardMap| == 58
    ensures KeyboardMap[2] == '1' && KeyboardMap[11] == '0' && KeyboardMap[12] == '-'
    ensures KeyboardMap[5] == '4' && KeyboardMap[16] == 'q'
    ensures KeyboardMap[14] == ' ' && KeyboardMap[28] == ' ' && KeyboardMap[57] == '\0'
    ensures forall sc: Byte :: sc >= 58 ==> Decode(KeyboardMap, sc) == None
  {
  }

  /** The keys the line editor treats as editing commands: Enter, carriage return, backspace. */
  predicate EditKey(ch: char) {
    Keyboard.IsSubmit(ch) || ch == Console.BS
  }

  predicate NoEditKey(t: seq<char>) {
    forall i :: 0 <= i < |t| ==> !EditKey(t[i])
  }

  lemma NoEditKeyAppend(t: seq<char>, u: seq<char>)
    requires NoEditKey(t) && NoEditKey(u)
    ensures NoEditKey(t + u)
  {
    forall i | 0 <= i < |t + u|
      ensures !EditKey((t + u)[i])
    {
      if i >= |t| {
        assert (t + u)[i] == u[i - |t|];
      }
    }
  }

  /** No entry of the table as written is Enter, carriage return or backspace. */
  lemma KeyboardMapHasNoEditKey()
    ensures NoEditKey(KeyboardMap)
  {
    assert NoEditKey(Row0);
    assert NoEditKey(Row1);
    assert NoEditKey(Row2);
    assert NoEditKey(Row3);
    NoEditKeyAppend(Row0, Row1);
    NoEditKeyAppend(Row0 + Row1, Row2);
    NoEditKeyAppend(Row0 + Row1 + Row2, Row3);
  }

  /**
   * With the table as written, no run of keyboard interrupts ever submits a
   * line: whatever is typed, no coefficient is stored and the stage never
   * moves.
   */
  lemma AsWrittenNeverSubmits(s: Keyboard.LineState, codes: seq<Byte>)
    requires Keyboard.WellFormed(s)
    ensures var r := ScanCodes(s, KeyboardMap, codes);
      r.stage == s.stage && r.a == s.a && r.b == s.b && r.c == s.c
  {
    KeyboardMapHasNoEditKey();
    var keys := DecodeAll(KeyboardMap, codes);
    forall i | 0 <= i < |keys|
      ensures !Keyboard.IsSubmit(keys[i])
    {
      var j :| 0 <= j < |KeyboardMap| && KeyboardMap[j] == keys[i];
    }
    ScanCodesFeed(s, KeyboardMap, codes);
    Keyboard.NoSubmitKeepsCoefficients(s, keys);
  }

  lemma DecodeCons(keymap: seq<char>, code: Byte, rest: seq<Byte>)
    requires |keymap| == 58 && code < 58
    ensures DecodeAll(keymap, [code] + rest) == [keymap[code]] + DecodeAll(keymap, rest)
  {
    assert ([code] + rest)[1..] == rest;
  }

  /** The keys a coefficient line is typed with: digits, the minus sign and Enter. */
  predicate NumericKey(ch: char) {
    Console.IsDigit(ch) || ch == '-' || ch == '\n'
  }

  predicate NumericText(t: seq<char>) {
    forall i :: 0 <= i < |t| ==> NumericKey(t[i])
  }

  /** The set-1 make code of such a key: 1..9 are 2..10, 0 is 11, minus 12, Enter 28. */
  function ScanCodeOf(ch: char): (code: Byte)
    requires NumericKey(ch)
    ensures code < 58
  {
    if ch == '\n' then 28 else if ch == '-' then 12 else if ch == '0' then 11
    else if ch == '1' then 2 else if ch == '2' then 3 else if ch == '3' then 4
    else if ch == '4' then 5 else if ch == '5' then 6 else if ch == '6' then 7
    else if ch == '7' then 8 else if ch == '8' then 9 else 10
  }

  /** The make codes of a line of such keys, in order. */
  function ScanCodesOf(t: seq<char>): (codes: seq<Byte>)
    requires NumericText(t)
    ensures |codes| == |t|
  {
    if t == [] then [] else [ScanCodeOf(t[0])] + ScanCodesOf(t[1..])
  }

  /** The corrected table gives each of these keys back from its make code. */
  lemma CorrectedKeyDecodes(ch: char)
    requires NumericKey(ch)
    ensures CorrectedKeyboardMap[ScanCodeOf(ch)] == ch
  {
    var code := ScanCodeOf(ch);
    if ch != '\n' {
      assert KeyboardMap[code] == Row0[code];
    }
  }

  /** Through the corrected table, the make codes of a coefficient line decode to that line. */
  lemma {:induction false} CorrectedDecodesLine(t: seq<char>)
    requires NumericText(t)
    ensures DecodeAll(CorrectedKeyboardMap, ScanCodesOf(t)) == t
  {
    if t != [] {
      CorrectedKeyDecodes(t[0]);
      CorrectedDecodesLine(t[1..]);
      DecodeCons(CorrectedKeyboardMap, ScanCodeOf(t[0]), ScanCodesOf(t[1..]));
      assert [t[0]] + t[1..] == t;
    }
  }

  lemma DecimalTextNumeric(n: int)
    requires CInt.Negatable(n)
    ensures NumericText(Console.DecimalText(n))
  {
    Console.DecimalTextShape(n);
    var t := Console.DecimalText(n);
    if n < 0 {
      forall i | 0 <= i < |t|
        ensures NumericKey(t[i])
      {
        if i > 0 {
          assert t[i] == t[1..][i - 1];
        }
      }
    }
  }

  lemma NumericAppend(t: seq<char>, u: seq<char>)
    requires NumericText(t) && NumericText(u)
    ensures NumericText(t + u)
  {
    forall i | 0 <= i < |t + u|
      ensures NumericKey((t + u)[i])
    {
      if i >= |t| {
        assert (t + u)[i] == u[i - |t|];
      }
    }
  }

  /** Coefficient lines are typed with digits, the minus sign and Enter only. */
  lemma CoefficientLinesNumeric(a: int, b: int, c: int)
    requires CInt.Negatable(a) && CInt.Negatable(b) && CInt.Negatable(c)
    ensures NumericText(Keyboard.CoefficientLines(a, b, c))
  {
    var enter := ['\n'];
    assert NumericText(enter);
    DecimalTextNumeric(a);
    DecimalTextNumeric(b);
    DecimalTextNumeric(c);
    NumericAppend(Console.DecimalText(a), enter);
    NumericAppend(Console.DecimalText(b), enter);
    NumericAppend(Console.DecimalText(c), enter);
    NumericAppend(Keyboard.NumberLine(a), Keyboard.NumberLine(b));
    NumericAppend(Keyboard.NumberLine(a) + Keyboard.NumberLine(b), Keyboard.NumberLine(c));
  }

  /**
   * With the corrected table, the keyboard interrupts for the make codes of
   * the three coefficient lines solve the equation: the editor echoes each
   * line and prompts for the next, prints the solver's report, and returns to
   * the first stage (or stays in stage 3 when a is 0).
   */
  lemma CorrectedScenario(s: Keyboard.LineState, a: int, b: int, c: int)
    requires Keyboard.WellFormed(s) && !s.halted && s.pos == 0 && s.stage == 0
    requires CInt.Negatable(a) && CInt.Negatable(b) && CInt.Negatable(c)
    ensures NumericText(Keyboard.CoefficientLines(a, b, c))
    ensures var r := ScanCodes(s, CorrectedKeyboardMap, ScanCodesOf(Keyboard.CoefficientLines(a, b, c)));
      && r.output == s.output + Console.DecimalText(a) + "\n" + Keyboard.PromptB + Console.DecimalText(b) + "\n"
           + Keyboard.PromptC + Console.DecimalText(c) + "\n" + Keyboard.SolverText(a, b, c)
      && r.pos == 0 && !r.halted
      && (a != 0 ==> r.stage == 0 && r.a == 0 && r.b == 0 && r.c == 0)
      && (a == 0 ==> r.stage == 3 && r.a == a && r.b == b && r.c == c)
  {
    CoefficientLinesNumeric(a, b, c);
    var t := Keyboard.CoefficientLines(a, b, c);
    CorrectedDecodesLine(t);
    ScanCodesFeed(s, CorrectedKeyboardMap, ScanCodesOf(t));
    Keyboard.ThreeCoefficients(s, a, b, c);
  }

  // ---------------------------------------------------------------------
  // Dispatching scan codes to the line editor

  /** What one keyboard interrupt does to the line editor: a table code is a key, the rest nothing. */
  function AfterScanCode(s: Keyboard.LineState, keymap: seq<char>, scancode: Byte): (r: Keyboard.LineState)
    requires |keymap| == 58 && Keyboard.WellFormed(s) && !s.halted
    ensures Keyboard.WellFormed(r)
  {
    match Decode(keymap, scancode)
    case Some(key) =>
      Keyboard.KeyStepWellFormed(s, key);
      Keyboard.KeyStep(s, key)
    case None => s
  }

  /** The line editor after one keyboard interrupt per scan code, until it halts. */
  function ScanCodes(s: Keyboard.LineState, keymap: seq<char>, codes: seq<Byte>): (r: Keyboard.LineState)
    requires |keymap| == 58 && Keyboard.WellFormed(s)
    ensures Keyboard.WellFormed(r)
    decreases |codes|
  {
    if s.halted || codes == [] then s
    else ScanCodes(AfterScanCode(s, keymap, codes[0]), keymap, codes[1..])
  }

  /**
   * Interrupt by interrupt, the dispatcher hands the editor exactly the keys
   * the table gives for the scan codes, in order: the lemmas about
   * `Keyboard.Feed` apply to a run of keyboard interrupts.
   */
  lemma {:induction false} ScanCodesFeed(s: Keyboard.LineState, keymap: seq<char>, codes: seq<Byte>)
    requires |keymap| == 58 && Keyboard.WellFormed(s)
    ensures ScanCodes(s, keymap, codes) == Keyboard.Feed(s, DecodeAll(keymap, codes))
    decreases |codes|
  {
    if s.halted || codes == [] {
    } else {
      var rest := DecodeAll(keymap, codes[1..]);
      ScanCodesFeed(AfterScanCode(s, keymap, codes[0]), keymap, codes[1..]);
      match Decode(keymap, codes[0])
      case Some(key) =>
        var keys := [key] + rest;
        assert keys[0] == key && keys[1..] == rest;
      case None =>
    }
  }

  /**
   * The constructor's table fill: slots 255 down to 1 and then slot 0 get
   * the ignore stub, then slots offset and offset + 1 (as bytes) the two
   * request stubs.
   */
  method FillTable(table: array<GateDescriptor>, offset: nat, codeSegment: bv16, stubs: Stubs)
    requires table.Length == Entries
    modifies table
    ensures table[..] == SetupTable(offset, codeSegment, stubs)
  {
    var ignore := MakeGate(stubs.ignore, codeSegment, 0, InterruptGate);
    var i := 255;
    while i > 0
      invariant 0 <= i <= 255
      invariant forall j :: i < j < Entries ==> table[j] == ignore
      decreases i
    {
      SetInterruptDescriptorTableEntry(table, i, codeSegment, stubs.ignore, 0, InterruptGate);
      i := i - 1;
    }
    SetInterruptDescriptorTableEntry(table, 0, codeSegment, stubs.ignore, 0, InterruptGate);
    SetInterruptDescriptorTableEntry(table, ToByte(offset), codeSegment, stubs.request0, 0, InterruptGate);
    SetInterruptDescriptorTableEntry(table, ToByte(offset + 1), codeSegment, stubs.request1, 0, InterruptGate);
    assert forall j :: 0 <= j < Entries ==> table[j] == SetupTable(offset, codeSegment, stubs)[j];
  }

  // ---------------------------------------------------------------------
  // The manager

  /**
   * `InterruptManager`: the vector offset of the hardware interrupts, the
   * descriptor table it fills, the controllers' port traffic, the `lidt`
   * operand it loads and the CPU's interrupt flag. The keyboard handler's
   * table and the line editor it feeds are fixed at construction.
   */
  class InterruptManager {
    const hardwareInterruptOffset: nat
    const table: array<GateDescriptor>
    const keymap: seq<char>
    const keyboard: Keyboard.LineInput
    var ports: seq<PortIo>
    var tableRegister: TablePointer
    var interruptsEnabled: bool

    ghost predicate Valid()
      reads this, keyboard, keyboard.buffer
    {
      hardwareInterruptOffset < 0x1_0000 && table.Length == Entries && |keymap| == 58 && keyboard.Valid()
    }

    /**
     * Fills all 256 slots (255 down to 1, then 0) with the ignore stub,
     * points slots offset and offset + 1 at the request stubs, initializes
     * the two controllers and loads the table register.
     */
    constructor (offset: nat, codeSegment: bv16, descriptorTable: array<GateDescriptor>, tableAddress: bv32,
                 stubs: Stubs, editor: Keyboard.LineInput, keys: seq<char>)
      requires offset < 0x1_0000 && descriptorTable.Length == Entries && |keys| == 58 && editor.Valid()
      modifies descriptorTable
      ensures Valid()
      ensures hardwareInterruptOffset == offset && table == descriptorTable
      ensures keyboard == editor && keymap == keys
      ensures table[..] == SetupTable(offset, codeSegment, stubs)
      ensures ports == InitTrace(offset)
      ensures tableRegister == TableRegister(tableAddress)
      ensures !interruptsEnabled
    {
      hardwareInterruptOffset := offset;
      table := descriptorTable;
      keymap := keys;
      keyboard := editor;
      ports := [];
      tableRegister := TablePointer(0, 0);
      interruptsEnabled := false;
      new;
      FillTable(table, offset, codeSegment, stubs);
      InitializeControllers();
      tableRegister := TableRegister(tableAddress);
    }

    /** The ten initialization writes to the master and slave controllers. */
    method InitializeControllers()
      modifies this
      ensures ports == old(ports) + InitTrace(hardwareInterruptOffset)
      ensures tableRegister == old(tableRegister) && interruptsEnabled == old(interruptsEnabled)
    {
      var offset := hardwareInterruptOffset;
      var trace := [];
      trace := trace + [Out(MasterCommandPort, 0x11)];
      trace := trace + [Out(SlaveCommandPort, 0x11)];
      trace := trace + [Out(MasterDataPort, ToByte(offset))];
      trace := trace + [Out(SlaveDataPort, ToByte(offset + 8))];
      trace := trace + [Out(MasterDataPort, 0x04)];
      trace := trace + [Out(SlaveDataPort, 0x02)];
      trace := trace + [Out(MasterDataPort, 0x01)];
      trace := trace + [Out(SlaveDataPort, 0x01)];
      trace := trace + [Out(MasterDataPort, 0x00)];
      trace := trace + [Out(SlaveDataPort, 0x00)];
      assert trace == InitTrace(offset);
      ports := ports + trace;
    }

    /** One byte out on a port: appended to the log. */
    method Write(port: int, value: Byte)
      modifies this
      ensures ports == old(ports) + [Out(port, value)]
      ensures tableRegister == old(tableRegister) && interruptsEnabled == old(interruptsEnabled)
    {
      ports := ports + [Out(port, value)];
    }

    method HardwareInterruptOffset() returns (offset: nat)
      ensures offset == hardwareInterruptOffset
    {
      offset := hardwareInterruptOffset;
    }

    /** `sti`. */
    method Activate()
      modifies this
      ensures interruptsEnabled
      ensures ports == old(ports) && tableRegister == old(tableRegister)
    {
      interruptsEnabled := true;
    }

    /** `cli`; also what the destructor does. */
    method Deactivate()
      modifies this
      ensures !interruptsEnabled
      ensures ports == old(ports) && tableRegister == old(tableRegister)
    {
      interruptsEnabled := false;
    }

    /**
     * `HandleKeyboardInterrupt`: one read of the keyboard data port, which
     * yields `scancode`; a table code goes to the line editor as its key.
     */
    method HandleKeyboardInterrupt(scancode: Byte)
      requires Valid() && !keyboard.halted
      requires scancode < 58 ==> Keyboard.KeyDefined(keyboard.View(), keymap[scancode])
      modifies this, keyboard, keyboard.buffer
      ensures Valid()
      ensures keyboard.View() == AfterScanCode(old(keyboard.View()), keymap, scancode)
      ensures ports == old(ports) + [In(KeyboardDataPort)]
      ensures tableRegister == old(tableRegister)
      ensures interruptsEnabled == (old(interruptsEnabled) && !keyboard.halted)
    {
      ports := ports + [In(KeyboardDataPort)];
      if scancode < 58 {
        keyboard.ProcessKey(keymap[scancode]);
      }
      if keyboard.halted {
        interruptsEnabled := false;
      }
    }

    /**
     * `HandleInterrupt`: for a hardware vector, the keyboard handler first
     * when it is the keyboard's (offset + 1), then the end-of-interrupt
     * writes; the stack pointer comes back unchanged. A quit key stops the
     * CPU with interrupts disabled inside the keyboard handler, so no
     * end-of-interrupt is written after it.
     */
    method HandleInterrupt(interrupt: Byte, esp: bv32, scancode: Byte) returns (r: bv32)
      requires Valid() && !keyboard.halted
      requires interrupt == hardwareInterruptOffset + 1 && scancode < 58 ==>
        Keyboard.KeyDefined(keyboard.View(), keymap[scancode])
      modifies this, keyboard, keyboard.buffer
      ensures r == esp && Valid()
      ensures interrupt == hardwareInterruptOffset + 1 ==>
        && keyboard.View() == AfterScanCode(old(keyboard.View()), keymap, scancode)
        && ports == old(ports) + [In(KeyboardDataPort)]
                    + (if keyboard.halted then [] else Acknowledge(hardwareInterruptOffset, interrupt))
      ensures interrupt != hardwareInterruptOffset + 1 ==>
        && keyboard.View() == old(keyboard.View())
        && ports == old(ports) + Acknowledge(hardwareInterruptOffset, interrupt)
      ensures interruptsEnabled == (old(interruptsEnabled) && !keyboard.halted)
      ensures tableRegister == old(tableRegister)
    {
      var n := interrupt;
      if hardwareInterruptOffset <= n < hardwareInterruptOffset + 16 {
        if n == hardwareInterruptOffset + 1 {
          HandleKeyboardInterrupt(scancode);
          if keyboard.halted {
            return esp;
          }
        }
        Write(MasterCommandPort, 0x20);
        if hardwareInterruptOffset + 8 <= n {
          Write(SlaveCommandPort, 0x20);
        }
      }
      r := esp;
    }
  }
}
