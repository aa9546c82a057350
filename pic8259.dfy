/**
 * A reference model of the Intel 8259A programmable interrupt controller, as
 * far as the kernel drives it: the initialization sequence (ICW1 on the
 * command port, then ICW2, the optional ICW3 and ICW4 on the data port), the
 * interrupt mask (OCW1), and the non-specific end-of-interrupt command
 * (OCW2 = 0x20). Two chips are cascaded: the slave's requests enter the
 * master on line 2.
 *
 * The model is independent of the kernel's code: it says what the chips do
 * with a sequence of port writes, so that the writes the interrupt manager
 * performs can be checked against it.
 */
module Pic8259 {
  import opened Ports

  /** Which initialization word a chip expects next on its data port. */
  datatype Phase = AwaitIcw2 | AwaitIcw3 | AwaitIcw4 | Ready

  /** One chip: its registers and its set of in-service request lines (0..7). */
  datatype Chip = Chip(
    phase: Phase, icw1: Byte, vectorBase: Byte, cascade: Byte, icw4: Byte, mask: Byte,
    inService: set<int>)

  /**
   * The highest-priority line in service: with the fixed priorities the
   * initialization sets up, the lowest-numbered one; 8 when none is.
   */
  function Highest(lines: set<int>, from: int): (r: int)
    requires 0 <= from <= 8
    ensures from <= r <= 8
    ensures r < 8 ==> r in lines
    ensures forall k :: from <= k < r ==> k !in lines
    decreases 8 - from
  {
    if from == 8 then 8
    else if from in lines then from
    else Highest(lines, from + 1)
  }

  /** Whether the bit of the given weight (a power of two) is set in v. */
  predicate HasBit(v: Byte, weight: nat)
    requires weight > 0
  {
    (v / weight) % 2 == 1
  }

  /** v with its low three bits cleared: what ICW2 keeps as the vector base. */
  function VectorBase(v: Byte): Byte {
    v - v % 8
  }

  /**
   * A byte on the command port. With bit 4 set it is ICW1, which starts
   * initialization and clears the mask; 0x20 (OCW2 with only the EOI bit)
   * ends the highest-priority interrupt in service. Other operation command
   * words are not used by the kernel and change nothing here.
   */
  function CommandWrite(c: Chip, v: Byte): Chip {
    if HasBit(v, 0x10) then c.(phase := AwaitIcw2, icw1 := v, mask := 0)
    else if v == 0x20 then c.(inService := c.inService - {Highest(c.inService, 0)})
    else c
  }

  /**
   * A byte on the data port: the next initialization word while one is
   * expected (ICW3 only in cascade mode, ICW1 bit 1 clear; ICW4 only when ICW1
   * bit 0 asks for it), and the interrupt mask (OCW1) afterwards. ICW2
   * keeps the top five bits: the vector of line k is that base plus k.
   */
  function DataWrite(c: Chip, v: Byte): Chip {
    match c.phase
    case AwaitIcw2 =>
      var next := if !HasBit(c.icw1, 0x02) then AwaitIcw3 else if HasBit(c.icw1, 0x01) then AwaitIcw4 else Ready;
      c.(vectorBase := VectorBase(v), phase := next)
    case AwaitIcw3 =>
      c.(cascade := v, phase := if HasBit(c.icw1, 0x01) then AwaitIcw4 else Ready)
    case AwaitIcw4 => c.(icw4 := v, phase := Ready)
    case Ready => c.(mask := v)
  }

  /** The cascaded pair behind ports 0x20/0x21 (master) and 0xA0/0xA1 (slave). */
  datatype Pair = Pair(master: Chip, slave: Chip)

  function Apply(p: Pair, io: PortIo): Pair {
    match io
    case Out(port, v) =>
      if port == MasterCommandPort then p.(master := CommandWrite(p.master, v))
      else if port == MasterDataPort then p.(master := DataWrite(p.master, v))
      else if port == SlaveCommandPort then p.(slave := CommandWrite(p.slave, v))
      else if port == SlaveDataPort then p.(slave := DataWrite(p.slave, v))
      else p
    case In(_) => p
  }

  /** The pair after a log of port traffic, oldest entry first. */
  function Run(p: Pair, trace: seq<PortIo>): Pair
    decreases |trace|
  {
    if trace == [] then p else Run(Apply(p, trace[0]), trace[1..])
  }

  lemma {:induction false} RunAppend(p: Pair, t: seq<PortIo>, u: seq<PortIo>)
    ensures Run(p, t + u) == Run(Run(p, t), u)
    decreases |t|
  {
    if t == [] {
      assert t + u == u;
    } else {
      assert (t + u)[1..] == t[1..] + u;
      RunAppend(Apply(p, t[0]), t[1..], u);
    }
  }

  /**
   * Both chips initialized for cascade operation in 8086 mode with nothing
   * masked: master vectors from `base`, slave vectors from `slaveBase`, the
   * slave on master line 2 (ICW3 0x04) with identity 2 (ICW3 0x02).
   */
  predicate Configured(p: Pair, base: Byte, slaveBase: Byte) {
    && p.master.phase == Ready && p.slave.phase == Ready
    && p.master.vectorBase == VectorBase(base) && p.slave.vectorBase == VectorBase(slaveBase)
    && p.master.cascade == 0x04 && p.slave.cascade == 0x02
    && p.master.icw4 == 0x01 && p.slave.icw4 == 0x01
    && p.master.mask == 0 && p.slave.mask == 0
  }

  /** Nothing in service on either chip. */
  predicate Idle(p: Pair) {
    p.master.inService == {} && p.slave.inService == {}
  }

  /**
   * A request on master line k (not the cascade line 2): the master puts it
   * in service and hands the CPU vector base + k.
   */
  function RaiseMaster(p: Pair, k: int): (Pair, int)
    requires 0 <= k < 8 && k != 2
  {
    (p.(master := p.master.(inService := p.master.inService + {k})), p.master.vectorBase + k)
  }

  /**
   * A request on slave line k: the slave puts it in service, the master puts
   * its cascade line 2 in service, and the slave hands the CPU its base + k.
   */
  function RaiseSlave(p: Pair, k: int): (Pair, int)
    requires 0 <= k < 8
  {
    (Pair(p.master.(inService := p.master.inService + {2}), p.slave.(inService := p.slave.inService + {k})),
     p.slave.vectorBase + k)
  }
}
