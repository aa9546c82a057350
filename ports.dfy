/**
 * The 8-bit I/O ports of `port.cpp`. Their bodies are single `outb`/`inb`
 * instructions; here a write is an entry appended to a log of port traffic
 * and a read is an entry in the same log whose value the caller supplies.
 * The "slow" write differs only by delay jumps, which the log does not see.
 */
module Ports {

  /** An unsigned byte, `uint8_t`. */
  type Byte = x: int | 0 <= x < 256

  /** One access to an I/O port: an `outb` of a byte, or an `inb`. */
  datatype PortIo = Out(port: int, value: Byte) | In(port: int)

  const MasterCommandPort := 0x20
  const MasterDataPort := 0x21
  const SlaveCommandPort := 0xA0
  const SlaveDataPort := 0xA1
  const KeyboardDataPort := 0x60

  /** The `uint8_t` a non-negative C integer is converted to: its value modulo 256. */
  function ToByte(v: nat): Byte {
    v % 256
  }
}
