/** Machine types, register offsets and constants shared by every part of the driver. */
module Hardware {

  type uint32 = x: int | 0 <= x < 0x1_0000_0000
  type uint64 = x: int | 0 <= x < 0x1_0000_0000_0000_0000

  /** Contents of a 32-bit register or of one dword of a buffer. */
  type Word = bv32

  datatype Option<+T> = None | Some(value: T)

  datatype IOReturn = Success | NotReady | BadArgument | NoResources | NoMemory | NoSpace | Unsupported

  const MAX_SAFE_OFFSET: uint32 := 0x00FF_FFFF

  /** A register the driver names: an aligned dword within the safe range. */
  type Register = x: int | 0 <= x <= 0x00FF_FFFF && x % 4 == 0

  const SENTINEL_NULL_MMIO: Word := 0xDEAD_BEEF
  const SENTINEL_OUT_OF_RANGE: Word := 0xBAD0_FFFF

  predicate Sentinel(w: Word) {
    w == SENTINEL_NULL_MMIO || w == SENTINEL_OUT_OF_RANGE
  }

  // Forcewake handshake: bits 31..16 of a written word select, bits 15..0 give the new values.
  const FORCEWAKE_REQ: Register := 0xA188
  const FORCEWAKE_ACK: Register := 0xA18C
  const REQUEST_SET: Word := 0x0001_0001
  const REQUEST_CLEAR: Word := 0x0001_0000
  const MAX_POLLS: nat := 50
  const POLL_DELAY: nat := 1000

  // Command opcodes
  const MI_NOOP: Word := 0x0000_0000
  const MI_BATCH_BUFFER_END: Word := 0x0A00_0000

  // Ring registers, in the order the ring log reads them
  const RING_STATE: seq<Register> := [0x2034, 0x2030, 0x202C]
  const RING_MODE: seq<Register> := [0x209C, 0x2500]

  predicate RingOffset(off: nat) {
    off in RING_STATE || off in RING_MODE
  }

  const PGTBL_CTL: Register := 0x2020

  // What each stage of bring-up and each register query reads, in order
  const FIRST_READS: seq<Register> := [0x0, 0x4, 0x10, 0x100]
  const POWER_STATE: seq<Register> :=
    [0x45400, 0x45404, 0x45408, 0x4540C, 0xA094, 0xA090, 0xA024, 0xA18C, 0xA168, 0x138108]
  const GGTT_REST: seq<Register> := [0x45400, 0x45404, 0x10_0000, 0x10_0004]
  const DISPLAY_STATE: seq<Register> :=
    [0x70008, 0x60400, 0x64000, 0x60000, 0x6000C, 0x6001C, 0x70180, 0x70188, 0x7019C,
     0xC7200, 0xC7204, 0xC8250, 0xC8254]
  const SAFE_REGISTERS: seq<Register> :=
    [0x0, 0x4, 0x10, 0x14, 0x100, 0x104, 0xA024, 0xA094, 0x45400, 0x45404]
  const GT_CONFIG: seq<Register> :=
    [0x45400, 0x45404, 0xA094, 0xA090, 0xA024, 0xA18C, 0xA168, 0x138108]
  const DISPLAY_INFO: seq<Register> :=
    [0x70008, 0x60400, 0x64000, 0x70180, 0x60000, 0x6000C, 0x6001C, 0xC7200]
}
