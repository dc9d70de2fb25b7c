/** The wire-level vocabulary of the GD25Q64C / W25Q64 quad-SPI NOR flash driver:
    bytes and addresses, per-phase bus widths, the transaction descriptor handed
    to the QSPI peripheral, the chip's opcode table, the bus operations a driver
    can issue, and the configuration-register bit arithmetic. */
module Protocol {

  type byte = bv8

  /** An unsigned 32-bit integer (`u32`). */
  type u32 = x: int | 0 <= x < 0x1_0000_0000

  const U32_LIMIT: int := 0x1_0000_0000

  datatype Option<T> = None | Some(value: T)

  /** Number of data lines a transaction phase uses (`QspiWidth`); `NoLines` means
      the phase is absent. */
  datatype Width = NoLines | Sing | Quad

  /** One QSPI transaction (`TransferConfig`): instruction, optional address and
      dummy-cycle count, each phase with its own width. */
  datatype TransferConfig = TransferConfig(
    iwidth: Width,
    awidth: Width,
    dwidth: Width,
    instruction: byte,
    address: Option<u32>,
    dummy: nat)

  /** Page size the driver's write chunking uses. */
  const MEMORY_PAGE_SIZE: nat := 8

  // The chip's opcode table.
  const CMD_QUAD_READ: byte := 0x6B
  const CMD_QUAD_WRITE_PG: byte := 0x32
  const CMD_READ_ID: byte := 0x9F
  const CMD_ENABLE_RESET: byte := 0x66
  const CMD_RESET: byte := 0x99
  const CMD_WRITE_ENABLE: byte := 0x06
  const CMD_CHIP_ERASE: byte := 0xC7
  const CMD_SECTOR_ERASE: byte := 0x20
  const CMD_BLOCK_ERASE_32K: byte := 0x52
  const CMD_BLOCK_ERASE_64K: byte := 0xD8
  const CMD_READ_SR: byte := 0x05
  const CMD_READ_CR: byte := 0x35
  const CMD_WRITE_SR: byte := 0x01
  const CMD_WRITE_CR: byte := 0x31

  /** Start of the memory-mapped flash window, where the application's vector
      table lives and where the boot loader jumps. */
  const APP_BASE: u32 := 0x9000_0000

  /** Shape rules every descriptor the driver builds obeys: an instruction phase
      is always present, an address is given exactly when there is an address
      phase, and dummy cycles (0 or 8) only precede a data phase. */
  predicate WellFormed(c: TransferConfig)
  {
    && c.iwidth != NoLines
    && (c.address.Some? <==> c.awidth != NoLines)
    && (c.dummy == 0 || c.dummy == 8)
    && (c.dummy > 0 ==> c.dwidth != NoLines)
  }

  /** `exec_command_4`: instruction only, sent on all four lines. */
  function ExecCommand4Config(cmd: byte): (c: TransferConfig)
    ensures WellFormed(c) && c.instruction == cmd
    ensures c.iwidth == Quad && c.awidth == NoLines && c.address == None && c.dummy == 0
  {
    TransferConfig(Quad, NoLines, NoLines, cmd, None, 0)
  }

  /** `exec_command`: instruction only, sent on one line. */
  function ExecCommandConfig(cmd: byte): (c: TransferConfig)
    ensures WellFormed(c) && c.instruction == cmd
  {
    TransferConfig(Sing, NoLines, NoLines, cmd, None, 0)
  }

  /** `read_id`: JEDEC ID read; the fields it leaves to `TransferConfig::default()`
      are no address and no dummy cycles. */
  function ReadIdConfig(): (c: TransferConfig)
    ensures WellFormed(c) && c.instruction == CMD_READ_ID
    ensures c.address == None && c.dwidth == Sing
  {
    TransferConfig(Sing, NoLines, Sing, CMD_READ_ID, None, 0)
  }

  /** `read_memory`: quad-output fast read at `addr`. */
  function ReadMemoryConfig(addr: u32): (c: TransferConfig)
    ensures WellFormed(c) && c.instruction == CMD_QUAD_READ && c.address == Some(addr)
    ensures c.dwidth == Quad && c.dummy == 8
  {
    TransferConfig(Sing, Sing, Quad, CMD_QUAD_READ, Some(addr), 8)
  }

  /** `enable_mm`: the read template the peripheral replays for every access to
      the memory-mapped window. */
  function MemoryMapConfig(): (c: TransferConfig)
    ensures WellFormed(c) && c.instruction == CMD_QUAD_READ && c.address == Some(0)
    ensures c.dwidth == Quad && c.dummy == 8
  {
    TransferConfig(Sing, Sing, Quad, CMD_QUAD_READ, Some(0), 8)
  }

  /** `perform_erase`: erase command `cmd` with address, no data. */
  function EraseConfig(addr: u32, cmd: byte): (c: TransferConfig)
    ensures WellFormed(c) && c.instruction == cmd && c.address == Some(addr)
  {
    TransferConfig(Sing, Sing, NoLines, cmd, Some(addr), 0)
  }

  /** `write_page`: quad-input page program at `addr`. */
  function PageProgramConfig(addr: u32): (c: TransferConfig)
    ensures WellFormed(c) && c.instruction == CMD_QUAD_WRITE_PG && c.address == Some(addr)
  {
    TransferConfig(Sing, Sing, Quad, CMD_QUAD_WRITE_PG, Some(addr), 0)
  }

  /** `read_register` and `write_register`: one data byte on one line. */
  function RegisterConfig(cmd: byte): (c: TransferConfig)
    ensures WellFormed(c) && c.instruction == cmd && c.address == None
  {
    TransferConfig(Sing, NoLines, Sing, cmd, None, 0)
  }

  /** One operation on the QSPI peripheral: `blocking_command`, `blocking_read`
      (with the bytes the chip returned), `blocking_write` (with the bytes sent)
      or `enable_memory_map`. */
  datatype Txn =
    | Command(cfg: TransferConfig)
    | Read(cfg: TransferConfig, data: seq<byte>)
    | Write(cfg: TransferConfig, data: seq<byte>)
    | MemoryMap(cfg: TransferConfig)

  /** The write-enable command every mutating operation starts with. */
  function WriteEnableTxn(): Txn
  {
    Command(ExecCommandConfig(CMD_WRITE_ENABLE))
  }

  /** The four resets of `reset_memory`: enable-reset and reset in the four-line
      encoding, then again in the one-line encoding. */
  function ResetCommands(): seq<Txn>
  {
    [ Command(ExecCommand4Config(CMD_ENABLE_RESET)), Command(ExecCommand4Config(CMD_RESET)),
      Command(ExecCommandConfig(CMD_ENABLE_RESET)), Command(ExecCommandConfig(CMD_RESET)) ]
  }

  /** The quad-enable bit of the configuration register (bit 1). */
  const QUAD_ENABLE: byte := 0x02

  /** `cr | 0x02`: the value `enable_quad` writes back. */
  function SetQuad(cr: byte): (r: byte)
    ensures r & QUAD_ENABLE == QUAD_ENABLE
    ensures r & !QUAD_ENABLE == cr & !QUAD_ENABLE
  {
    cr | QUAD_ENABLE
  }

  /** `cr & !0x02`: the value `disable_quad` writes back. */
  function ClearQuad(cr: byte): (r: byte)
    ensures r & QUAD_ENABLE == 0
    ensures r & !QUAD_ENABLE == cr & !QUAD_ENABLE
  {
    cr & !QUAD_ENABLE
  }

  /** Setting and clearing the quad bit are each idempotent, undo each other on
      every other bit, and leave a register alone when the bit already has the
      wanted value. */
  lemma QuadBitRoundTrip(cr: byte)
    ensures SetQuad(SetQuad(cr)) == SetQuad(cr) && ClearQuad(ClearQuad(cr)) == ClearQuad(cr)
    ensures ClearQuad(SetQuad(cr)) == ClearQuad(cr) && SetQuad(ClearQuad(cr)) == SetQuad(cr)
    ensures SetQuad(cr) == cr <==> cr & QUAD_ENABLE != 0
    ensures ClearQuad(cr) == cr <==> cr & QUAD_ENABLE == 0
  {
  }

  /** The memory-map template is the explicit quad read at address 0, and every
      explicit quad read is that template moved to its own address. */
  lemma MemoryMapIsReadAtZero(addr: u32)
    ensures MemoryMapConfig() == ReadMemoryConfig(0)
    ensures ReadMemoryConfig(addr) == MemoryMapConfig().(address := Some(addr))
  {
  }

  /** Page program has the quad read's shape except for its opcode and its missing
      dummy cycles; the four-line and one-line commands differ only in the width
      of the instruction phase. */
  lemma DescriptorShapes(addr: u32, cmd: byte)
    ensures PageProgramConfig(addr) == ReadMemoryConfig(addr).(instruction := CMD_QUAD_WRITE_PG, dummy := 0)
    ensures ExecCommand4Config(cmd) == ExecCommandConfig(cmd).(iwidth := Quad)
    ensures EraseConfig(addr, cmd) == PageProgramConfig(addr).(instruction := cmd, dwidth := NoLines)
  {
  }
}
