# Quad-SPI NOR flash driver of the STM32H750 boot loader

This project models the `FlashMemory` driver of `rust_bootloader/src/main.rs`
and the flash part of its `main`, and proves properties of the model. The
driver runs a GD25Q64C / W25Q64 quad-SPI NOR flash through the STM32 QSPI
peripheral. At boot, `main` does the following:

1. constructs the driver, which resets the chip and sets the quad-enable bit
   of the configuration register;
2. reads the JEDEC ID;
3. hands the peripheral a quad-read template so that the flash appears
   memory-mapped at `0x9000_0000`;
4. jumps to the application there.

Everything the driver does is a sequence of operations on the QSPI
peripheral. Each operation carries a transaction descriptor: instruction,
optional address, dummy cycles, and the number of lines each phase uses.
The model records these operations in order, as a *trace*.

The model has five modules, one per file.

- `Protocol` (`protocol.dfy`)
  - the opcode table and the `TransferConfig` descriptor;
  - one descriptor function per driver operation, each with its shape
    proved;
  - the four bus operations (`Command`, `Read`, `Write`, `MemoryMap`);
  - the configuration-register bit arithmetic `cr | 0x02` and
    `cr & !0x02`.
- `Sequencing` (`sequencing.dfy`)
  - a pure state `Machine`: the trace, the status-register answers the chip
    has yet to give, and a run state. The run state is `Running`,
    `Spinning` (stuck in a busy-poll) or `Panicked`.
  - the busy-poll `Wait`, reset, erase, the page write, and the
    `write_memory` loop, written as functions over `Machine`;
  - lemmas on what each of these puts on the bus and when it returns.
- `Paging` (`paging.dfy`)
  - what the chunking loop of `write_memory` does with the page size as
    written (8 bytes);
  - what it does with the page size its `& 0xff` offset mask assumes
    (256 bytes). For that page size, the reference definition
    `IntendedChunks` gives the chunks that should be written.
- `Startup` (`startup.dfy`)
  - what `FlashMemory::new` and `main` put on the bus;
  - where `main` jumps.
- `Flash` (`flash.dfy`)
  - the class `FlashMemory`, with fields `trace`, `status` and `run`, and
    one method per driver function. The busy-poll and the chunking loop are
    `while` loops.
  - `BootLoader`, which models `main`.
  - Each method is proved to produce exactly the state given by the
    `Sequencing` or `Startup` function for it. The lemmas about those
    functions therefore hold for the methods.

The chip's answers are inputs to the model:

- **Reads.** reply bytes for the configuration register, the ID and
  memory reads;
- **Busy-polls.** a finite sequence of status-register answers.

If the answers run out while the chip still reports busy, the firmware
would poll for ever; the model then ends `Spinning`. Checked arithmetic
that would panic sets the run state to `Panicked` with the reason.

A page-bounded split takes the offset modulo the page size. With an
8-byte page, 10 bytes at address 4 would go out as 4 bytes at 4, then 6
bytes at 8. The code masks the offset with `& 0xff` but declares an 8-byte
page. It therefore writes the 4 bytes and then only empty chunks at 8,
without end (see Findings). The model follows the code.

The busy-poll has no limit or timeout, in the code or in the model.

## Model

| member | source | states |
|---|---|---|
| Protocol.ExecCommand4Config | rust_bootloader/src/main.rs:189-201 | the four-line command descriptor is well formed, carries the given opcode, sends the instruction on four lines, and has no address phase, no address and no dummy cycles |
| Protocol.ExecCommandConfig | rust_bootloader/src/main.rs:203-215 | the one-line command descriptor is well formed and carries the given opcode |
| Protocol.ReadIdConfig | rust_bootloader/src/main.rs:229-242 | the ID read is a well-formed descriptor of opcode 0x9F with no address and a one-line data phase |
| Protocol.ReadMemoryConfig | rust_bootloader/src/main.rs:259-271 | the memory read is a well-formed read 0x6B at exactly the given address, with a four-line data phase after 8 dummy cycles |
| Protocol.MemoryMapConfig | rust_bootloader/src/main.rs:164-175 | the memory-map template is a well-formed read 0x6B at address 0, with a four-line data phase after 8 dummy cycles |
| Protocol.EraseConfig | rust_bootloader/src/main.rs:277-286 | the erase descriptor is well formed and carries the given opcode and address |
| Protocol.PageProgramConfig | rust_bootloader/src/main.rs:316-324 | the page-program descriptor is well formed and carries opcode 0x32 and the given address |
| Protocol.RegisterConfig | rust_bootloader/src/main.rs:350-378 | register reads and writes are well formed, carry the register opcode and have no address |
| Protocol.SetQuad | rust_bootloader/src/main.rs:177-182 | the value `enable_quad` writes has bit 1 set and every other bit as read |
| Protocol.ClearQuad | rust_bootloader/src/main.rs:184-187 | the value `disable_quad` writes has bit 1 clear and every other bit as read |
| Protocol.QuadBitRoundTrip | rust_bootloader/src/main.rs:177-187 | setting and clearing bit 1 are idempotent, each undoes the other up to bit 1, and each leaves the register unchanged exactly when the bit already has the wanted value |
| Protocol.MemoryMapIsReadAtZero | rust_bootloader/src/main.rs:164-175 | the memory-map template equals the explicit memory read at address 0, and every memory read is that template with its own address |
| Protocol.DescriptorShapes | rust_bootloader/src/main.rs:189-324 | page program is the quad read with opcode 0x32 and no dummy cycles; the four-line command differs from the one-line one only in instruction width; an erase is the page program with its opcode and without data |
| Sequencing.StatusPolls | rust_bootloader/src/main.rs:273-275 | the polls delivering a sequence of answers are as many as the answers |
| Sequencing.StatusPollsDeliver | rust_bootloader/src/main.rs:380-382 | the i-th poll is a one-byte `read_sr` that delivers the i-th answer |
| Sequencing.Wait | rust_bootloader/src/main.rs:273-275 | a busy-poll never shortens the trace and only uses up answers; when it returns it has used up at least one |
| Sequencing.WaitLeavesSuffix | rust_bootloader/src/main.rs:273-275 | the answers left after a busy-poll are exactly those after the ones it consumed |
| Sequencing.WaitIssuesPolls | rust_bootloader/src/main.rs:273-275 | a busy-poll adds exactly one status read per consumed answer, in order |
| Sequencing.WaitStopsAtFirstIdle | rust_bootloader/src/main.rs:273-275 | a busy-poll returns iff some answer reports idle; it then stops at the first idle answer after only busy ones, and otherwise spins with every answer used |
| Sequencing.WaitPollsUntilIdle | rust_bootloader/src/main.rs:273-275 | a busy-poll keeps the earlier trace, adds nothing but status reads, and returns iff the chip eventually reports idle |
| Sequencing.WaitReturnsAfterIdleRead | rust_bootloader/src/main.rs:273-275 | a busy-poll that returns issued at least one status read; the last one read bit 0 clear and every earlier one read it set |
| Sequencing.WaitAfter | rust_bootloader/src/main.rs:287-289 | operations followed by a busy-poll stay at the head of what was issued, and only status reads follow them |
| Sequencing.Reset | rust_bootloader/src/main.rs:217-223 | `reset_memory` as a function of the bus state; it has no contract of its own, and what it issues and when it returns is stated by `ResetIsPolled` |
| Sequencing.ResetIsPolled | rust_bootloader/src/main.rs:217-223 | a reset issues 0x66, 0x99 on four lines and then 0x66, 0x99 on one line, then only status reads, and returns iff the chip reports idle |
| Sequencing.Erase | rust_bootloader/src/main.rs:277-290 | `perform_erase` as a function of the bus state; it has no contract of its own, and its sequence is stated by `EraseIsGuarded` |
| Sequencing.EraseIsGuarded | rust_bootloader/src/main.rs:277-290 | every erase is write enable, the erase opcode with its address, then a busy-poll that returns iff the chip reports idle |
| Sequencing.WritePageSpec | rust_bootloader/src/main.rs:308-328 | `write_page` as a function of the bus state and the page size; it has no contract of its own, and its meaning is stated by `PageWriteIsGuarded` and `PageWriteOutcome` |
| Sequencing.PageWriteIsGuarded | rust_bootloader/src/main.rs:308-328 | a page write that fails the page check panics before issuing anything; every other one is write enable, the page program of exactly the given bytes at the given address, then a busy-poll |
| Sequencing.ChunkSize | rust_bootloader/src/main.rs:337-341 | the chunk is no longer than what is left or the room in the page, and is one of the two |
| Sequencing.WriteLoop | rust_bootloader/src/main.rs:330-348 | the loop of `write_memory` never shortens the trace; what it adds is stated in `WriteLoopIssues` |
| Sequencing.LoopTurn | rust_bootloader/src/main.rs:336-346 | one turn of the loop never shortens the trace |
| Sequencing.SmallPageTurn | rust_bootloader/src/main.rs:336-344 | with a page below 256 bytes, a turn's chunk ends inside the 256-byte block of `place`, so `place += chunk_size` cannot overflow, and the turn is the page write followed by the rest of the loop |
| Sequencing.PageWriteOutcome | rust_bootloader/src/main.rs:308-328 | a page write that passes the check adds exactly one page program, of its bytes at its address, and returns iff the chip reports idle, using up one idle answer |
| Sequencing.PageWriteKeepsShape | rust_bootloader/src/main.rs:325-327 | a page write that passes the check and starts the pattern or follows an idle status read adds write enable, page program and status reads only, and when it returns it ends on an idle status read |
| Sequencing.WriteLoopKeepsShape | rust_bootloader/src/main.rs:335-347 | every turn of the loop keeps that pattern, and a loop that returns ends on an idle status read or issued nothing |
| Sequencing.WriteLoopIssues | rust_bootloader/src/main.rs:330-348 | `write_memory` keeps the earlier trace and adds only write enables, page programs and status reads: a write enable first, each page program right after a write enable, each later write enable only after an idle status read, and on return nothing after the last idle read |
| Startup.QuadEnableTxns | rust_bootloader/src/main.rs:177-182 | `enable_quad` reads CR with 0x35 and writes with 0x31 what it read with bit 1 set and all other bits kept, with no write enable |
| Startup.QuadDisableTxns | rust_bootloader/src/main.rs:184-187 | `disable_quad` reads CR and writes back what it read with bit 1 clear and all other bits kept, with no write enable |
| Startup.Construct | rust_bootloader/src/main.rs:152-158 | `FlashMemory::new` on a fresh bus as a function of the chip's answers; it has no contract of its own, and its order is stated by `ConstructionOrder` and `ConstructionMapsNothing` |
| Startup.ConstructionOrder | rust_bootloader/src/main.rs:152-158 | construction issues the four resets first, then only status reads; it then issues the quad-enable read-modify-write iff the chip reports idle, and otherwise it spins |
| Startup.ConstructionMapsNothing | rust_bootloader/src/main.rs:152-158 | construction never enters memory-mapped mode |
| Startup.BootSequence | rust_bootloader/src/main.rs:76-109 | the flash part of `main` as a function of the chip's answers, with the jump target; it has no contract of its own, and its order is stated by `BootOrder` |
| Startup.BootOrder | rust_bootloader/src/main.rs:76-109 | the boot loader jumps iff the chip ever reports idle during the reset, and then to 0x9000_0000 after construction, ID read and memory-map, in that order; memory-mapped mode is the last thing on the bus; otherwise the boot loader never gets past construction |
| Paging.ChunkFitsPage | rust_bootloader/src/main.rs:336-341 | whenever the offset is within the page size, the chosen chunk passes `write_page`'s check, and it is non-empty when bytes are left and the offset is strictly inside the page |
| Paging.ContiguousAscends | rust_bootloader/src/main.rs:330-348 | contiguous non-empty chunks from an address never start before it and start at strictly ascending addresses |
| Paging.IntendedChunksConcat | rust_bootloader/src/main.rs:330-348 | with a 256-byte page, the chunks concatenate to exactly the bytes written |
| Paging.IntendedChunksContiguous | rust_bootloader/src/main.rs:330-348 | with a 256-byte page, the first chunk is at the start address and each next one starts where the previous ended |
| Paging.IntendedChunksFit | rust_bootloader/src/main.rs:336-341 | with a 256-byte page, every chunk is non-empty and passes the page check |
| Paging.IntendedWriteRuns | rust_bootloader/src/main.rs:330-348 | with a 256-byte page, `write_memory` returns iff the chip finishes as many page writes as there are chunks |
| Paging.IntendedWritePrograms | rust_bootloader/src/main.rs:330-348 | with a 256-byte page, a `write_memory` that returns has added exactly the intended chunks, in order, as its page programs |
| Paging.IntendedWriteCompletes | rust_bootloader/src/main.rs:330-348 | with a 256-byte page and enough completions, `write_memory` returns, and its programs reproduce the buffer as contiguous, non-empty, in-page chunks from the start address, at strictly ascending addresses |
| Paging.StallsAtPageEnd | rust_bootloader/src/main.rs:335-347 | with the 8-byte page, once the offset reaches 8 the loop never returns: it issues one empty program at the same address per idle answer, plus one the chip never finishes |
| Paging.LiteralWriteFits | rust_bootloader/src/main.rs:330-348 | with the 8-byte page, data that fits below offset 8 goes out as one page program and returns iff the chip finishes it |
| Paging.LiteralWriteCrosses | rust_bootloader/src/main.rs:330-348 | with the 8-byte page, data crossing offset 8 writes the bytes up to offset 8, then empty programs at offset 8 for ever |
| Paging.LiteralWriteOutcome | rust_bootloader/src/main.rs:330-348 | with the 8-byte page, `write_memory` returns iff there is nothing to write, or the data fits below offset 8 and the chip finishes the one page write; that write is then the only page program; crossing offset 8 spins; an offset above 8 panics before issuing anything |
| Paging.TenBytesAtFourStall | rust_bootloader/src/main.rs:330-348 | ten bytes at address 4 write four bytes, then only empty programs at address 8, and never return |
| Flash.FlashMemory.constructor | rust_bootloader/src/main.rs:152-158 | the new driver's state is `Startup.Construct` of the chip's answers |
| Flash.FlashMemory.EnableMm | rust_bootloader/src/main.rs:164-175 | appends exactly the memory-map operation with the quad-read template |
| Flash.FlashMemory.EnableQuad | rust_bootloader/src/main.rs:177-182 | appends exactly `Startup.QuadEnableTxns` of the answered CR value |
| Flash.FlashMemory.DisableQuad | rust_bootloader/src/main.rs:184-187 | appends exactly `Startup.QuadDisableTxns` of the answered CR value |
| Flash.FlashMemory.ExecCommand4 | rust_bootloader/src/main.rs:189-201 | appends exactly the four-line command |
| Flash.FlashMemory.ExecCommand | rust_bootloader/src/main.rs:203-215 | appends exactly the one-line command |
| Flash.FlashMemory.ResetMemory | rust_bootloader/src/main.rs:217-223 | the new state is `Sequencing.Reset` of the old one |
| Flash.FlashMemory.EnableWrite | rust_bootloader/src/main.rs:225-227 | appends exactly the one-line write enable 0x06 |
| Flash.FlashMemory.ReadId | rust_bootloader/src/main.rs:229-242 | appends the ID read and returns the three bytes the chip answered |
| Flash.FlashMemory.ReadMemory | rust_bootloader/src/main.rs:259-271 | appends the quad read at the address and fills the caller's buffer with exactly the chip's answer |
| Flash.FlashMemory.WaitWriteFinish | rust_bootloader/src/main.rs:273-275 | the poll loop ends in exactly the state `Sequencing.Wait` gives |
| Flash.FlashMemory.PerformErase | rust_bootloader/src/main.rs:277-290 | the new state is `Sequencing.Erase` with the given address and opcode |
| Flash.FlashMemory.EraseSector | rust_bootloader/src/main.rs:292-294 | the new state is the erase with opcode 0x20 |
| Flash.FlashMemory.EraseBlock32K | rust_bootloader/src/main.rs:296-298 | the new state is the erase with opcode 0x52 |
| Flash.FlashMemory.EraseBlock64K | rust_bootloader/src/main.rs:300-302 | the new state is the erase with opcode 0xD8 |
| Flash.FlashMemory.EraseChip | rust_bootloader/src/main.rs:304-306 | appends only the one-line 0xC7, with no write enable and no busy-poll |
| Flash.FlashMemory.WritePage | rust_bootloader/src/main.rs:308-328 | the new state is `Sequencing.WritePageSpec` at the 8-byte page size |
| Flash.FlashMemory.WriteMemory | rust_bootloader/src/main.rs:330-348 | the chunking loop ends in exactly the state `Sequencing.WriteLoop` gives at the 8-byte page size |
| Flash.FlashMemory.ReadRegister | rust_bootloader/src/main.rs:350-364 | appends the one-byte register read and returns the byte the chip answered |
| Flash.FlashMemory.WriteRegister | rust_bootloader/src/main.rs:366-378 | appends the one-byte register write of exactly the value |
| Flash.FlashMemory.ReadSr | rust_bootloader/src/main.rs:380-382 | uses up the next status answer, returns it, and appends the status read that delivered it |
| Flash.FlashMemory.ReadCr | rust_bootloader/src/main.rs:384-386 | appends the CR read 0x35 and returns the answered byte |
| Flash.FlashMemory.WriteSr | rust_bootloader/src/main.rs:388-390 | appends the status-register write 0x01 of the value |
| Flash.FlashMemory.WriteCr | rust_bootloader/src/main.rs:392-394 | appends the configuration-register write 0x31 of the value |
| Flash.BootLoader | rust_bootloader/src/main.rs:76-109 | the driver's final state and the jump are exactly `Startup.BootSequence` of the chip's answers, and the ID returned is the one the chip answered |

## Left out

- Clock, voltage and RCC set-up (main.rs lines 21-55) and the QSPI pin and
  peripheral construction (lines 57-74): hardware configuration with no
  logic.
- The QSPI library calls `blocking_command`, `blocking_read`,
  `blocking_write` and `enable_memory_map`.
  - Each becomes one trace entry.
  - What the chip answers is an input: a reply parameter for each read, or
    the `status` sequence for busy-polls.
- `TransferConfig::default()` is not part of this model. `read_id` leaves
  the address and dummy cycles to it; the model takes no address and zero
  dummy cycles for them.
- `cortex_m::asm::bootload`: modelled only as the `jump` result of
  `BootLoader`. Its stack-pointer and reset-vector semantics are a processor
  primitive.
- Flash contents and timing: the model does not include the chip's memory.
  A write followed by a read returning the written bytes depends on chip
  behaviour the code does not define.
- `defmt` logging, the embassy executor and `async`/`.await`. Nothing runs
  concurrently, so the methods are sequential. The `use_dma` flags are
  ignored by the code and are not parameters.
- Commented-out code: `disable_mm`, `read_id_4`, and the test write and
  read in `main`. None of it is live.
- Busy-polling for ever cannot be shown with finitely many answers. A poll
  that runs out of answers while the chip still reports busy ends
  `Spinning`.
- Panics are not unwinding: they set the run state to `Panicked(reason)`.
  - The model uses checked (debug-build) arithmetic.
  - In a release build, the `usize` subtraction in `write_memory` would
    wrap instead. The page check in `write_page` then panics before
    anything is issued, so the trace is the same and only the reason
    differs.
- Flash.FlashMemory.WritePage: compares `len + (addr & 0xff)` as unbounded
  integers.
  - The source truncates `len` to `u32`, and its addition panics on
    overflow.
  - This matters only for lengths of at least 2^32 − 255; `write_memory`
    never passes one, because it passes at most the page size.
- Flash.FlashMemory.WriteMemory: has no branch for an overflow of
  `place += chunk_size`. At the 8-byte page it cannot happen, which
  `Sequencing.SmallPageTurn` proves. `WriteLoop` keeps that panic for
  larger pages.
- Flash.FlashMemory.ReadId and Flash.FlashMemory.ReadMemory: the chip's
  reply must have the length of the buffer being filled (3 bytes, or the
  caller's buffer).
- Composite methods require the run state `Running`, because such a call
  only happens if the previous call returned. These are `ResetMemory`,
  `WaitWriteFinish`, the erases, `WritePage` and `WriteMemory`.
- Paging.IntendedWriteRuns, Paging.IntendedWritePrograms and
  Paging.IntendedWriteCompletes need the written data to end below
  2^32. The `u32` overflow panic itself is modelled in `WriteLoop`.
- Paging.IntendedWriteCompletes: assumes at least as many idle answers as
  bytes, which is a simple sufficient condition. The exact condition is in
  `IntendedWriteRuns`.
- Sequencing.Wait, Sequencing.WriteLoop and Sequencing.LoopTurn: their own
  contracts state only that the trace grows. That the earlier trace stays a
  prefix, and what is added after it, is stated in `WaitPollsUntilIdle` and
  `WriteLoopIssues`, which keeps these functions cheap to reason about.
- A zero-length `blocking_write` is not part of this model: the model
  treats it as one ordinary trace entry that returns like any other write.
  What the QSPI library does with an empty slice is not in the source.
  Either way, `write_memory` never returns once the offset reaches 8.
- A mode or typestate guard: the code has none. The boot-order property is
  stated over the trace instead (`Startup.BootOrder`).

## Findings

| source | as written | input that shows it | evidently intended | confidence | as-written member | corrected member |
|---|---|---|---|---|---|---|
| rust_bootloader/src/main.rs:120 | the page size is 8, but the in-page offset is `place & 0xff` (lines 310, 336), so an offset of exactly 8 leaves room 0 and every later chunk is empty at the same address | `write_memory(4, ten bytes)`: 4 bytes at address 4, then empty page programs at address 8 for ever | a page size that agrees with the mask, 256 bytes (the page of this chip family), so every chunk is non-empty and the loop ends with the chunks reproducing the buffer | not executed | Paging.TenBytesAtFourStall | Paging.IntendedWriteCompletes |
| rust_bootloader/src/main.rs:336 | with the 8-byte page, any offset `addr & 0xff` above 8 makes `MEMORY_PAGE_SIZE - offset` underflow | `write_memory(0x10, one byte)`: panics on the subtraction before issuing anything | the same 256-byte page, for which every offset is inside the page | not executed | Paging.LiteralWriteOutcome | Paging.IntendedWriteCompletes |

The driver class keeps the constant as written. The corrected behaviour is
the same loop function, `Sequencing.WriteLoop`, taken at
`Paging.INTENDED_PAGE_SIZE`. The `Paging.Intended*` lemmas prove that
behaviour.
