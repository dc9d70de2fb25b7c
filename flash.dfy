/** The `FlashMemory` driver itself: an object over the QSPI bus whose methods
    issue the chip's commands one bus operation at a time.  Each method is
    proved to leave the driver in the state the functions of `Sequencing` and
    `Startup` describe. */
module Flash {
  import opened Protocol
  import opened Sequencing
  import opened Startup

  /** The driver, standing for the owned QSPI handle: what it has issued on the
      bus, the status-register answers the chip has yet to give its busy-polls,
      and whether control is still flowing. */
  class FlashMemory {
    var trace: seq<Txn>
    var status: seq<byte>
    var run: Run

    function State(): Machine
      reads this
    {
      Machine(trace, status, run)
    }

    /** `new`: reset the chip, then turn on quad mode.  The chip answers the
        busy-polls from `status` and the configuration-register read with `cr`. */
    constructor (status: seq<byte>, cr: byte)
      ensures State() == Construct(status, cr)
    {
      trace := [];
      this.status := status;
      run := Running;
      new;
      ResetMemory();
      if run == Running {
        EnableQuad(cr);
      }
    }

    /** `enable_mm`: hand the quad-read template to the peripheral's memory map. */
    method EnableMm()
      modifies this
      ensures trace == old(trace) + [MemoryMap(MemoryMapConfig())]
      ensures status == old(status) && run == old(run)
    {
      trace := trace + [MemoryMap(MemoryMapConfig())];
    }

    /** `enable_quad`: read CR, write it back with the quad-enable bit set. */
    method EnableQuad(cr: byte)
      modifies this
      ensures trace == old(trace) + QuadEnableTxns(cr)
      ensures status == old(status) && run == old(run)
    {
      var value := ReadCr(cr);
      WriteCr(value | 0x02);
    }

    /** `disable_quad`: read CR, write it back with the quad-enable bit clear. */
    method DisableQuad(cr: byte)
      modifies this
      ensures trace == old(trace) + QuadDisableTxns(cr)
      ensures status == old(status) && run == old(run)
    {
      var value := ReadCr(cr);
      WriteCr(value & !0x02);
    }

    /** `exec_command_4`: an instruction-only command on four lines. */
    method ExecCommand4(cmd: byte)
      modifies this
      ensures trace == old(trace) + [Command(ExecCommand4Config(cmd))]
      ensures status == old(status) && run == old(run)
    {
      trace := trace + [Command(ExecCommand4Config(cmd))];
    }

    /** `exec_command`: an instruction-only command on one line. */
    method ExecCommand(cmd: byte)
      modifies this
      ensures trace == old(trace) + [Command(ExecCommandConfig(cmd))]
      ensures status == old(status) && run == old(run)
    {
      trace := trace + [Command(ExecCommandConfig(cmd))];
    }

    /** `reset_memory`. */
    method ResetMemory()
      requires run == Running
      modifies this
      ensures State() == Reset(old(State()))
    {
      ExecCommand4(CMD_ENABLE_RESET);
      ExecCommand4(CMD_RESET);
      ExecCommand(CMD_ENABLE_RESET);
      ExecCommand(CMD_RESET);
      assert trace == old(trace) + ResetCommands();
      WaitWriteFinish();
    }

    /** `enable_write`. */
    method EnableWrite()
      modifies this
      ensures trace == old(trace) + [WriteEnableTxn()]
      ensures status == old(status) && run == old(run)
    {
      ExecCommand(CMD_WRITE_ENABLE);
    }

    /** `read_id`: the three JEDEC ID bytes, as the chip answers them. */
    method ReadId(reply: seq<byte>) returns (id: seq<byte>)
      requires |reply| == 3
      modifies this
      ensures id == reply
      ensures trace == old(trace) + [Read(ReadIdConfig(), reply)]
      ensures status == old(status) && run == old(run)
    {
      trace := trace + [Read(ReadIdConfig(), reply)];
      id := reply;
    }

    /** `read_memory`: a quad read at `addr` that fills `buffer` with the
        chip's answer. */
    method ReadMemory(addr: u32, buffer: array<byte>, reply: seq<byte>)
      requires |reply| == buffer.Length
      modifies this, buffer
      ensures buffer[..] == reply
      ensures trace == old(trace) + [Read(ReadMemoryConfig(addr), reply)]
      ensures status == old(status) && run == old(run)
    {
      forall i | 0 <= i < buffer.Length {
        buffer[i] := reply[i];
      }
      trace := trace + [Read(ReadMemoryConfig(addr), reply)];
    }

    /** `wait_write_finish`: read the status register until bit 0 reads clear.
        Out of answers while the chip still says busy, the firmware would poll
        forever: the driver is then spinning. */
    method WaitWriteFinish()
      requires run == Running
      modifies this
      ensures State() == Wait(old(State()))
    {
      while true
        invariant run == Running
        invariant Wait(State()) == Wait(old(State()))
        decreases |status|
      {
        if status == [] {
          run := Spinning;
          return;
        }
        var sr := ReadSr();
        if sr & 0x01 == 0 {
          return;
        }
      }
    }

    /** `perform_erase`: write enable, the erase command at `addr`, busy-poll. */
    method PerformErase(addr: u32, cmd: byte)
      requires run == Running
      modifies this
      ensures State() == Erase(old(State()), addr, cmd)
    {
      EnableWrite();
      trace := trace + [Command(EraseConfig(addr, cmd))];
      assert trace == old(trace) + [WriteEnableTxn(), Command(EraseConfig(addr, cmd))];
      WaitWriteFinish();
    }

    /** `erase_sector`. */
    method EraseSector(addr: u32)
      requires run == Running
      modifies this
      ensures State() == Erase(old(State()), addr, CMD_SECTOR_ERASE)
    {
      PerformErase(addr, CMD_SECTOR_ERASE);
    }

    /** `erase_block_32k`. */
    method EraseBlock32K(addr: u32)
      requires run == Running
      modifies this
      ensures State() == Erase(old(State()), addr, CMD_BLOCK_ERASE_32K)
    {
      PerformErase(addr, CMD_BLOCK_ERASE_32K);
    }

    /** `erase_block_64k`. */
    method EraseBlock64K(addr: u32)
      requires run == Running
      modifies this
      ensures State() == Erase(old(State()), addr, CMD_BLOCK_ERASE_64K)
    {
      PerformErase(addr, CMD_BLOCK_ERASE_64K);
    }

    /** `erase_chip`: the chip-erase command alone, with neither a write enable
        before it nor a busy-poll after it. */
    method EraseChip()
      modifies this
      ensures trace == old(trace) + [Command(ExecCommandConfig(CMD_CHIP_ERASE))]
      ensures status == old(status) && run == old(run)
    {
      ExecCommand(CMD_CHIP_ERASE);
    }

    /** `write_page`: panic unless `len` bytes from `addr` stay inside the
        page, then write enable, page program of `buffer`, busy-poll. */
    method WritePage(addr: u32, buffer: seq<byte>, len: nat)
      requires run == Running
      modifies this
      ensures State() == WritePageSpec(old(State()), MEMORY_PAGE_SIZE, addr, buffer, len)
    {
      if len + Offset(addr) > MEMORY_PAGE_SIZE {
        run := Panicked(PageBoundary);
        return;
      }
      EnableWrite();
      trace := trace + [Write(PageProgramConfig(addr), buffer)];
      assert trace == old(trace) + [WriteEnableTxn(), Write(PageProgramConfig(addr), buffer)];
      WaitWriteFinish();
    }

    /** `write_memory`: cut `buffer` into chunks that end at most at the page
        end and write them one page program after the other. */
    method WriteMemory(addr: u32, buffer: seq<byte>)
      requires run == Running
      modifies this
      ensures State() == WriteLoop(old(State()), MEMORY_PAGE_SIZE, addr, buffer, 0)
    {
      var left: nat := |buffer|;
      var place: u32 := addr;
      var chunkStart: nat := 0;
      while left > 0
        invariant chunkStart + left == |buffer|
        invariant run == Running
        invariant WriteLoop(old(State()), MEMORY_PAGE_SIZE, addr, buffer, 0)
                  == WriteLoop(State(), MEMORY_PAGE_SIZE, place, buffer, chunkStart)
        decreases |status|
      {
        if Offset(place) > MEMORY_PAGE_SIZE {
          run := Panicked(SubtractOverflow);
          return;
        }
        var maxChunkSize := MEMORY_PAGE_SIZE - Offset(place);
        var chunkSize := ChunkSize(maxChunkSize, left);
        // The chunk ends inside the 256-byte page of `place`, so `place +=`
        // below cannot overflow.
        SmallPageTurn(State(), MEMORY_PAGE_SIZE, place, buffer, chunkStart,
                      chunkSize, buffer[chunkStart..chunkStart + chunkSize]);
        WritePage(place, buffer[chunkStart..chunkStart + chunkSize], chunkSize);
        if run != Running {
          return;
        }
        place := place + chunkSize;
        left := left - chunkSize;
        chunkStart := chunkStart + chunkSize;
      }
    }

    /** `read_register`: one data byte from register command `cmd`, as the
        chip answers it. */
    method ReadRegister(cmd: byte, reply: byte) returns (value: byte)
      modifies this
      ensures value == reply
      ensures trace == old(trace) + [Read(RegisterConfig(cmd), [reply])]
      ensures status == old(status) && run == old(run)
    {
      trace := trace + [Read(RegisterConfig(cmd), [reply])];
      value := reply;
    }

    /** `write_register`: one data byte to register command `cmd`. */
    method WriteRegister(cmd: byte, value: byte)
      modifies this
      ensures trace == old(trace) + [Write(RegisterConfig(cmd), [value])]
      ensures status == old(status) && run == old(run)
    {
      trace := trace + [Write(RegisterConfig(cmd), [value])];
    }

    /** `read_sr`: the status register, answered by the next status answer. */
    method ReadSr() returns (sr: byte)
      requires status != []
      modifies this
      ensures sr == old(status[0]) && status == old(status[1..])
      ensures trace == old(trace) + [StatusRead(sr)] && run == old(run)
    {
      sr := ReadRegister(CMD_READ_SR, status[0]);
      status := status[1..];
    }

    /** `read_cr`: the configuration register, as the chip answers it. */
    method ReadCr(reply: byte) returns (cr: byte)
      modifies this
      ensures cr == reply
      ensures trace == old(trace) + [Read(RegisterConfig(CMD_READ_CR), [reply])]
      ensures status == old(status) && run == old(run)
    {
      cr := ReadRegister(CMD_READ_CR, reply);
    }

    /** `write_sr`. */
    method WriteSr(value: byte)
      modifies this
      ensures trace == old(trace) + [Write(RegisterConfig(CMD_WRITE_SR), [value])]
      ensures status == old(status) && run == old(run)
    {
      WriteRegister(CMD_WRITE_SR, value);
    }

    /** `write_cr`. */
    method WriteCr(value: byte)
      modifies this
      ensures trace == old(trace) + [Write(RegisterConfig(CMD_WRITE_CR), [value])]
      ensures status == old(status) && run == old(run)
    {
      WriteRegister(CMD_WRITE_CR, value);
    }
  }

  /** The flash part of `main`: construct the driver, read the ID, enter
      memory-mapped mode, then jump to the application at the start of the
      mapped window.  `jump` is `None` when construction never returns. */
  method BootLoader(status: seq<byte>, cr: byte, idReply: seq<byte>)
    returns (flash: FlashMemory, id: seq<byte>, jump: Option<u32>)
    requires |idReply| == 3
    ensures Boot(flash.State(), jump) == BootSequence(status, cr, idReply)
    ensures jump.Some? ==> id == idReply
  {
    flash := new FlashMemory(status, cr);
    if flash.run != Running {
      return flash, [], None;
    }
    id := flash.ReadId(idReply);
    flash.EnableMm();
    jump := Some(APP_BASE);
  }
}
