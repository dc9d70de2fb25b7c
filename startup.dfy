/** The flash side of start-up: what `FlashMemory::new` and the boot order of
    `main` put on the bus, as functions of the chip's answers. */
module Startup {
  import opened Protocol
  import opened Sequencing

  /** `enable_quad` on the bus when the chip answers the configuration-register
      read with `cr`: read CR, write the new value back. */
  function QuadEnableTxns(cr: byte): (t: seq<Txn>)
    ensures |t| == 2 && t[0] == Read(RegisterConfig(CMD_READ_CR), [cr])
    ensures t[1].Write? && t[1].cfg == RegisterConfig(CMD_WRITE_CR) && |t[1].data| == 1
    ensures t[1].data[0] & QUAD_ENABLE == QUAD_ENABLE
    ensures t[1].data[0] & !QUAD_ENABLE == cr & !QUAD_ENABLE
    ensures WriteEnableTxn() !in t
  {
    [Read(RegisterConfig(CMD_READ_CR), [cr]), Write(RegisterConfig(CMD_WRITE_CR), [SetQuad(cr)])]
  }

  /** `disable_quad` on the bus when the chip answers the configuration-register
      read with `cr`. */
  function QuadDisableTxns(cr: byte): (t: seq<Txn>)
    ensures |t| == 2 && t[0] == Read(RegisterConfig(CMD_READ_CR), [cr])
    ensures t[1].Write? && t[1].cfg == RegisterConfig(CMD_WRITE_CR) && |t[1].data| == 1
    ensures t[1].data[0] & QUAD_ENABLE == 0
    ensures t[1].data[0] & !QUAD_ENABLE == cr & !QUAD_ENABLE
    ensures WriteEnableTxn() !in t
  {
    [Read(RegisterConfig(CMD_READ_CR), [cr]), Write(RegisterConfig(CMD_WRITE_CR), [ClearQuad(cr)])]
  }

  /** `FlashMemory::new` on a fresh bus: reset the chip, then, once the reset's
      busy-poll has returned, turn on quad mode. */
  function Construct(status: seq<byte>, cr: byte): Machine
  {
    var r := Reset(Machine([], status, Running));
    if r.run == Running then r.(trace := r.trace + QuadEnableTxns(cr)) else r
  }

  /** The bus after the flash part of `main`, and where it jumps (if it gets
      that far). */
  datatype Boot = Boot(bus: Machine, jump: Option<u32>)

  /** `main`: construct the driver, read the ID, enter memory-mapped mode, jump
      to the start of the mapped window. */
  function BootSequence(status: seq<byte>, cr: byte, id: seq<byte>): Boot
  {
    var c := Construct(status, cr);
    if c.run != Running then Boot(c, None)
    else Boot(c.(trace := c.trace + [Read(ReadIdConfig(), id), MemoryMap(MemoryMapConfig())]), Some(APP_BASE))
  }

  /** Construction issues the four resets first, then status reads only, and
      then, exactly when the chip eventually reports idle, the quad-enable
      read-modify-write; otherwise it is stuck polling. */
  lemma {:induction false} ConstructionOrder(status: seq<byte>, cr: byte)
    ensures var c := Construct(status, cr);
      && |c.trace| >= 4 && c.trace[..4] == ResetCommands()
      && (c.run == Running <==> Ready(status))
      && (c.run == Running ==>
            && |c.trace| >= 6 && c.trace[|c.trace| - 2..] == QuadEnableTxns(cr)
            && forall t :: t in c.trace[4..|c.trace| - 2] ==> IsStatusRead(t))
      && (c.run != Running ==>
            && c.run == Spinning
            && forall t :: t in c.trace[4..] ==> IsStatusRead(t))
  {
    var init := Machine([], status, Running);
    var r := Reset(init);
    ResetIsPolled(init);
    assert [] + ResetCommands() == ResetCommands();
    if r.run == Running {
      var c := r.(trace := r.trace + QuadEnableTxns(cr));
      assert c.trace[..4] == r.trace[..4];
      assert c.trace[|c.trace| - 2..] == QuadEnableTxns(cr);
      assert c.trace[4..|c.trace| - 2] == r.trace[4..];
    }
  }

  /** Construction never enters memory-mapped mode. */
  lemma {:induction false} ConstructionMapsNothing(status: seq<byte>, cr: byte)
    ensures forall t :: t in Construct(status, cr).trace ==> !t.MemoryMap?
  {
    ConstructionOrder(status, cr);
    var c := Construct(status, cr);
    var tail := if c.run == Running then |c.trace| - 2 else |c.trace|;
    forall i | 0 <= i < |c.trace| ensures !c.trace[i].MemoryMap? {
      if i < 4 {
        assert c.trace[i] == ResetCommands()[i];
      } else if i < tail {
        assert c.trace[i] == c.trace[4..tail][i - 4];
        assert IsStatusRead(c.trace[i]);
      } else {
        assert c.trace[i] == c.trace[|c.trace| - 2..][i - tail];
      }
    }
  }

  /** The boot loader jumps exactly when construction returns, and then to the
      mapped window after reading the ID and entering memory-mapped mode, with
      memory-mapped mode the very last thing on the bus; otherwise it never gets
      past construction. */
  lemma {:induction false} BootOrder(status: seq<byte>, cr: byte, id: seq<byte>)
    ensures var b := BootSequence(status, cr, id); var c := Construct(status, cr);
      && (b.jump.Some? <==> Ready(status))
      && (b.jump.Some? ==>
            && b.jump == Some(APP_BASE) && b.bus.run == Running
            && b.bus.trace == c.trace + [Read(ReadIdConfig(), id), MemoryMap(MemoryMapConfig())])
      && (b.jump.None? ==> b.bus == c && b.bus.run == Spinning)
      && forall i :: 0 <= i < |b.bus.trace| && b.bus.trace[i].MemoryMap? ==>
           b.jump.Some? && i == |b.bus.trace| - 1
  {
    ConstructionOrder(status, cr);
    ConstructionMapsNothing(status, cr);
    var b := BootSequence(status, cr, id);
    var c := Construct(status, cr);
    forall i | 0 <= i < |b.bus.trace|
      ensures b.bus.trace[i].MemoryMap? ==> b.jump.Some? && i == |b.bus.trace| - 1
    {
      if i < |c.trace| {
        assert b.bus.trace[i] == c.trace[i];
        assert c.trace[i] in c.trace;
      } else if i == |c.trace| {
        assert b.bus.trace[i] == Read(ReadIdConfig(), id);
      }
    }
  }
}
