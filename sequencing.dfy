/** The write/erase sequencer as pure functions over a machine state: what the
    driver has issued on the bus, the status-register answers the chip has yet
    to give, and whether control is still flowing.  The methods of
    `Flash.FlashMemory` are proved to compute exactly these functions; the
    lemmas here state what the sequences mean. */
module Sequencing {
  import opened Protocol

  /** Bit 0 of the status register: a program or erase is still in progress. */
  predicate Busy(sr: byte)
  {
    sr & 0x01 != 0
  }

  /** Some answer in `s` reports the chip idle. */
  predicate Ready(s: seq<byte>)
  {
    exists i :: 0 <= i < |s| && !Busy(s[i])
  }

  /** One `read_sr` on the bus, answered with `sr`. */
  function StatusRead(sr: byte): Txn
  {
    Read(RegisterConfig(CMD_READ_SR), [sr])
  }

  predicate IsStatusRead(t: Txn)
  {
    t.Read? && t.cfg == RegisterConfig(CMD_READ_SR) && |t.data| == 1
  }

  /** The status reads that deliver the answers `s`, in order. */
  function StatusPolls(s: seq<byte>): (t: seq<Txn>)
    ensures |t| == |s|
  {
    if s == [] then [] else [StatusRead(s[0])] + StatusPolls(s[1..])
  }

  /** The `i`-th poll is a status read delivering the `i`-th answer. */
  lemma {:induction false} StatusPollsDeliver(s: seq<byte>)
    ensures forall i :: 0 <= i < |s| ==> IsStatusRead(StatusPolls(s)[i]) && StatusPolls(s)[i].data[0] == s[i]
  {
    if s != [] {
      StatusPollsDeliver(s[1..]);
      forall i | 0 < i < |s| ensures StatusPolls(s)[i] == StatusPolls(s[1..])[i - 1] {
      }
    }
  }

  /** Number of answers in `s` that report the chip idle. */
  function ReadyCount(s: seq<byte>): nat
  {
    if s == [] then 0 else (if Busy(s[0]) then 0 else 1) + ReadyCount(s[1..])
  }

  /** Why the firmware panicked: an overflow in checked `usize` subtraction or
      `u32` addition, or the page-boundary assertion of `write_page`. */
  datatype Panic = SubtractOverflow | AddOverflow | PageBoundary

  /** Whether control is still flowing: `Spinning` means the driver is in a
      busy-wait and every answer the chip has been given so far says busy (the
      firmware would go on polling), `Panicked` means it halted. */
  datatype Run = Running | Spinning | Panicked(reason: Panic)

  /** Everything issued on the bus, the chip's remaining status answers, and the
      run state. */
  datatype Machine = Machine(trace: seq<Txn>, status: seq<byte>, run: Run)

  /** `wait_write_finish`: read the status register until bit 0 reads clear.
      With no answer left while the chip still reports busy, the firmware would
      go on polling. */
  function Wait(m: Machine): (r: Machine)
    requires m.run == Running
    ensures |m.trace| <= |r.trace| && |r.status| <= |m.status|
    ensures r.run == Running ==> |r.status| < |m.status|
    decreases |m.status|
  {
    if m.status == [] then m.(run := Spinning)
    else
      var polled := m.(trace := m.trace + [StatusRead(m.status[0])], status := m.status[1..]);
      if !Busy(m.status[0]) then polled else Wait(polled)
  }

  /** What a wait leaves of the answers is what follows the ones it consumed. */
  lemma {:induction false} WaitLeavesSuffix(m: Machine)
    requires m.run == Running
    ensures var r := Wait(m); r.status == m.status[|m.status| - |r.status|..]
    decreases |m.status|
  {
    var s := m.status;
    if s != [] && Busy(s[0]) {
      var polled := m.(trace := m.trace + [StatusRead(s[0])], status := s[1..]);
      WaitLeavesSuffix(polled);
      assert s[1..][|s| - 1 - |Wait(m).status|..] == s[|s| - |Wait(m).status|..];
    }
  }

  /** What a wait adds to the bus is one status read per answer it consumed,
      in order. */
  lemma {:induction false} WaitIssuesPolls(m: Machine)
    requires m.run == Running
    ensures var r := Wait(m); r.trace == m.trace + StatusPolls(m.status[..|m.status| - |r.status|])
    decreases |m.status|
  {
    var s := m.status;
    if s == [] {
      assert s[..0] == [];
    } else {
      var polled := m.(trace := m.trace + [StatusRead(s[0])], status := s[1..]);
      if !Busy(s[0]) {
        assert StatusPolls(s[..1]) == [StatusRead(s[0])];
      } else {
        WaitIssuesPolls(polled);
        var n := |s| - |Wait(m).status|;
        var polls := StatusPolls(s[1..n]);
        assert s[1..][..n - 1] == s[1..n] == s[..n][1..];
        assert StatusPolls(s[..n]) == [StatusRead(s[0])] + polls;
        assert (m.trace + [StatusRead(s[0])]) + polls == m.trace + ([StatusRead(s[0])] + polls);
      }
    }
  }

  lemma {:induction false} ReadyTail(s: seq<byte>)
    requires s != [] && Busy(s[0])
    ensures Ready(s) <==> Ready(s[1..])
  {
    if Ready(s) {
      var i :| 0 <= i < |s| && !Busy(s[i]);
      assert s[1..][i - 1] == s[i];
    }
    if Ready(s[1..]) {
      var i :| 0 <= i < |s[1..]| && !Busy(s[1..][i]);
      assert s[i + 1] == s[1..][i];
    }
  }

  /** A wait returns exactly when some answer reports the chip idle: it then
      has consumed answers up to and including the first idle one, which uses up
      exactly one idle answer; otherwise it is spinning with every answer used. */
  lemma {:induction false} WaitStopsAtFirstIdle(m: Machine)
    requires m.run == Running
    ensures var r := Wait(m); var n := |m.status| - |r.status|;
      && (r.run == Running <==> Ready(m.status))
      && (r.run != Running ==> r.run == Spinning && r.status == [])
      && (r.run == Running ==>
            && 0 < n && !Busy(m.status[n - 1])
            && (forall i :: 0 <= i < n - 1 ==> Busy(m.status[i]))
            && ReadyCount(r.status) + 1 == ReadyCount(m.status))
    decreases |m.status|
  {
    var s := m.status;
    if s != [] {
      var polled := m.(trace := m.trace + [StatusRead(s[0])], status := s[1..]);
      if !Busy(s[0]) {
        assert Ready(s) by { assert !Busy(s[0]); }
      } else {
        WaitStopsAtFirstIdle(polled);
        ReadyTail(s);
        var n := |s| - |Wait(m).status|;
        if Wait(m).run == Running {
          forall i | 0 <= i < n - 1 ensures Busy(s[i]) {
            if i > 0 { assert s[i] == s[1..][i - 1]; }
          }
        }
      }
    }
  }

  /** `wait_write_finish` issues nothing but status reads, returns exactly when
      the chip eventually reports idle, and otherwise ends up spinning with
      every answer used. */
  lemma {:induction false} WaitPollsUntilIdle(m: Machine)
    requires m.run == Running
    ensures var r := Wait(m);
      && |m.trace| <= |r.trace| && r.trace[..|m.trace|] == m.trace
      && (forall t :: t in r.trace[|m.trace|..] ==> IsStatusRead(t))
      && (r.run == Running <==> Ready(m.status))
      && (r.run != Running ==> r.run == Spinning && r.status == [])
      && (r.run == Running ==> ReadyCount(r.status) + 1 == ReadyCount(m.status))
  {
    WaitIssuesPolls(m);
    WaitStopsAtFirstIdle(m);
    var consumed := m.status[..|m.status| - |Wait(m).status|];
    StatusPollsDeliver(consumed);
    SplitAppend(m.trace, StatusPolls(consumed));
  }

  /** A wait that returns has read the status register at least once; the last
      read said idle and every earlier one said busy. */
  lemma {:induction false} WaitReturnsAfterIdleRead(m: Machine)
    requires m.run == Running && Ready(m.status)
    ensures var r := Wait(m);
      && r.run == Running && |m.trace| < |r.trace|
      && var polls := r.trace[|m.trace|..];
      && (forall i :: 0 <= i < |polls| ==> IsStatusRead(polls[i]))
      && !Busy(polls[|polls| - 1].data[0])
      && forall i :: 0 <= i < |polls| - 1 ==> Busy(polls[i].data[0])
  {
    WaitIssuesPolls(m);
    WaitStopsAtFirstIdle(m);
    var n := |m.status| - |Wait(m).status|;
    var polls := StatusPolls(m.status[..n]);
    StatusPollsDeliver(m.status[..n]);
    SplitAppend(m.trace, polls);
    forall i | 0 <= i < n ensures polls[i].data[0] == m.status[i] {
      assert m.status[..n][i] == m.status[i];
    }
  }

  lemma {:induction false} SplitAppend<T>(a: seq<T>, b: seq<T>)
    ensures (a + b)[..|a|] == a && (a + b)[|a|..] == b
  {
  }

  /** A ready answer exists whenever some answer is counted as ready. */
  lemma {:induction false} ReadyCountPositive(s: seq<byte>)
    requires ReadyCount(s) > 0
    ensures Ready(s)
  {
    if Busy(s[0]) {
      ReadyCountPositive(s[1..]);
      var i :| 0 <= i < |s[1..]| && !Busy(s[1..][i]);
      assert s[i + 1] == s[1..][i];
    }
  }

  /** `m'` extends `m` by `ops`, then by status reads only, and it is still
      running exactly when the chip reported idle (otherwise it is spinning). */
  ghost predicate IssuesThenPolls(m: Machine, m': Machine, ops: seq<Txn>)
  {
    && |m.trace| + |ops| <= |m'.trace|
    && m'.trace[..|m.trace| + |ops|] == m.trace + ops
    && (forall t :: t in m'.trace[|m.trace| + |ops|..] ==> IsStatusRead(t))
    && (m'.run == Running <==> Ready(m.status))
    && (m'.run != Running ==> m'.run == Spinning)
  }

  /** The write-enable, command, busy-poll pattern of every erase and page write. */
  ghost predicate Guarded(m: Machine, m': Machine, op: Txn)
  {
    IssuesThenPolls(m, m', [WriteEnableTxn(), op])
  }

  /** Waiting after issuing `ops` keeps them at the head of what was issued. */
  lemma {:induction false} WaitAfter(m: Machine, ops: seq<Txn>)
    requires m.run == Running
    ensures IssuesThenPolls(m, Wait(m.(trace := m.trace + ops)), ops)
  {
    var issued := m.(trace := m.trace + ops);
    WaitPollsUntilIdle(issued);
    assert Wait(issued).trace[..|m.trace| + |ops|] == issued.trace;
  }

  /** `reset_memory`: enable-reset and reset on four lines, then on one line,
      then busy-poll. */
  function Reset(m: Machine): Machine
    requires m.run == Running
  {
    Wait(m.(trace := m.trace + ResetCommands()))
  }

  /** A reset issues the four reset commands and nothing but status reads
      after them, and returns exactly when the chip reports idle. */
  lemma {:induction false} ResetIsPolled(m: Machine)
    requires m.run == Running
    ensures IssuesThenPolls(m, Reset(m), ResetCommands())
  {
    WaitAfter(m, ResetCommands());
  }

  /** `perform_erase`: write enable, the erase command at `addr`, busy-poll. */
  function Erase(m: Machine, addr: u32, cmd: byte): Machine
    requires m.run == Running
  {
    Wait(m.(trace := m.trace + [WriteEnableTxn(), Command(EraseConfig(addr, cmd))]))
  }

  /** Every erase is write enable, the erase opcode with its address, then a
      busy-poll that returns exactly when the chip reports idle. */
  lemma {:induction false} EraseIsGuarded(m: Machine, addr: u32, cmd: byte)
    requires m.run == Running
    ensures Guarded(m, Erase(m, addr, cmd), Command(EraseConfig(addr, cmd)))
  {
    WaitAfter(m, [WriteEnableTxn(), Command(EraseConfig(addr, cmd))]);
  }

  /** Offset of `place` within its 256-byte page, `place & 0xff`. */
  function Offset(place: u32): nat
  {
    place % 256
  }

  /** Moving forward inside a 256-byte page moves the offset by as much. */
  lemma {:induction false} OffsetAdvance(place: u32, k: nat)
    requires Offset(place) + k < 256
    ensures place + k < U32_LIMIT && Offset(place + k) == Offset(place) + k
  {
    var q := place / 256;
    assert place == 256 * q + Offset(place);
    assert q < 0x100_0000;
    assert place + k == 256 * q + (Offset(place) + k);
  }

  /** `write_page`'s assertion: the data fits before the end of the page. */
  predicate FitsPage(pageSize: nat, addr: u32, len: nat)
  {
    len + Offset(addr) <= pageSize
  }

  /** `write_page`: check the page bound, then write enable, page program,
      busy-poll. */
  function WritePageSpec(m: Machine, pageSize: nat, addr: u32, buffer: seq<byte>, len: nat): Machine
    requires m.run == Running
  {
    if !FitsPage(pageSize, addr, len) then m.(run := Panicked(PageBoundary))
    else Wait(m.(trace := m.trace + [WriteEnableTxn(), Write(PageProgramConfig(addr), buffer)]))
  }

  /** A page write whose length fits is write enable, then the page program of
      exactly `buffer` at `addr`, then a busy-poll; one that does not fit panics
      on `write_page`'s assertion before issuing anything. */
  lemma {:induction false} PageWriteIsGuarded(m: Machine, pageSize: nat, addr: u32, buffer: seq<byte>, len: nat)
    requires m.run == Running
    ensures var r := WritePageSpec(m, pageSize, addr, buffer, len);
      && (!FitsPage(pageSize, addr, len) ==> r == m.(run := Panicked(PageBoundary)))
      && (FitsPage(pageSize, addr, len) ==> Guarded(m, r, Write(PageProgramConfig(addr), buffer)))
  {
    if FitsPage(pageSize, addr, len) {
      WaitAfter(m, [WriteEnableTxn(), Write(PageProgramConfig(addr), buffer)]);
    }
  }

  /** The chunk length `write_memory` picks with `room` bytes left in the page
      and `left` bytes left to write: as much as fits, and all of it if it fits. */
  function ChunkSize(room: nat, left: nat): (c: nat)
    ensures c <= left && c <= room
    ensures c == left || c == room
  {
    if left >= room then room else left
  }

  /** The loop of `write_memory` from loop state (`place`, `start`), where
      `start` is `chunk_start` and `|buffer| - start` is `left`: stop when
      nothing is left, panic when the in-page offset exceeds the page size
      (`page_size - offset` underflows), otherwise take one turn. */
  function WriteLoop(m: Machine, pageSize: nat, place: u32, buffer: seq<byte>, start: nat): (r: Machine)
    requires start <= |buffer|
    ensures |m.trace| <= |r.trace|
    decreases |m.status|, 1
  {
    if m.run != Running || start == |buffer| then m
    else if Offset(place) > pageSize then m.(run := Panicked(SubtractOverflow))
    else LoopTurn(m, pageSize, place, buffer, start)
  }

  /** One turn of that loop: write the next chunk (as much of what is left as
      fits before the page end), then advance `place` by it (`u32` addition,
      which panics on overflow) and go on. */
  function LoopTurn(m: Machine, pageSize: nat, place: u32, buffer: seq<byte>, start: nat): (r: Machine)
    requires m.run == Running && start < |buffer| && Offset(place) <= pageSize
    ensures |m.trace| <= |r.trace|
    decreases |m.status|, 0
  {
    var chunk := ChunkSize(pageSize - Offset(place), |buffer| - start);
    var m' := WritePageSpec(m, pageSize, place, buffer[start..start + chunk], chunk);
    if m'.run != Running then m'
    else if place + chunk >= U32_LIMIT then m'.(run := Panicked(AddOverflow))
    else WriteLoop(m', pageSize, place + chunk, buffer, start + chunk)
  }

  /** One turn of the loop, unfolded: the page write of the next chunk, then
      either its outcome or the rest of the loop from the advanced state. */
  lemma {:induction false} TurnUnfold(m: Machine, pageSize: nat, place: u32, buffer: seq<byte>, start: nat)
    requires m.run == Running && start < |buffer| && Offset(place) <= pageSize
    ensures var chunk := ChunkSize(pageSize - Offset(place), |buffer| - start);
      var m' := WritePageSpec(m, pageSize, place, buffer[start..start + chunk], chunk);
      WriteLoop(m, pageSize, place, buffer, start) ==
        if m'.run != Running then m'
        else if place + chunk >= U32_LIMIT then m'.(run := Panicked(AddOverflow))
        else WriteLoop(m', pageSize, place + chunk, buffer, start + chunk)
  {
  }

  /** With a page shorter than 256 bytes no turn overflows the address: the
      chunk ends inside the 256-byte page of `place`, and the loop goes on from
      its end whenever the page write returns. */
  lemma {:induction false} SmallPageTurn(m: Machine, pageSize: nat, place: u32, buffer: seq<byte>, start: nat,
                                         chunk: nat, data: seq<byte>)
    requires pageSize < 256
    requires m.run == Running && start < |buffer| && Offset(place) <= pageSize
    requires chunk == ChunkSize(pageSize - Offset(place), |buffer| - start) && data == buffer[start..start + chunk]
    ensures place + chunk < U32_LIMIT
    ensures var m' := WritePageSpec(m, pageSize, place, data, chunk);
      WriteLoop(m, pageSize, place, buffer, start) ==
        if m'.run != Running then m' else WriteLoop(m', pageSize, place + chunk, buffer, start + chunk)
  {
    OffsetAdvance(place, chunk);
    TurnUnfold(m, pageSize, place, buffer, start);
  }

  /** A page write as it appears on the bus: the chunk's address and bytes. */
  datatype Chunk = Chunk(addr: u32, data: seq<byte>)

  /** The page program a bus operation performs, if it is one. */
  function ProgramOf(t: Txn): seq<Chunk>
  {
    if t.Write? && t.cfg.instruction == CMD_QUAD_WRITE_PG && t.cfg.address.Some?
    then [Chunk(t.cfg.address.value, t.data)] else []
  }

  /** The page programs in a trace, in order. */
  function Programs(t: seq<Txn>): seq<Chunk>
  {
    if t == [] then [] else ProgramOf(t[0]) + Programs(t[1..])
  }

  /** The chunks' bytes, concatenated in order. */
  function Concat(cs: seq<Chunk>): seq<byte>
  {
    if cs == [] then [] else cs[0].data + Concat(cs[1..])
  }

  /** The first chunk starts at `addr` and each next one where the previous ended. */
  predicate Contiguous(cs: seq<Chunk>, addr: int)
  {
    cs == [] || (cs[0].addr == addr && Contiguous(cs[1..], addr + |cs[0].data|))
  }

  lemma {:induction false} ProgramsAppend(a: seq<Txn>, b: seq<Txn>)
    ensures Programs(a + b) == Programs(a) + Programs(b)
  {
    if a == [] {
      assert a + b == b;
    } else {
      assert (a + b)[0] == a[0] && (a + b)[1..] == a[1..] + b;
      ProgramsAppend(a[1..], b);
      calc {
        Programs(a + b);
        ProgramOf(a[0]) + Programs(a[1..] + b);
        ProgramOf(a[0]) + (Programs(a[1..]) + Programs(b));
        (ProgramOf(a[0]) + Programs(a[1..])) + Programs(b);
      }
    }
  }

  /** Status reads program nothing. */
  lemma {:induction false} ProgramsOfPolls(s: seq<byte>)
    ensures Programs(StatusPolls(s)) == []
  {
    if s != [] {
      assert StatusPolls(s)[0] == StatusRead(s[0]) && StatusPolls(s)[1..] == StatusPolls(s[1..]);
      ProgramsOfPolls(s[1..]);
    }
  }

  /** A page write that passes the page check adds exactly one page program,
      of its bytes at its address, and returns exactly when the chip reports
      idle, having used up one idle answer. */
  lemma {:induction false} PageWriteOutcome(m: Machine, pageSize: nat, addr: u32, data: seq<byte>, len: nat)
    requires m.run == Running && len == |data| && FitsPage(pageSize, addr, len)
    ensures var r := WritePageSpec(m, pageSize, addr, data, len);
      && Programs(r.trace) == Programs(m.trace) + [Chunk(addr, data)]
      && (r.run == Running <==> Ready(m.status))
      && (r.run != Running ==> r.run == Spinning)
      && (r.run == Running ==> ReadyCount(r.status) + 1 == ReadyCount(m.status))
  {
    var two := [WriteEnableTxn(), Write(PageProgramConfig(addr), data)];
    var issued := m.(trace := m.trace + two);
    var r := Wait(issued);
    assert WritePageSpec(m, pageSize, addr, data, len) == r;
    WaitStopsAtFirstIdle(issued);
    var consumed := m.status[..|m.status| - |r.status|];
    calc {
      Programs(r.trace);
      { WaitIssuesPolls(issued); }
      Programs((m.trace + two) + StatusPolls(consumed));
      { ProgramsAppend(m.trace + two, StatusPolls(consumed)); ProgramsOfPolls(consumed); }
      Programs(m.trace + two) + [];
      { ProgramsAppend(m.trace, two); PageProgramIsOneChunk(addr, data); }
      Programs(m.trace) + [Chunk(addr, data)] + [];
      Programs(m.trace) + [Chunk(addr, data)];
    }
  }

  /** Write enable programs nothing; the page program writes its one chunk. */
  lemma {:induction false} PageProgramIsOneChunk(addr: u32, data: seq<byte>)
    ensures Programs([WriteEnableTxn(), Write(PageProgramConfig(addr), data)]) == [Chunk(addr, data)]
  {
    var two := [WriteEnableTxn(), Write(PageProgramConfig(addr), data)];
    assert two[1..] == [Write(PageProgramConfig(addr), data)];
    assert two[1..][1..] == [];
    assert ProgramOf(two[0]) == [];
    assert Programs(two[1..]) == [Chunk(addr, data)];
  }

  /** A status read that found the chip idle. */
  predicate IsIdleRead(t: Txn)
  {
    IsStatusRead(t) && !Busy(t.data[0])
  }

  /** The last operation of `t` is a status read that found the chip idle. */
  predicate EndsIdle(t: seq<Txn>)
  {
    |t| > 0 && IsIdleRead(t[|t| - 1])
  }

  /** A bus operation of `write_memory`: a write enable, a page program or a
      status read. */
  predicate IsLoopTxn(t: Txn)
  {
    || t == WriteEnableTxn()
    || IsStatusRead(t)
    || (t.Write? && t.cfg.address.Some? && t.cfg == PageProgramConfig(t.cfg.address.value))
  }

  /** Operation `i` of `t` fits the pattern of `write_memory` begun at index
      `from`: it is a write enable, a page program or a status read; the first
      is a write enable; a page program comes right after a write enable; a
      later write enable comes right after a status read that found the chip
      idle. */
  predicate StepFits(t: seq<Txn>, from: nat, i: nat)
    requires from <= i < |t|
  {
    && IsLoopTxn(t[i])
    && (i == from ==> t[i] == WriteEnableTxn())
    && (from < i && t[i].Write? ==> t[i - 1] == WriteEnableTxn())
    && (from < i && t[i] == WriteEnableTxn() ==> IsIdleRead(t[i - 1]))
  }

  /** From index `from` on, every operation of `t` fits that pattern. */
  ghost predicate LoopShaped(t: seq<Txn>, from: nat)
  {
    from <= |t| && forall i :: from <= i < |t| ==> StepFits(t, from, i)
  }

  /** Appending a write enable, a page program and status reads to a trace
      that starts the pattern or ends on an idle status read keeps the
      pattern. */
  lemma {:induction false} TurnKeepsShape(t: seq<Txn>, from: nat, addr: u32, data: seq<byte>, polls: seq<Txn>)
    requires LoopShaped(t, from) && (|t| == from || EndsIdle(t))
    requires forall i :: 0 <= i < |polls| ==> IsStatusRead(polls[i])
    ensures LoopShaped(t + [WriteEnableTxn(), Write(PageProgramConfig(addr), data)] + polls, from)
  {
    var two := [WriteEnableTxn(), Write(PageProgramConfig(addr), data)];
    var u := t + two + polls;
    var n := |t|;
    assert forall i :: 0 <= i < n ==> u[i] == t[i];
    assert u[n] == WriteEnableTxn() && u[n + 1] == Write(PageProgramConfig(addr), data);
    assert forall i :: n + 2 <= i < |u| ==> u[i] == polls[i - (n + 2)];
    forall i | from <= i < |u| ensures StepFits(u, from, i) {
      if i < n {
        assert StepFits(t, from, i);
        assert 0 < i ==> u[i - 1] == t[i - 1];
      } else if n + 2 <= i {
        assert IsStatusRead(polls[i - (n + 2)]);
      } else if i == n && from < n {
        assert EndsIdle(t);
      }
    }
  }

  /** A page write that passes the page check keeps what was issued before it
      and keeps the pattern, provided it starts the pattern or follows an idle
      status read; when it returns, it ends on an idle status read itself. */
  lemma {:induction false} PageWriteKeepsShape(m: Machine, pageSize: nat, addr: u32, data: seq<byte>, len: nat, from: nat)
    requires m.run == Running && FitsPage(pageSize, addr, len)
    requires LoopShaped(m.trace, from) && (|m.trace| == from || EndsIdle(m.trace))
    ensures var r := WritePageSpec(m, pageSize, addr, data, len);
      && |m.trace| <= |r.trace| && r.trace[..|m.trace|] == m.trace
      && LoopShaped(r.trace, from) && (r.run == Running ==> EndsIdle(r.trace))
  {
    var two := [WriteEnableTxn(), Write(PageProgramConfig(addr), data)];
    var issued := m.(trace := m.trace + two);
    var r := Wait(issued);
    assert WritePageSpec(m, pageSize, addr, data, len) == r;
    var k := |m.status| - |r.status|;
    var consumed := m.status[..k];
    var polls := StatusPolls(consumed);
    assert r.trace == m.trace + two + polls by {
      WaitIssuesPolls(issued);
    }
    StatusPollsDeliver(consumed);
    TurnKeepsShape(m.trace, from, addr, data, polls);
    assert r.trace[..|m.trace|] == m.trace;
    if r.run == Running {
      WaitStopsAtFirstIdle(issued);
      assert r.trace[|r.trace| - 1] == polls[k - 1];
      assert consumed[k - 1] == m.status[k - 1];
    }
  }

  /** The loop of `write_memory` keeps the pattern, and when it returns its
      trace ends on an idle status read (or it issued nothing). */
  lemma {:induction false} WriteLoopKeepsShape(m: Machine, pageSize: nat, place: u32, buffer: seq<byte>, start: nat, from: nat)
    requires start <= |buffer|
    requires LoopShaped(m.trace, from) && (|m.trace| == from || EndsIdle(m.trace))
    ensures var r := WriteLoop(m, pageSize, place, buffer, start);
      && r.trace[..|m.trace|] == m.trace
      && LoopShaped(r.trace, from) && (r.run == Running ==> |r.trace| == from || EndsIdle(r.trace))
    decreases |m.status|
  {
    if m.run == Running && start < |buffer| && Offset(place) <= pageSize {
      var chunk := ChunkSize(pageSize - Offset(place), |buffer| - start);
      var data := buffer[start..start + chunk];
      var m' := WritePageSpec(m, pageSize, place, data, chunk);
      var r := WriteLoop(m, pageSize, place, buffer, start);
      PageWriteKeepsShape(m, pageSize, place, data, chunk, from);
      if m'.run == Running && place + chunk < U32_LIMIT {
        var r' := WriteLoop(m', pageSize, place + chunk, buffer, start + chunk);
        assert r == r' by {
          TurnUnfold(m, pageSize, place, buffer, start);
        }
        WriteLoopKeepsShape(m', pageSize, place + chunk, buffer, start + chunk, from);
        assert r.trace[..|m.trace|] == m.trace by {
          assert r'.trace[..|m.trace|] == r'.trace[..|m'.trace|][..|m.trace|];
        }
        assert LoopShaped(r.trace, from);
      } else {
        assert r.trace == m'.trace && r.run != Running by {
          TurnUnfold(m, pageSize, place, buffer, start);
        }
      }
    }
  }

  /** `write_memory` keeps what was on the bus before it and adds only write
      enables, page programs and status reads: a write enable first, each page
      program right after a write enable, each further write enable only after
      the previous page write's busy-poll found the chip idle, and, when it
      returns, nothing after the last such idle read. */
  lemma {:induction false} WriteLoopIssues(m: Machine, pageSize: nat, place: u32, buffer: seq<byte>, start: nat)
    requires start <= |buffer|
    ensures var r := WriteLoop(m, pageSize, place, buffer, start);
      && r.trace[..|m.trace|] == m.trace
      && LoopShaped(r.trace, |m.trace|)
      && (r.run == Running ==> |r.trace| == |m.trace| || EndsIdle(r.trace))
  {
    WriteLoopKeepsShape(m, pageSize, place, buffer, start, |m.trace|);
  }
}
