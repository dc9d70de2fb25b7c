/** What the page-chunking loop of `write_memory` does, with the page size the
    driver declares (8 bytes) and with the page size its offset mask `& 0xff`
    assumes (256 bytes, the real page of this chip family). */
module Paging {
  import opened Protocol
  import opened Sequencing

  /** The page size that agrees with the in-page offset `place & 0xff`. */
  const INTENDED_PAGE_SIZE: nat := 256

  /** Each chunk `write_memory` takes passes `write_page`'s page check whenever
      the offset is within the page size, and it is non-empty whenever the offset
      is strictly inside the page and bytes are left. */
  lemma {:induction false} ChunkFitsPage(pageSize: nat, place: u32, left: nat)
    requires Offset(place) <= pageSize
    ensures var c := ChunkSize(pageSize - Offset(place), left);
      && FitsPage(pageSize, place, c)
      && (0 < left && Offset(place) < pageSize ==> 0 < c)
  {
  }

  /** The segments a contiguous run of non-empty chunks starting at `addr` covers
      come in strictly ascending order, none before `addr`. */
  lemma {:induction false} ContiguousAscends(cs: seq<Chunk>, addr: int)
    requires Contiguous(cs, addr)
    requires forall c :: c in cs ==> 0 < |c.data|
    ensures forall i :: 0 <= i < |cs| ==> addr <= cs[i].addr
    ensures forall i, j :: 0 <= i < j < |cs| ==> cs[i].addr < cs[j].addr
  {
    if cs != [] {
      assert cs[0] in cs;
      forall c | c in cs[1..] ensures 0 < |c.data| {
        assert c in cs;
      }
      ContiguousAscends(cs[1..], addr + |cs[0].data|);
      forall i | 0 < i < |cs| ensures cs[0].addr < cs[i].addr {
        assert cs[i] == cs[1..][i - 1];
      }
      forall i, j | 0 < i < j < |cs| ensures cs[i].addr < cs[j].addr {
        assert cs[i] == cs[1..][i - 1] && cs[j] == cs[1..][j - 1];
      }
    }
  }

  /** How `write_memory` would cut `buffer[start..]` into page programs when
      the page size is the 256 bytes its offset mask assumes: at `place`, as much
      as fits before the page end, then on from where that chunk ended. */
  function IntendedChunks(place: u32, buffer: seq<byte>, start: nat): seq<Chunk>
    requires start <= |buffer| && place + (|buffer| - start) < U32_LIMIT
    decreases |buffer| - start
  {
    if start == |buffer| then []
    else
      var chunk := ChunkSize(INTENDED_PAGE_SIZE - Offset(place), |buffer| - start);
      [Chunk(place, buffer[start..start + chunk])] + IntendedChunks(place + chunk, buffer, start + chunk)
  }

  /** The intended chunks reproduce the bytes exactly. */
  lemma {:induction false} IntendedChunksConcat(place: u32, buffer: seq<byte>, start: nat)
    requires start <= |buffer| && place + (|buffer| - start) < U32_LIMIT
    ensures Concat(IntendedChunks(place, buffer, start)) == buffer[start..]
    decreases |buffer| - start
  {
    if start < |buffer| {
      var chunk := ChunkSize(INTENDED_PAGE_SIZE - Offset(place), |buffer| - start);
      var head := buffer[start..start + chunk];
      var rest := IntendedChunks(place + chunk, buffer, start + chunk);
      assert IntendedChunks(place, buffer, start) == [Chunk(place, head)] + rest;
      ConcatCons(Chunk(place, head), rest);
      IntendedChunksConcat(place + chunk, buffer, start + chunk);
      assert buffer[start..] == head + buffer[start + chunk..];
    }
  }

  lemma {:induction false} ConcatCons(c: Chunk, cs: seq<Chunk>)
    ensures Concat([c] + cs) == c.data + Concat(cs)
  {
    assert ([c] + cs)[0] == c && ([c] + cs)[1..] == cs;
  }

  /** The first intended chunk is at `place` and each next one starts where
      the previous ended. */
  lemma {:induction false} IntendedChunksContiguous(place: u32, buffer: seq<byte>, start: nat)
    requires start <= |buffer| && place + (|buffer| - start) < U32_LIMIT
    ensures Contiguous(IntendedChunks(place, buffer, start), place)
    decreases |buffer| - start
  {
    if start < |buffer| {
      var chunk := ChunkSize(INTENDED_PAGE_SIZE - Offset(place), |buffer| - start);
      var cs := IntendedChunks(place, buffer, start);
      IntendedChunksContiguous(place + chunk, buffer, start + chunk);
      assert cs[1..] == IntendedChunks(place + chunk, buffer, start + chunk);
    }
  }

  /** Every intended chunk is non-empty and inside a single 256-byte page. */
  lemma {:induction false} IntendedChunksFit(place: u32, buffer: seq<byte>, start: nat)
    requires start <= |buffer| && place + (|buffer| - start) < U32_LIMIT
    ensures forall c :: c in IntendedChunks(place, buffer, start) ==>
              0 < |c.data| && FitsPage(INTENDED_PAGE_SIZE, c.addr, |c.data|)
    decreases |buffer| - start
  {
    if start < |buffer| {
      var chunk := ChunkSize(INTENDED_PAGE_SIZE - Offset(place), |buffer| - start);
      var rest := IntendedChunks(place + chunk, buffer, start + chunk);
      ChunkFitsPage(INTENDED_PAGE_SIZE, place, |buffer| - start);
      IntendedChunksFit(place + chunk, buffer, start + chunk);
      assert IntendedChunks(place, buffer, start) == [Chunk(place, buffer[start..start + chunk])] + rest;
    }
  }

  lemma {:induction false} Assoc<T>(a: seq<T>, b: seq<T>, c: seq<T>)
    ensures (a + b) + c == a + (b + c)
  {
  }

  /** One turn of the loop with a 256-byte page and the data below 4 GiB:
      the page write of the next chunk adds its one page program and returns
      exactly when the chip reports idle, and then the loop goes on from the
      end of the chunk. */
  lemma {:induction false} IntendedTurn(m: Machine, place: u32, buffer: seq<byte>, start: nat, chunk: nat, data: seq<byte>)
    requires m.run == Running && start < |buffer|
    requires place + (|buffer| - start) < U32_LIMIT
    requires chunk == ChunkSize(INTENDED_PAGE_SIZE - Offset(place), |buffer| - start)
    requires data == buffer[start..start + chunk]
    ensures var m' := WritePageSpec(m, INTENDED_PAGE_SIZE, place, data, chunk);
      && WriteLoop(m, INTENDED_PAGE_SIZE, place, buffer, start) ==
           (if m'.run != Running then m' else WriteLoop(m', INTENDED_PAGE_SIZE, place + chunk, buffer, start + chunk))
      && Programs(m'.trace) == Programs(m.trace) + [Chunk(place, data)]
      && (m'.run == Running <==> Ready(m.status))
      && (m'.run != Running ==> m'.run == Spinning)
      && (m'.run == Running ==> ReadyCount(m'.status) + 1 == ReadyCount(m.status))
  {
    ChunkFitsPage(INTENDED_PAGE_SIZE, place, |buffer| - start);
    PageWriteOutcome(m, INTENDED_PAGE_SIZE, place, data, chunk);
    TurnUnfold(m, INTENDED_PAGE_SIZE, place, buffer, start);
  }

  /** With a 256-byte page and the data below 4 GiB, `write_memory` returns
      exactly when the chip finishes as many page writes as there are intended
      chunks (each wait uses up one idle status answer). */
  lemma {:induction false} IntendedWriteRuns(m: Machine, place: u32, buffer: seq<byte>, start: nat)
    requires m.run == Running && start <= |buffer|
    requires place + (|buffer| - start) < U32_LIMIT
    ensures WriteLoop(m, INTENDED_PAGE_SIZE, place, buffer, start).run == Running <==>
              ReadyCount(m.status) >= |IntendedChunks(place, buffer, start)|
    decreases |buffer| - start
  {
    if start < |buffer| {
      var chunk := ChunkSize(INTENDED_PAGE_SIZE - Offset(place), |buffer| - start);
      var data := buffer[start..start + chunk];
      var m' := WritePageSpec(m, INTENDED_PAGE_SIZE, place, data, chunk);
      var r := WriteLoop(m, INTENDED_PAGE_SIZE, place, buffer, start);
      assert |IntendedChunks(place, buffer, start)| == 1 + |IntendedChunks(place + chunk, buffer, start + chunk)|;
      IntendedTurn(m, place, buffer, start, chunk, data);
      if m'.run == Running {
        IntendedWriteRuns(m', place + chunk, buffer, start + chunk);
      } else if ReadyCount(m.status) > 0 {
        ReadyCountPositive(m.status);
      }
    }
  }

  /** With a 256-byte page and the data below 4 GiB, a `write_memory` that
      returns has added exactly the intended chunks to the page programs on
      the bus, in order. */
  lemma {:induction false} IntendedWritePrograms(m: Machine, place: u32, buffer: seq<byte>, start: nat)
    requires m.run == Running && start <= |buffer|
    requires place + (|buffer| - start) < U32_LIMIT
    requires WriteLoop(m, INTENDED_PAGE_SIZE, place, buffer, start).run == Running
    ensures Programs(WriteLoop(m, INTENDED_PAGE_SIZE, place, buffer, start).trace) ==
              Programs(m.trace) + IntendedChunks(place, buffer, start)
    decreases |buffer| - start
  {
    if start == |buffer| {
      assert Programs(m.trace) + [] == Programs(m.trace);
    } else {
      var chunk := ChunkSize(INTENDED_PAGE_SIZE - Offset(place), |buffer| - start);
      var data := buffer[start..start + chunk];
      var m' := WritePageSpec(m, INTENDED_PAGE_SIZE, place, data, chunk);
      var r := WriteLoop(m, INTENDED_PAGE_SIZE, place, buffer, start);
      var r' := WriteLoop(m', INTENDED_PAGE_SIZE, place + chunk, buffer, start + chunk);
      var rest := IntendedChunks(place + chunk, buffer, start + chunk);
      assert m'.run == Running && r == r' && Programs(m'.trace) == Programs(m.trace) + [Chunk(place, data)] by {
        IntendedTurn(m, place, buffer, start, chunk, data);
      }
      assert IntendedChunks(place, buffer, start) == [Chunk(place, data)] + rest;
      calc {
        Programs(r.trace);
        Programs(r'.trace);
        { IntendedWritePrograms(m', place + chunk, buffer, start + chunk); }
        Programs(m'.trace) + rest;
        (Programs(m.trace) + [Chunk(place, data)]) + rest;
        { Assoc(Programs(m.trace), [Chunk(place, data)], rest); }
        Programs(m.trace) + ([Chunk(place, data)] + rest);
        Programs(m.trace) + IntendedChunks(place, buffer, start);
      }
    }
  }

  /** With a 256-byte page, `write_memory` finishes whenever the chip finishes
      every page write and the data stays below 4 GiB: the page programs it
      adds, taken in order, reproduce the bytes exactly, the first at `place`
      and each next one where the previous ended, every one non-empty and
      inside a single page, at strictly ascending addresses. */
  lemma {:induction false} IntendedWriteCompletes(m: Machine, place: u32, buffer: seq<byte>)
    requires m.run == Running
    requires place + |buffer| < U32_LIMIT
    requires ReadyCount(m.status) >= |buffer|
    ensures var r := WriteLoop(m, INTENDED_PAGE_SIZE, place, buffer, 0);
      var cs := IntendedChunks(place, buffer, 0);
      && r.run == Running
      && Programs(r.trace) == Programs(m.trace) + cs
      && Concat(cs) == buffer
      && Contiguous(cs, place)
      && (forall c :: c in cs ==> 0 < |c.data| && FitsPage(INTENDED_PAGE_SIZE, c.addr, |c.data|))
      && (forall i, j :: 0 <= i < j < |cs| ==> cs[i].addr < cs[j].addr)
  {
    IntendedChunksConcat(place, buffer, 0);
    IntendedChunksContiguous(place, buffer, 0);
    IntendedChunksFit(place, buffer, 0);
    ContiguousAscends(IntendedChunks(place, buffer, 0), place);
    ChunksAtMostBytes(IntendedChunks(place, buffer, 0));
    IntendedWriteRuns(m, place, buffer, 0);
    IntendedWritePrograms(m, place, buffer, 0);
    assert buffer[0..] == buffer;
  }

  /** Non-empty chunks hold at least one byte each. */
  lemma {:induction false} ChunksAtMostBytes(cs: seq<Chunk>)
    requires forall c :: c in cs ==> 0 < |c.data|
    ensures |cs| <= |Concat(cs)|
  {
    if cs != [] {
      assert cs[0] in cs;
      forall c | c in cs[1..] ensures 0 < |c.data| {
        assert c in cs;
      }
      ChunksAtMostBytes(cs[1..]);
    }
  }

  /** `n` empty page programs at `place`. */
  function Blanks(place: u32, n: nat): (cs: seq<Chunk>)
    ensures |cs| == n
  {
    if n == 0 then [] else [Chunk(place, [])] + Blanks(place, n - 1)
  }

  /** With the literal 8-byte page, once the offset within the 256-byte mask
      reaches 8 every further chunk is empty and at the same address: the loop
      state never changes, so `write_memory` never returns however many page
      writes the chip completes.  It issues one empty page program for every
      idle answer and one more that the chip never finishes. */
  lemma {:induction false} StallsAtPageEnd(m: Machine, place: u32, buffer: seq<byte>, start: nat)
    requires m.run == Running && start < |buffer| && Offset(place) == MEMORY_PAGE_SIZE
    ensures var r := WriteLoop(m, MEMORY_PAGE_SIZE, place, buffer, start);
      && r.run == Spinning
      && Programs(r.trace) == Programs(m.trace) + Blanks(place, ReadyCount(m.status) + 1)
    decreases |m.status|
  {
    assert buffer[start..start] == [];
    var m' := WritePageSpec(m, MEMORY_PAGE_SIZE, place, [], 0);
    var r := WriteLoop(m, MEMORY_PAGE_SIZE, place, buffer, start);
    PageWriteOutcome(m, MEMORY_PAGE_SIZE, place, [], 0);
    if m'.run == Running {
      var r' := WriteLoop(m', MEMORY_PAGE_SIZE, place, buffer, start);
      assert r == r' by {
        TurnUnfold(m, MEMORY_PAGE_SIZE, place, buffer, start);
      }
      var rest := Blanks(place, ReadyCount(m'.status) + 1);
      calc {
        Programs(r.trace);
        Programs(r'.trace);
        { StallsAtPageEnd(m', place, buffer, start); }
        Programs(m'.trace) + rest;
        (Programs(m.trace) + [Chunk(place, [])]) + rest;
        { Assoc(Programs(m.trace), [Chunk(place, [])], rest); }
        Programs(m.trace) + ([Chunk(place, [])] + rest);
        Programs(m.trace) + Blanks(place, ReadyCount(m.status) + 1);
      }
      StallsAtPageEnd(m', place, buffer, start);
    } else {
      assert r == m' by {
        TurnUnfold(m, MEMORY_PAGE_SIZE, place, buffer, start);
      }
      if ReadyCount(m.status) > 0 {
        ReadyCountPositive(m.status);
      }
      assert Blanks(place, 1) == [Chunk(place, [])];
    }
  }

  /** With the literal 8-byte page, data that fits between the offset
      `addr & 0xff` and 8 goes out as one page program of all of it, and the
      call returns exactly when the chip finishes that write. */
  lemma {:induction false} LiteralWriteFits(m: Machine, addr: u32, buffer: seq<byte>)
    requires m.run == Running && 0 < |buffer| && Offset(addr) + |buffer| <= MEMORY_PAGE_SIZE
    ensures var r := WriteLoop(m, MEMORY_PAGE_SIZE, addr, buffer, 0);
      && (r.run == Running <==> Ready(m.status))
      && (r.run != Running ==> r.run == Spinning)
      && Programs(r.trace) == Programs(m.trace) + [Chunk(addr, buffer)]
  {
    var chunk := ChunkSize(MEMORY_PAGE_SIZE - Offset(addr), |buffer|);
    assert chunk == |buffer| && buffer[0..chunk] == buffer;
    var m' := WritePageSpec(m, MEMORY_PAGE_SIZE, addr, buffer, chunk);
    assert WriteLoop(m, MEMORY_PAGE_SIZE, addr, buffer, 0) == m' by {
      TurnUnfold(m, MEMORY_PAGE_SIZE, addr, buffer, 0);
      OffsetAdvance(addr, chunk);
      if m'.run == Running {
        assert WriteLoop(m', MEMORY_PAGE_SIZE, addr + chunk, buffer, chunk) == m';
      }
    }
    PageWriteOutcome(m, MEMORY_PAGE_SIZE, addr, buffer, chunk);
  }

  /** With the literal 8-byte page, data that crosses offset 8 makes
      `write_memory` spin for ever: the first program writes the bytes up to
      offset 8, and after it come only empty programs at that offset, one per
      idle answer left, the last of which the chip never finishes. */
  lemma {:induction false} LiteralWriteCrosses(m: Machine, addr: u32, buffer: seq<byte>)
    requires m.run == Running && Offset(addr) <= MEMORY_PAGE_SIZE < Offset(addr) + |buffer|
    ensures var r := WriteLoop(m, MEMORY_PAGE_SIZE, addr, buffer, 0);
      var room := MEMORY_PAGE_SIZE - Offset(addr);
      && r.run == Spinning
      && Programs(r.trace) ==
           Programs(m.trace) + ([Chunk(addr, buffer[..room])] + Blanks(addr + room, ReadyCount(m.status)))
  {
    var room := MEMORY_PAGE_SIZE - Offset(addr);
    var data := buffer[..room];
    var m' := WritePageSpec(m, MEMORY_PAGE_SIZE, addr, data, room);
    var r := WriteLoop(m, MEMORY_PAGE_SIZE, addr, buffer, 0);
    FirstTurnOfCrossing(m, addr, buffer);
    PageWriteOutcome(m, MEMORY_PAGE_SIZE, addr, data, room);
    if m'.run == Running {
      var r' := WriteLoop(m', MEMORY_PAGE_SIZE, addr + room, buffer, room);
      var rest := Blanks(addr + room, ReadyCount(m.status));
      assert r == r';
      assert rest == Blanks(addr + room, ReadyCount(m'.status) + 1);
      StallsAtPageEnd(m', addr + room, buffer, room);
      calc {
        Programs(r'.trace);
        Programs(m'.trace) + rest;
        (Programs(m.trace) + [Chunk(addr, data)]) + rest;
        { Assoc(Programs(m.trace), [Chunk(addr, data)], rest); }
        Programs(m.trace) + ([Chunk(addr, data)] + rest);
      }
    } else {
      if ReadyCount(m.status) > 0 {
        ReadyCountPositive(m.status);
      }
      assert [Chunk(addr, data)] + Blanks(addr + room, 0) == [Chunk(addr, data)];
    }
  }

  /** The first turn of a literal write that crosses offset 8 writes the bytes
      up to offset 8 and, if the chip finishes, goes on from offset 8. */
  lemma {:induction false} FirstTurnOfCrossing(m: Machine, addr: u32, buffer: seq<byte>)
    requires m.run == Running && Offset(addr) <= MEMORY_PAGE_SIZE < Offset(addr) + |buffer|
    ensures var room := MEMORY_PAGE_SIZE - Offset(addr);
      var m' := WritePageSpec(m, MEMORY_PAGE_SIZE, addr, buffer[..room], room);
      && addr + room < U32_LIMIT && Offset(addr + room) == MEMORY_PAGE_SIZE
      && WriteLoop(m, MEMORY_PAGE_SIZE, addr, buffer, 0) ==
           if m'.run == Running then WriteLoop(m', MEMORY_PAGE_SIZE, addr + room, buffer, room) else m'
  {
    var room := MEMORY_PAGE_SIZE - Offset(addr);
    assert ChunkSize(room, |buffer|) == room && buffer[0..room] == buffer[..room];
    OffsetAdvance(addr, room);
    TurnUnfold(m, MEMORY_PAGE_SIZE, addr, buffer, 0);
  }

  /** With the literal 8-byte page, `write_memory` returns exactly when there is
      nothing to write, or when all of it fits between the offset `addr & 0xff`
      and 8 and the chip finishes the one page write; that write is then the only
      page program.  Data that crosses offset 8 makes it spin for ever, and an
      offset above 8 panics before anything is issued. */
  lemma {:induction false} LiteralWriteOutcome(m: Machine, addr: u32, buffer: seq<byte>)
    requires m.run == Running
    ensures var r := WriteLoop(m, MEMORY_PAGE_SIZE, addr, buffer, 0);
      && (r.run == Running <==>
            |buffer| == 0 || (Offset(addr) + |buffer| <= MEMORY_PAGE_SIZE && Ready(m.status)))
      && (r.run == Running ==>
            Programs(r.trace) == Programs(m.trace) + if buffer == [] then [] else [Chunk(addr, buffer)])
      && (0 < |buffer| && Offset(addr) <= MEMORY_PAGE_SIZE < Offset(addr) + |buffer| ==> r.run == Spinning)
      && (0 < |buffer| && MEMORY_PAGE_SIZE < Offset(addr) ==> r == m.(run := Panicked(SubtractOverflow)))
  {
    if buffer == [] {
      assert Programs(m.trace) + [] == Programs(m.trace);
    } else if Offset(addr) + |buffer| <= MEMORY_PAGE_SIZE {
      LiteralWriteFits(m, addr, buffer);
    } else if Offset(addr) <= MEMORY_PAGE_SIZE {
      LiteralWriteCrosses(m, addr, buffer);
    }
  }

  /** Ten bytes at address 4 with the literal constants: the first program
      writes the four bytes up to offset 8; after it come only empty writes at
      address 8, one per remaining idle answer, and the call never returns. */
  lemma {:induction false} TenBytesAtFourStall(m: Machine, buffer: seq<byte>)
    requires m.run == Running && |buffer| == 10
    ensures var r := WriteLoop(m, MEMORY_PAGE_SIZE, 4, buffer, 0);
      && r.run == Spinning
      && Programs(r.trace) == Programs(m.trace) + ([Chunk(4, buffer[..4])] + Blanks(8, ReadyCount(m.status)))
  {
    LiteralWriteCrosses(m, 4, buffer);
  }
}
