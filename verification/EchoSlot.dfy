/** One client slot of the non-blocking echo server: a read phase, then a write phase until everything is echoed. */
module EchoSlot {
  import opened Bytes

  const BUF_SIZE: nat := 50000
  const FREE: int := -1

  /** What the slot is subscribed to: `POLLIN` or `POLLOUT`. */
  datatype Interest = WantRead | WantWrite

  /** `client[i].fd` and `.events`, `buf[i]`, `buf_len[i]` and `buf_pos[i]`. */
  datatype Slot = Slot(fd: int, events: Interest, buf: seq<u8>, len: nat, pos: nat)

  /** `revents`: `POLLIN`, `POLLOUT`, `POLLERR`. */
  datatype Ready = Ready(input: bool, output: bool, error: bool)

  datatype ReadResult = ReadFailed | ReadBytes(data: seq<u8>)
  datatype WriteResult = WriteFailed | Wrote(count: nat)

  /** The kernel's answers for one slot in one round of the loop. */
  datatype Io = Io(ready: Ready, read: ReadResult, write: WriteResult)

  function Overlay(buf: seq<u8>, data: seq<u8>): (r: seq<u8>)
    requires |data| <= |buf|
    ensures |r| == |buf| && r[..|data|] == data
  {
    data + buf[|data|..]
  }

  predicate Reads(s: Slot, io: Io) {
    s.fd != FREE && (io.ready.input || io.ready.error)
  }

  predicate Writes(s: Slot, io: Io) {
    s.fd != FREE && io.ready.output
  }

  /** The bytes `read` hands over. */
  function Incoming(s: Slot, io: Io): seq<u8> {
    if Reads(s, io) && io.read.ReadBytes? then io.read.data else []
  }

  /** The first `if` of the loop body. */
  function ReadPhase(s: Slot, io: Io): Slot
    requires |s.buf| == BUF_SIZE && |Incoming(s, io)| <= BUF_SIZE
  {
    if !Reads(s, io) then s
    else match io.read
      case ReadFailed => s.(fd := FREE)
      case ReadBytes(data) =>
        if data == [] then s.(fd := FREE)
        else Slot(s.fd, WantWrite, Overlay(s.buf, data), |data|, 0)
  }

  /** The bytes `write` takes. */
  function Outgoing(s: Slot, io: Io): seq<u8>
    requires s.pos <= s.len <= |s.buf|
  {
    if Writes(s, io) && io.write.Wrote? && io.write.count <= s.len - s.pos then s.buf[s.pos..s.pos + io.write.count] else []
  }

  /** The second `if` of the loop body. */
  function WritePhase(s: Slot, io: Io): Slot {
    if !Writes(s, io) then s
    else match io.write
      case WriteFailed => s.(fd := FREE)
      case Wrote(n) =>
        s.(pos := s.pos + n, events := if s.pos + n == s.len then WantRead else s.events)
  }

  predicate SlotOk(s: Slot) {
    && |s.buf| == BUF_SIZE && s.pos <= s.len <= BUF_SIZE
    && (s.fd != FREE && s.events == WantWrite ==> s.pos < s.len)
  }

  /** `read` and `write` return no more than they were asked for. */
  predicate KernelOk(s: Slot, io: Io)
    requires SlotOk(s)
  {
    && |Incoming(s, io)| <= BUF_SIZE
    && var r := ReadPhase(s, io);
       Writes(r, io) && io.write.Wrote? ==> io.write.count <= r.len - r.pos
  }

  /** `poll` reports input and output only where the slot asked for them; an error it reports regardless. */
  predicate Subscribed(s: Slot, io: Io) {
    (io.ready.input ==> s.events == WantRead) && (io.ready.output ==> s.events == WantWrite)
  }

  /** What has been read but not yet written back. */
  function Unsent(s: Slot): seq<u8>
    requires SlotOk(s)
  {
    if s.events == WantWrite then s.buf[s.pos..s.len] else []
  }

  /** One slot's turn. */
  function Turn(s: Slot, io: Io): Slot
    requires SlotOk(s) && KernelOk(s, io)
  {
    WritePhase(ReadPhase(s, io), io)
  }

  function Echoed(s: Slot, io: Io): seq<u8>
    requires SlotOk(s) && KernelOk(s, io)
  {
    ReadOk(s, io);
    Outgoing(ReadPhase(s, io), io)
  }

  lemma ReadOk(s: Slot, io: Io)
    requires SlotOk(s) && KernelOk(s, io)
    ensures SlotOk(ReadPhase(s, io))
  {
  }

  lemma PhasesKeepFd(s: Slot, io: Io)
    requires SlotOk(s) && KernelOk(s, io)
    ensures ReadPhase(s, io).fd in {s.fd, FREE} && Turn(s, io).fd in {ReadPhase(s, io).fd, FREE}
  {
  }

  /** The read overwrites bytes that have not been echoed yet: an error was reported in the write phase, yet reading works. */
  predicate Overwrites(s: Slot, io: Io) {
    s.events == WantWrite && Incoming(s, io) != []
  }

  /** A turn loses no byte and invents none - what is echoed and what is left are what was left and what came in -
      if and only if it does not read over an unsent buffer. */
  lemma TurnConservesIff(s: Slot, io: Io)
    requires SlotOk(s) && KernelOk(s, io) && Subscribed(s, io) && s.fd != FREE && Turn(s, io).fd != FREE
    ensures SlotOk(Turn(s, io))
    ensures Echoed(s, io) + Unsent(Turn(s, io)) == Unsent(s) + Incoming(s, io) <==> !Overwrites(s, io)
  {
    var r := ReadPhase(s, io);
    WriteConserves(r, io);
    if Reads(s, io) {
      assert Unsent(r) == Incoming(s, io);
    }
    if Overwrites(s, io) {
      assert |Unsent(s) + Incoming(s, io)| > |Unsent(r)|;
    }
  }

  /** With one byte unsent, an error reported and another byte read, the unsent one is lost. */
  lemma UnsentByteLost() returns (s: Slot, io: Io)
    ensures SlotOk(s) && KernelOk(s, io) && Subscribed(s, io) && s.fd != FREE && Turn(s, io).fd != FREE
    ensures SlotOk(Turn(s, io)) && Unsent(s) == [1] && Echoed(s, io) + Unsent(Turn(s, io)) == [2]
  {
    var rest := seq(BUF_SIZE - 1, _ => 0 as u8);
    s := Slot(4, WantWrite, [1] + rest, 1, 0);
    io := Io(Ready(false, false, true), ReadBytes([2]), WriteFailed);
    assert s.buf[1..] == rest;
  }

  lemma WriteConserves(r: Slot, io: Io)
    requires SlotOk(r) && r.fd != FREE && WritePhase(r, io).fd != FREE
    requires Writes(r, io) && io.write.Wrote? ==> io.write.count <= r.len - r.pos
    ensures SlotOk(WritePhase(r, io))
    ensures r.events == WantWrite || !Writes(r, io) ==> Outgoing(r, io) + Unsent(WritePhase(r, io)) == Unsent(r)
  {
  }

  /** A turn that ends the connection has echoed no more than it owed. */
  lemma ClosingTurn(s: Slot, io: Io)
    requires SlotOk(s) && KernelOk(s, io) && Subscribed(s, io) && s.fd != FREE && Turn(s, io).fd == FREE
    ensures SlotOk(Turn(s, io)) && Echoed(s, io) == []
  {
  }

  // ---- What each turn does

  /** `read` failed or met the end of the stream, or `write` failed. */
  predicate Ends(io: Io) {
    || ((io.ready.input || io.ready.error) && (io.read == ReadFailed || io.read == ReadBytes([])))
    || (io.ready.output && io.write == WriteFailed)
  }

  /** A turn ends the connection exactly in these cases. */
  lemma TurnEndsIff(s: Slot, io: Io)
    requires SlotOk(s) && KernelOk(s, io) && Subscribed(s, io) && s.fd != FREE
    ensures Turn(s, io).fd == FREE <==> Ends(io)
    ensures Turn(s, io).fd in {s.fd, FREE}
  {
  }

  /** Bytes read from a slot in its read phase are all kept, to be written from now on. */
  lemma TurnReads(s: Slot, io: Io, data: seq<u8>)
    requires SlotOk(s) && KernelOk(s, io) && Subscribed(s, io) && s.fd != FREE
    requires s.events == WantRead && (io.ready.input || io.ready.error) && io.read == ReadBytes(data) && data != []
    ensures var t := Turn(s, io);
            SlotOk(t) && t.fd == s.fd && t.events == WantWrite && Unsent(t) == data && Echoed(s, io) == []
  {
  }

  /** A slot in its write phase writes the first of its unsent bytes - as many as the kernel takes - keeps the others, and
      reads again once there are none. */
  lemma TurnWrites(s: Slot, io: Io, n: nat)
    requires SlotOk(s) && KernelOk(s, io) && Subscribed(s, io) && s.fd != FREE
    requires s.events == WantWrite && !io.ready.error && io.ready.output && io.write == Wrote(n)
    ensures var t := Turn(s, io);
            && n <= |Unsent(s)| && SlotOk(t) && t.fd == s.fd
            && Echoed(s, io) == Unsent(s)[..n] && Unsent(t) == Unsent(s)[n..]
            && (t.events == WantRead <==> n == |Unsent(s)|)
  {
  }

  /** Nothing happens in a free slot, nor in one that `poll` does not report. */
  lemma TurnRests(s: Slot, io: Io)
    requires SlotOk(s) && KernelOk(s, io) && (s.fd == FREE || !(io.ready.input || io.ready.output || io.ready.error))
    ensures Turn(s, io) == s && Echoed(s, io) == [] && Incoming(s, io) == []
  {
  }
}
