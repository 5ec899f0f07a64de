/** The poll loop of the non-blocking echo server over its table of slots. */
module EchoServer {
  import opened Bytes
  import opened EchoSlot

  datatype Option<T> = None | Some(value: T)

  type Traffic = map<int, seq<u8>>

  function Of(m: Traffic, conn: int): seq<u8> {
    if conn in m then m[conn] else []
  }

  /**
   * `slots` are `client[1]`, `client[2]`, ... with their buffers, `active` is `activeClients`, and `listening` says that
   * `client[0]` is open. The rest is history: connections accepted and closed, bytes read from and written to each.
   * A connection stands for its descriptor; the kernel may reuse the number, the connection is a new one.
   */
  datatype Server = Server(slots: seq<Slot>, active: int, listening: bool,
                           accepted: seq<int>, closed: seq<int>, got: Traffic, put: Traffic)

  /** One round: the interrupt flag as the round reads it - at the top, before `accept`, at the end -, the connection
      `accept` returned, and each slot's events. */
  datatype Env = Env(finishTop: bool, finishAccept: bool, finishEnd: bool, arrival: Option<int>, ios: seq<Io>)

  /** The first free slot from `i` on, or the table size. */
  function FirstFree(slots: seq<Slot>, i: nat): (r: nat)
    requires i <= |slots|
    ensures i <= r <= |slots|
    ensures forall j :: i <= j < r ==> slots[j].fd != FREE
    ensures r < |slots| ==> slots[r].fd == FREE
    decreases |slots| - i
  {
    if i == |slots| || slots[i].fd == FREE then i else FirstFree(slots, i + 1)
  }

  /** `accept`: the connection takes the first free slot, or is closed at once if there is none. */
  function Accept(v: Server, conn: int): Server {
    var i := FirstFree(v.slots, 0);
    if i < |v.slots| then
      v.(slots := v.slots[i := v.slots[i].(fd := conn, events := WantRead)],
         active := v.active + 1, accepted := v.accepted + [conn])
    else
      v.(accepted := v.accepted + [conn], closed := v.closed + [conn])
  }

  /** One slot's turn, with what it does to the connection's history. */
  function Serve(v: Server, i: nat, io: Io): Server
    requires i < |v.slots| && SlotOk(v.slots[i]) && KernelOk(v.slots[i], io)
  {
    var s := v.slots[i];
    var t := Turn(s, io);
    if s.fd == FREE then v.(slots := v.slots[i := t])
    else
      v.(slots := v.slots[i := t],
         active := if t.fd == FREE then v.active - 1 else v.active,
         closed := if t.fd == FREE then v.closed + [s.fd] else v.closed,
         got := v.got[s.fd := Of(v.got, s.fd) + Incoming(s, io)],
         put := v.put[s.fd := Of(v.put, s.fd) + Echoed(s, io)])
  }

  ghost predicate IosOk(slots: seq<Slot>, ios: seq<Io>, i: nat) {
    |ios| == |slots| && forall j :: i <= j < |slots| ==> SlotOk(slots[j]) && KernelOk(slots[j], ios[j])
  }

  ghost function ServeFrom(v: Server, i: nat, ios: seq<Io>): Server
    requires i <= |v.slots| && IosOk(v.slots, ios, i)
    decreases |v.slots| - i
  {
    if i == |v.slots| then v else ServeFrom(Serve(v, i, ios[i]), i + 1, ios)
  }

  /** The server after it has noticed the interrupt and taken the new connection, before the slots have their turns. */
  function Admit(v: Server, e: Env): Server {
    var u := if e.finishTop then v.(listening := false) else v;
    if !e.finishAccept && e.arrival.Some? then Accept(u, e.arrival.value) else u
  }

  ghost function Round(v: Server, e: Env): Server
    requires IosOk(Admit(v, e).slots, e.ios, 0)
  {
    ServeFrom(Admit(v, e), 0, e.ios)
  }

  /** The program itself, with the table updated in place. */
  class Loop {
    const client: array<Slot>
    var activeClients: int
    var listening: bool
    ghost var accepted: seq<int>
    ghost var closed: seq<int>
    ghost var got: Traffic
    ghost var put: Traffic

    ghost function Abs(): Server
      reads this, client
    {
      Server(client[..], activeClients, listening, accepted, closed, got, put)
    }

    constructor (n: nat)
      ensures client.Length == n && fresh(client)
      ensures Abs() == Server(seq(n, i => Slot(FREE, WantRead, seq(BUF_SIZE, j => 0), 0, 0)), 0, true, [], [], map[], map[])
    {
      var buf: seq<u8> := seq(BUF_SIZE, j => 0);
      client := new Slot[n](i => Slot(FREE, WantRead, buf, 0, 0));
      activeClients, listening, accepted, closed, got, put := 0, true, [], [], map[], map[];
      new;
      assert client[..] == seq(n, i => Slot(FREE, WantRead, buf, 0, 0));
    }

    /** A new connection looks for a free slot. */
    method TakeConnection(msgsock: int)
      modifies this`activeClients, this`accepted, this`closed, client
      ensures Abs() == Accept(old(Abs()), msgsock)
    {
      accepted := accepted + [msgsock];
      var i := 0;
      while i < client.Length && client[i].fd != FREE
        invariant i <= client.Length
        invariant FirstFree(client[..], i) == FirstFree(client[..], 0)
      {
        i := i + 1;
      }
      if i < client.Length {
        client[i] := client[i].(fd := msgsock, events := WantRead);
        activeClients := activeClients + 1;
      } else {
        closed := closed + [msgsock];
      }
    }

    /** The slots take their turns. */
    method ServeClients(ios: seq<Io>)
      requires IosOk(client[..], ios, 0)
      modifies this`activeClients, this`closed, this`got, this`put, client
      ensures Abs() == ServeFrom(old(Abs()), 0, ios)
    {
      hide SlotOk, KernelOk, Turn, Echoed, Incoming;
      ghost var v0 := Abs();
      for i := 0 to client.Length
        invariant IosOk(client[..], ios, i)
        invariant ServeFrom(Abs(), i, ios) == ServeFrom(v0, 0, ios)
      {
        ghost var v := Abs();
        ServeOne(i, ios[i]);
        assert forall j :: i < j < client.Length ==> client[..][j] == v.slots[j];
      }
    }

    /** The body of the slot loop: read, then write. */
    method ServeOne(i: nat, io: Io)
      requires i < client.Length && SlotOk(client[i]) && KernelOk(client[i], io)
      modifies this`activeClients, this`closed, this`got, this`put, client
      ensures Abs() == Serve(old(Abs()), i, io)
    {
      hide Overlay, Unsent, Reads, Writes, ReadPhase, WritePhase, Incoming;
      ghost var s := client[i];
      ReadTurn(i, io);
      ReadOk(s, io);
      PhasesKeepFd(s, io);
      WriteTurn(i, io);
      if s.fd != FREE {
        got := got[s.fd := Of(got, s.fd) + Incoming(s, io)];
        put := put[s.fd := Of(put, s.fd) + Echoed(s, io)];
        if client[i].fd == FREE {
          closed := closed + [s.fd];
        }
      }
      assert client[..] == old(client[..])[i := Turn(s, io)];
    }

    method ReadTurn(i: nat, io: Io)
      requires i < client.Length && |client[i].buf| == BUF_SIZE && |Incoming(client[i], io)| <= BUF_SIZE
      modifies this`activeClients, client
      ensures client[..] == old(client[..])[i := ReadPhase(old(client[i]), io)]
      ensures activeClients == old(activeClients) - if old(client[i].fd) != FREE && client[i].fd == FREE then 1 else 0
    {
      if client[i].fd != FREE && (io.ready.input || io.ready.error) {
        match io.read
        case ReadFailed =>
          client[i] := client[i].(fd := FREE);
          activeClients := activeClients - 1;
        case ReadBytes(data) =>
          if |data| == 0 {
            client[i] := client[i].(fd := FREE);
            activeClients := activeClients - 1;
          } else {
            client[i] := client[i].(buf := Overlay(client[i].buf, data), len := |data|, pos := 0);
            client[i] := client[i].(events := WantWrite);
          }
      }
    }

    method WriteTurn(i: nat, io: Io)
      requires i < client.Length
      modifies this`activeClients, client
      ensures client[..] == old(client[..])[i := WritePhase(old(client[i]), io)]
      ensures activeClients == old(activeClients) - if old(client[i].fd) != FREE && client[i].fd == FREE then 1 else 0
    {
      if client[i].fd != FREE && io.ready.output {
        match io.write
        case WriteFailed =>
          client[i] := client[i].(fd := FREE);
          activeClients := activeClients - 1;
        case Wrote(rval) =>
          client[i] := client[i].(pos := client[i].pos + rval);
          if client[i].pos == client[i].len {
            client[i] := client[i].(events := WantRead);
          }
      }
    }

    /** One round of the main loop; the caller goes on while `more`. */
    method OneRound(e: Env) returns (more: bool)
      requires IosOk(Admit(Abs(), e).slots, e.ios, 0)
      modifies this, client
      ensures Abs() == Round(old(Abs()), e)
      ensures more <==> !e.finishEnd || activeClients > 0
    {
      if e.finishTop && listening {
        listening := false;
      }
      if !e.finishAccept && e.arrival.Some? {
        TakeConnection(e.arrival.value);
      }
      ServeClients(e.ios);
      more := !e.finishEnd || activeClients > 0;
    }
  }
}
