/** Whole runs of the echo server: its accounting of connections, and the bytes between it and its clients. */
module EchoRuns {
  import opened Bytes
  import opened EchoSlot
  import opened EchoServer

  function One(b: bool): nat {
    if b then 1 else 0
  }

  /** The number of slots in use. */
  function Occupied(slots: seq<Slot>): nat {
    if slots == [] then 0 else One(slots[0].fd != FREE) + Occupied(slots[1..])
  }

  /** The number of slots that hold connection `c`. */
  function Holding(slots: seq<Slot>, c: int): nat {
    if slots == [] then 0 else One(slots[0].fd == c) + Holding(slots[1..], c)
  }

  /** How often `c` occurs in a history. */
  function Times(s: seq<int>, c: int): nat {
    if s == [] then 0 else Times(s[..|s| - 1], c) + One(s[|s| - 1] == c)
  }

  lemma TimesAppend(s: seq<int>, x: int, c: int)
    ensures Times(s + [x], c) == Times(s, c) + One(x == c)
  {
    assert (s + [x])[..|s|] == s;
  }

  lemma {:induction false} TimesMember(s: seq<int>, c: int)
    ensures Times(s, c) > 0 <==> c in s
  {
    if s != [] {
      TimesMember(s[..|s| - 1], c);
      assert s == s[..|s| - 1] + [s[|s| - 1]];
    }
  }

  lemma {:induction false} UpdateCounts(slots: seq<Slot>, i: nat, t: Slot, c: int)
    requires i < |slots|
    ensures Occupied(slots[i := t]) + One(slots[i].fd != FREE) == Occupied(slots) + One(t.fd != FREE)
    ensures Holding(slots[i := t], c) + One(slots[i].fd == c) == Holding(slots, c) + One(t.fd == c)
  {
    if i == 0 {
      assert slots[i := t][1..] == slots[1..];
    } else {
      assert slots[i := t][1..] == slots[1..][i - 1 := t];
      UpdateCounts(slots[1..], i - 1, t, c);
    }
  }

  lemma {:induction false} HoldingAt(slots: seq<Slot>, i: nat)
    requires i < |slots|
    ensures Holding(slots, slots[i].fd) >= 1
  {
    if i > 0 { HoldingAt(slots[1..], i - 1); }
  }

  lemma {:induction false} HoldingTwice(slots: seq<Slot>, i: nat, j: nat)
    requires i < j < |slots| && slots[i].fd == slots[j].fd
    ensures Holding(slots, slots[i].fd) >= 2
  {
    if i == 0 {
      HoldingAt(slots[1..], j - 1);
    } else {
      HoldingTwice(slots[1..], i - 1, j - 1);
    }
  }

  lemma {:induction false} NoneHeld(slots: seq<Slot>, c: int)
    requires Occupied(slots) == 0 && c != FREE
    ensures Holding(slots, c) == 0
  {
    if slots != [] { NoneHeld(slots[1..], c); }
  }

  /** `activeClients` counts the slots in use, and every connection accepted is in exactly one slot or has been closed
      exactly once. */
  ghost predicate Accounted(v: Server) {
    && v.active == Occupied(v.slots)
    && FREE !in v.accepted
    && forall c: int :: c != FREE ==> Times(v.accepted, c) == Holding(v.slots, c) + Times(v.closed, c) <= 1
  }

  /** For every connection in the table: bytes written, then the unsent rest of the buffer, are the bytes read. */
  ghost predicate Conserved(v: Server) {
    && (forall i :: 0 <= i < |v.slots| ==> SlotOk(v.slots[i]))
    && (forall i :: 0 <= i < |v.slots| && v.slots[i].fd != FREE ==>
          Of(v.put, v.slots[i].fd) + Unsent(v.slots[i]) == Of(v.got, v.slots[i].fd))
    && (forall c :: c in v.closed ==> Of(v.put, c) <= Of(v.got, c))
    && (forall c :: c !in v.accepted ==> Of(v.put, c) == Of(v.got, c) == [])
  }

  ghost predicate Inv(v: Server) {
    Accounted(v) && Conserved(v)
  }

  /** What is assumed of the kernel for a slot's turn: answers within bounds, readiness as asked for, and an error
      condition in the write phase makes `read` fail. */
  ghost predicate Orderly(s: Slot, io: Io)
    requires SlotOk(s)
  {
    KernelOk(s, io) && Subscribed(s, io) && !Overwrites(s, io)
  }

  lemma FdsDistinct(v: Server, i: nat, j: nat)
    requires Accounted(v) && i < |v.slots| && j < |v.slots| && i != j && v.slots[i].fd != FREE
    ensures v.slots[i].fd != v.slots[j].fd
  {
    var c := v.slots[i].fd;
    assert Holding(v.slots, c) <= 1 by { assert Times(v.accepted, c) <= 1; }
    if v.slots[j].fd == c {
      HoldingTwice(v.slots, if i < j then i else j, if i < j then j else i);
    }
  }

  lemma OpenAccepted(v: Server, i: nat)
    requires Accounted(v) && i < |v.slots| && v.slots[i].fd != FREE
    ensures v.slots[i].fd in v.accepted && v.slots[i].fd !in v.closed
  {
    var c := v.slots[i].fd;
    HoldingAt(v.slots, i);
    TimesMember(v.accepted, c);
    TimesMember(v.closed, c);
    assert Times(v.accepted, c) == Holding(v.slots, c) + Times(v.closed, c) <= 1;
  }

  lemma AcceptKeepsAccounts(v: Server, conn: int)
    requires Accounted(v) && conn != FREE && conn !in v.accepted
    ensures Accounted(Accept(v, conn))
  {
    var i, u := FirstFree(v.slots, 0), Accept(v, conn);
    TimesMember(v.accepted, conn);
    if i < |v.slots| {
      UpdateCounts(v.slots, i, v.slots[i].(fd := conn, events := WantRead), conn);
    }
    forall c: int | c != FREE ensures Times(u.accepted, c) == Holding(u.slots, c) + Times(u.closed, c) <= 1 {
      assert Times(v.accepted, c) == Holding(v.slots, c) + Times(v.closed, c) <= 1;
      TimesAppend(v.accepted, conn, c);
      TimesAppend(v.closed, conn, c);
      if i < |v.slots| {
        UpdateCounts(v.slots, i, v.slots[i].(fd := conn, events := WantRead), c);
      }
    }
  }

  lemma AcceptKeepsConserved(v: Server, conn: int)
    requires Conserved(v) && conn != FREE && conn !in v.accepted
    ensures Conserved(Accept(v, conn))
  {
  }

  lemma ServeKeepsAccounts(v: Server, i: nat, io: Io)
    requires Accounted(v) && i < |v.slots| && SlotOk(v.slots[i]) && KernelOk(v.slots[i], io)
    ensures Accounted(Serve(v, i, io))
  {
    hide SlotOk, KernelOk, Turn, Echoed, Incoming, Times, Holding, Occupied;
    var s, t, u := v.slots[i], Turn(v.slots[i], io), Serve(v, i, io);
    TurnKeepsFd(s, io);
    UpdateCounts(v.slots, i, t, 0);
    forall c: int | c != FREE ensures Times(u.accepted, c) == Holding(u.slots, c) + Times(u.closed, c) <= 1 {
      assert Times(v.accepted, c) == Holding(v.slots, c) + Times(v.closed, c) <= 1;
      TimesAppend(v.closed, s.fd, c);
      UpdateCounts(v.slots, i, t, c);
    }
  }

  lemma TurnKeepsFd(s: Slot, io: Io)
    requires SlotOk(s) && KernelOk(s, io)
    ensures Turn(s, io).fd == FREE || Turn(s, io).fd == s.fd
    ensures s.fd == FREE ==> Turn(s, io) == s
  {
  }

  lemma TurnKeepsConserved(s: Slot, io: Io)
    requires SlotOk(s) && Orderly(s, io)
    ensures SlotOk(Turn(s, io))
    ensures s.fd != FREE ==>
              if Turn(s, io).fd == FREE then Echoed(s, io) <= Unsent(s) + Incoming(s, io)
              else Echoed(s, io) + Unsent(Turn(s, io)) == Unsent(s) + Incoming(s, io)
  {
    if s.fd != FREE {
      if Turn(s, io).fd == FREE { ClosingTurn(s, io); } else { TurnConservesIff(s, io); }
    }
  }

  lemma ServeKeepsConserved(v: Server, i: nat, io: Io)
    requires Inv(v) && i < |v.slots| && Orderly(v.slots[i], io)
    ensures Conserved(Serve(v, i, io))
  {
    hide SlotOk, KernelOk, Turn, Echoed, Incoming, Unsent, Subscribed, Overwrites, Accounted, Of;
    var s := v.slots[i];
    var t, u := Turn(s, io), Serve(v, i, io);
    TurnKeepsFd(s, io);
    TurnKeepsConserved(s, io);
    if s.fd != FREE {
      OpenAccepted(v, i);
      ServeTraffic(v, i, io);
      Regroup(Of(v.put, s.fd), Echoed(s, io), Unsent(s), Incoming(s, io), if t.fd == FREE then [] else Unsent(t));
      forall j | 0 <= j < |u.slots| && u.slots[j].fd != FREE
        ensures Of(u.put, u.slots[j].fd) + Unsent(u.slots[j]) == Of(u.got, u.slots[j].fd)
      {
        if j != i { FdsDistinct(v, i, j); }
      }
    }
  }

  lemma ServeTraffic(v: Server, i: nat, io: Io)
    requires i < |v.slots| && SlotOk(v.slots[i]) && KernelOk(v.slots[i], io) && v.slots[i].fd != FREE
    ensures var u, c := Serve(v, i, io), v.slots[i].fd;
            && Of(u.got, c) == Of(v.got, c) + Incoming(v.slots[i], io)
            && Of(u.put, c) == Of(v.put, c) + Echoed(v.slots[i], io)
            && forall k :: k != c ==> Of(u.got, k) == Of(v.got, k) && Of(u.put, k) == Of(v.put, k)
  {
  }

  lemma Regroup<T>(put: seq<T>, out: seq<T>, unsent: seq<T>, more: seq<T>, rest: seq<T>)
    ensures out + rest == unsent + more ==> (put + out) + rest == (put + unsent) + more
    ensures out <= unsent + more ==> put + out <= (put + unsent) + more
  {
    assert (put + out) + rest == put + (out + rest);
    assert (put + unsent) + more == put + (unsent + more);
  }

  // ---- The server between its clients

  /** The server, and for each connection what its client has sent and received. */
  datatype World = World(server: Server, sent: Traffic, received: Traffic)

  datatype Step =
    | ClientSends(conn: int, data: seq<u8>)
    | ClientReceives(conn: int, data: seq<u8>)
    | ServerRound(env: Env)

  /** The kernel is orderly in this round, and what `read` returns are the next bytes the client has sent. */
  ghost predicate RoundOk(v: Server, sent: Traffic, e: Env) {
    var u := Admit(v, e);
    && (e.arrival.Some? && !e.finishAccept ==> e.arrival.value != FREE && e.arrival.value !in v.accepted)
    && |e.ios| == |u.slots|
    && (forall i :: 0 <= i < |u.slots| ==>
          && SlotOk(u.slots[i]) && Orderly(u.slots[i], e.ios[i])
          && Of(u.got, u.slots[i].fd) + Incoming(u.slots[i], e.ios[i]) <= Of(sent, u.slots[i].fd))
  }

  ghost predicate Enabled(w: World, step: Step) {
    match step
    case ClientSends(conn, data) => true
    case ClientReceives(conn, data) => Of(w.received, conn) + data <= Of(w.server.put, conn)
    case ServerRound(e) => RoundOk(w.server, w.sent, e)
  }

  ghost function Next(w: World, step: Step): World
    requires Enabled(w, step)
  {
    match step
    case ClientSends(conn, data) => w.(sent := w.sent[conn := Of(w.sent, conn) + data])
    case ClientReceives(conn, data) => w.(received := w.received[conn := Of(w.received, conn) + data])
    case ServerRound(e) => w.(server := Round(w.server, e))
  }

  /** On every connection: received by the client, then written by the server, then read by it, then sent by the client -
      each a prefix of the next. */
  ghost predicate Chained(w: World) {
    && Inv(w.server)
    && (forall c: int :: Of(w.received, c) <= Of(w.server.put, c) && Of(w.server.put, c) <= Of(w.server.got, c))
    && (forall c: int :: Of(w.server.got, c) <= Of(w.sent, c))
  }

  ghost predicate Legal(w: World, steps: seq<Step>)
    decreases |steps|
  {
    steps == [] || (Enabled(w, steps[0]) && Legal(Next(w, steps[0]), steps[1..]))
  }

  ghost function Run(w: World, steps: seq<Step>): World
    requires Legal(w, steps)
    decreases |steps|
  {
    if steps == [] then w else Run(Next(w, steps[0]), steps[1..])
  }

  function Start(n: nat): World {
    World(Server(seq(n, i => Slot(FREE, WantRead, seq(BUF_SIZE, j => 0), 0, 0)), 0, true, [], [], map[], map[]), map[], map[])
  }

  lemma PutIsPrefix(v: Server, c: int)
    requires Inv(v)
    ensures Of(v.put, c) <= Of(v.got, c)
  {
    hide SlotOk, Unsent;
    if c in v.accepted {
      assert c != FREE;
      assert Times(v.accepted, c) == Holding(v.slots, c) + Times(v.closed, c);
      TimesMember(v.accepted, c);
      TimesMember(v.closed, c);
      if c !in v.closed {
        var i := HeldSomewhere(v.slots, c);
        assert Of(v.put, c) + Unsent(v.slots[i]) == Of(v.got, c);
      }
    }
  }

  lemma {:induction false} HeldSomewhere(slots: seq<Slot>, c: int) returns (i: nat)
    requires Holding(slots, c) > 0
    ensures i < |slots| && slots[i].fd == c
  {
    if slots[0].fd == c {
      i := 0;
    } else {
      var j := HeldSomewhere(slots[1..], c);
      i := j + 1;
    }
  }

  /** What a round may assume about the slots still to be served. */
  ghost predicate Ahead(v: Server, sent: Traffic, ios: seq<Io>, i: nat) {
    && Inv(v) && |ios| == |v.slots| && i <= |v.slots|
    && (forall c: int :: Of(v.got, c) <= Of(sent, c))
    && (forall j :: i <= j < |v.slots| ==>
          && Orderly(v.slots[j], ios[j])
          && Of(v.got, v.slots[j].fd) + Incoming(v.slots[j], ios[j]) <= Of(sent, v.slots[j].fd))
  }

  lemma SlotsAreOk(v: Server, i: nat)
    requires Conserved(v) && i < |v.slots|
    ensures SlotOk(v.slots[i])
  {
  }

  lemma ServeKeepsAhead(v: Server, sent: Traffic, ios: seq<Io>, i: nat)
    requires Ahead(v, sent, ios, i) && i < |v.slots|
    ensures Ahead(Serve(v, i, ios[i]), sent, ios, i + 1)
    ensures forall c: int :: Of(v.put, c) <= Of(Serve(v, i, ios[i]).put, c)
  {
    hide SlotOk, KernelOk, Turn, Echoed, Incoming, Unsent, Subscribed, Overwrites, Accounted, Conserved, Of;
    assert SlotOk(v.slots[i]) by { SlotsAreOk(v, i); }
    var s, u := v.slots[i], Serve(v, i, ios[i]);
    ServeKeepsConserved(v, i, ios[i]);
    ServeKeepsAccounts(v, i, ios[i]);
    TurnKeepsFd(s, ios[i]);
    if s.fd != FREE {
      ServeTraffic(v, i, ios[i]);
      forall j | i < j < |v.slots| ensures v.slots[j].fd != s.fd {
        FdsDistinct(v, i, j);
      }
    }
  }

  lemma {:induction false} ServeFromKeepsAhead(v: Server, sent: Traffic, ios: seq<Io>, i: nat)
    requires i <= |v.slots| && Ahead(v, sent, ios, i) && IosOk(v.slots, ios, i)
    ensures Ahead(ServeFrom(v, i, ios), sent, ios, |v.slots|)
    ensures forall c: int :: Of(v.put, c) <= Of(ServeFrom(v, i, ios).put, c)
    decreases |v.slots| - i
  {
    hide Ahead, Of, Serve, SlotOk, KernelOk;
    if i < |v.slots| {
      var u := Serve(v, i, ios[i]);
      SameSize(v, i, ios[i]);
      ServeKeepsAhead(v, sent, ios, i);
      OthersOk(v, ios, i);
      ServeFromKeepsAhead(u, sent, ios, i + 1);
      forall c: int ensures Of(v.put, c) <= Of(ServeFrom(v, i, ios).put, c) {
        assert Of(v.put, c) <= Of(u.put, c);
      }
    }
  }

  lemma SameSize(v: Server, i: nat, io: Io)
    requires i < |v.slots| && SlotOk(v.slots[i]) && KernelOk(v.slots[i], io)
    ensures |Serve(v, i, io).slots| == |v.slots|
  {
  }

  lemma OthersOk(v: Server, ios: seq<Io>, i: nat)
    requires i < |v.slots| && IosOk(v.slots, ios, i)
    ensures IosOk(Serve(v, i, ios[i]).slots, ios, i + 1)
  {
    hide SlotOk, KernelOk, Turn;
  }

  lemma AdmitKeepsInv(v: Server, e: Env)
    requires Inv(v) && (e.arrival.Some? && !e.finishAccept ==> e.arrival.value != FREE && e.arrival.value !in v.accepted)
    ensures Inv(Admit(v, e)) && Admit(v, e).got == v.got && Admit(v, e).put == v.put
  {
    hide Accounted, Conserved;
    var u := if e.finishTop then v.(listening := false) else v;
    assert Inv(u) by { StillInv(v, u); }
    if !e.finishAccept && e.arrival.Some? {
      AcceptKeepsAccounts(u, e.arrival.value);
      AcceptKeepsConserved(u, e.arrival.value);
    }
  }

  lemma StillInv(v: Server, u: Server)
    requires Inv(v) && u == v.(listening := u.listening)
    ensures Inv(u)
  {
  }

  lemma RoundKeepsChained(w: World, e: Env)
    requires Chained(w) && RoundOk(w.server, w.sent, e)
    ensures Chained(w.(server := Round(w.server, e)))
  {
    hide Inv, SlotOk, Orderly, Incoming, Of, Accept, KernelOk, Serve;
    var v := w.server;
    var u := Admit(v, e);
    AdmitKeepsInv(v, e);
    assert IosOk(u.slots, e.ios, 0) by { OrderlyIsOk(u.slots, e.ios); }
    assert Ahead(u, w.sent, e.ios, 0);
    ServeFromKeepsAhead(u, w.sent, e.ios, 0);
    var r := Round(v, e);
    forall c: int ensures Of(w.received, c) <= Of(r.put, c) && Of(r.put, c) <= Of(r.got, c) {
      PutIsPrefix(r, c);
    }
  }

  lemma OrderlyIsOk(slots: seq<Slot>, ios: seq<Io>)
    requires |ios| == |slots| && forall i :: 0 <= i < |slots| ==> SlotOk(slots[i]) && Orderly(slots[i], ios[i])
    ensures IosOk(slots, ios, 0)
  {
  }

  lemma StepKeepsChained(w: World, step: Step)
    requires Chained(w) && Enabled(w, step)
    ensures Chained(Next(w, step))
  {
    hide Inv, RoundOk;
    match step
    case ClientSends(conn, data) =>
    case ClientReceives(conn, data) =>
    case ServerRound(e) => RoundKeepsChained(w, e);
  }

  lemma {:induction false} RunKeepsChained(w: World, steps: seq<Step>)
    requires Chained(w) && Legal(w, steps)
    ensures Chained(Run(w, steps))
    decreases |steps|
  {
    hide Chained, Enabled, Next;
    if steps != [] {
      StepKeepsChained(w, steps[0]);
      RunKeepsChained(Next(w, steps[0]), steps[1..]);
    }
  }

  lemma StartChained(n: nat)
    ensures Chained(Start(n))
  {
    NothingOpen(n);
  }

  lemma {:induction false} NothingOpen(n: nat)
    ensures Occupied(Start(n).server.slots) == 0
    ensures forall c: int :: c != FREE ==> Holding(Start(n).server.slots, c) == 0
  {
    var slots := Start(n).server.slots;
    if n > 0 {
      assert slots[1..] == Start(n - 1).server.slots;
      NothingOpen(n - 1);
    }
    forall c: int | c != FREE ensures Holding(slots, c) == 0 {
      NoneHeld(slots, c);
    }
  }

  /**
   * In every run, on every connection, what the client has received is a prefix of what it has sent; while the
   * connection is open, what it has sent is: received, on its way back, held by the server, on its way there.
   */
  lemma EchoConservation(n: nat, steps: seq<Step>, c: int)
    requires Legal(Start(n), steps)
    ensures var w := Run(Start(n), steps);
            && Of(w.received, c) <= Of(w.sent, c)
            && forall i :: 0 <= i < |w.server.slots| && w.server.slots[i].fd == c != FREE ==>
                 && SlotOk(w.server.slots[i])
                 && Of(w.received, c) <= Of(w.server.put, c)
                 && Of(w.server.put, c) + Unsent(w.server.slots[i]) == Of(w.server.got, c)
                 && Of(w.server.got, c) <= Of(w.sent, c)
  {
    hide SlotOk, Unsent, Of, Accounted;
    StartChained(n);
    RunKeepsChained(Start(n), steps);
    var w := Run(Start(n), steps);
    PrefixChain(Of(w.received, c), Of(w.server.put, c), Of(w.server.got, c), Of(w.sent, c));
  }

  lemma PrefixChain<T>(a: seq<T>, b: seq<T>, c: seq<T>, d: seq<T>)
    requires a <= b && b <= c && c <= d
    ensures a <= d
  {
  }

  /** Whenever the main loop may end - the interrupt noticed, no active clients - every connection ever accepted has been
      closed exactly once; and at all times each one accepted is in one slot or closed, never both. */
  lemma SlotAccounting(n: nat, steps: seq<Step>, c: int)
    requires Legal(Start(n), steps)
    ensures var v := Run(Start(n), steps).server;
            && v.active == Occupied(v.slots)
            && (c in v.accepted ==> Holding(v.slots, c) + Times(v.closed, c) == 1)
            && (v.active <= 0 && c in v.accepted ==> Times(v.closed, c) == 1 && Holding(v.slots, c) == 0)
  {
    StartChained(n);
    RunKeepsChained(Start(n), steps);
    var v := Run(Start(n), steps).server;
    TimesMember(v.accepted, c);
    if c in v.accepted {
      assert Times(v.accepted, c) == Holding(v.slots, c) + Times(v.closed, c) <= 1;
      if v.active <= 0 { NoneHeld(v.slots, c); }
    }
  }
}
