/** What one round of the echo server does to every connection, and why a connection is ever closed. */
module EchoRounds {
  import opened Bytes
  import opened EchoSlot
  import opened EchoServer
  import opened EchoRuns

  // ---- Taking a connection

  predicate Full(slots: seq<Slot>) {
    forall j :: 0 <= j < |slots| ==> slots[j].fd != FREE
  }

  /** If a slot is free, the first free one takes the connection and waits for its bytes; if none is, it is closed. */
  lemma AcceptTakes(v: Server, conn: int) returns (i: nat)
    ensures var u := Accept(v, conn);
            && u.accepted == v.accepted + [conn] && u.got == v.got && u.put == v.put && |u.slots| == |v.slots|
            && if Full(v.slots) then u.slots == v.slots && u.closed == v.closed + [conn] && u.active == v.active
               else
                 && i < |v.slots| && v.slots[i].fd == FREE && (forall j :: 0 <= j < i ==> v.slots[j].fd != FREE)
                 && u.slots[i].fd == conn && u.slots[i].events == WantRead
                 && (forall j :: 0 <= j < |v.slots| && j != i ==> u.slots[j] == v.slots[j])
                 && u.closed == v.closed && u.active == v.active + 1
  {
    i := FirstFree(v.slots, 0);
  }

  /** A connection that finds a free slot is open afterwards. */
  lemma AcceptedIsOpen(v: Server, conn: int)
    requires Accounted(v) && conn != FREE && conn !in v.accepted && !Full(v.slots)
    ensures Holding(Accept(v, conn).slots, conn) == 1 && conn !in Accept(v, conn).closed
  {
    hide Accept, Occupied;
    AcceptKeepsAccounts(v, conn);
    var i := AcceptTakes(v, conn);
    var u := Accept(v, conn);
    OpenAccepted(u, i);
    HoldingAt(u.slots, i);
    assert Times(u.accepted, conn) == Holding(u.slots, conn) + Times(u.closed, conn) <= 1;
  }

  // ---- The slots' turns

  /** Some slot from `i` on holds connection `c`, and its turn ends it. */
  ghost predicate EndedFrom(slots: seq<Slot>, i: nat, ios: seq<Io>, c: int)
    requires IosOk(slots, ios, i)
  {
    exists j :: i <= j < |slots| && slots[j].fd == c != FREE && Turn(slots[j], ios[j]).fd == FREE
  }

  /** The slots from `i` on are what their own answers make of them; those before are as they were. */
  ghost predicate SlotsServed(slots: seq<Slot>, i: nat, ios: seq<Io>, served: seq<Slot>)
    requires IosOk(slots, ios, i)
  {
    && |served| == |slots|
    && (forall j :: 0 <= j < i && j < |slots| ==> served[j] == slots[j])
    && (forall j :: i <= j < |slots| ==> served[j] == Turn(slots[j], ios[j]))
  }

  /** Each connection held from `i` on has read and written what its turn says, and no other has. */
  ghost predicate TrafficServed(v: Server, i: nat, ios: seq<Io>, r: Server)
    requires IosOk(v.slots, ios, i)
  {
    && (forall j :: i <= j < |v.slots| && v.slots[j].fd != FREE ==>
          && Of(r.got, v.slots[j].fd) == Of(v.got, v.slots[j].fd) + Incoming(v.slots[j], ios[j])
          && Of(r.put, v.slots[j].fd) == Of(v.put, v.slots[j].fd) + Echoed(v.slots[j], ios[j]))
    && (forall c: int :: (forall j :: i <= j < |v.slots| ==> v.slots[j].fd != c) || c == FREE ==>
          Of(r.got, c) == Of(v.got, c) && Of(r.put, c) == Of(v.put, c))
  }

  /** The slots from `i` on have had their turns, and exactly the connections whose turns ended them were closed. */
  ghost predicate ServedFrom(v: Server, i: nat, ios: seq<Io>, r: Server)
    requires IosOk(v.slots, ios, i)
  {
    && r.accepted == v.accepted && r.listening == v.listening
    && SlotsServed(v.slots, i, ios, r.slots)
    && TrafficServed(v, i, ios, r)
    && (forall c: int :: c in r.closed <==> c in v.closed || EndedFrom(v.slots, i, ios, c))
  }

  lemma {:induction false} ServeFromServes(v: Server, i: nat, ios: seq<Io>)
    requires i <= |v.slots| && IosOk(v.slots, ios, i) && Accounted(v)
    ensures ServedFrom(v, i, ios, ServeFrom(v, i, ios))
    decreases |v.slots| - i
  {
    hide SlotOk, KernelOk, Turn, Echoed, Incoming, Accounted, Serve, ServedFrom;
    if i == |v.slots| {
      NoneServed(v, ios);
    } else {
      var u := Serve(v, i, ios[i]);
      SameSize(v, i, ios[i]);
      OthersOk(v, ios, i);
      ServeKeepsAccounts(v, i, ios[i]);
      ServeFromServes(u, i + 1, ios);
      OneMoreServed(v, i, ios, ServeFrom(u, i + 1, ios));
    }
  }

  lemma NoneServed(v: Server, ios: seq<Io>)
    requires IosOk(v.slots, ios, |v.slots|)
    ensures ServedFrom(v, |v.slots|, ios, v)
  {
    hide SlotOk, KernelOk, Turn, Echoed, Incoming;
  }

  /** `r` is what serving the slots behind `i` makes of the server after the turn of slot `i`. */
  ghost predicate Continues(v: Server, i: nat, ios: seq<Io>, r: Server) {
    && i < |v.slots| && IosOk(v.slots, ios, i) && IosOk(Serve(v, i, ios[i]).slots, ios, i + 1)
    && Accounted(v)
    && ServedFrom(Serve(v, i, ios[i]), i + 1, ios, r)
  }

  lemma OneMoreServed(v: Server, i: nat, ios: seq<Io>, r: Server)
    requires Continues(v, i, ios, r)
    ensures ServedFrom(v, i, ios, r)
  {
    hide SlotOk, KernelOk, Turn, Accounted, SlotsServed, TrafficServed, EndedFrom, Echoed, Incoming, Of;
    OneMoreSlot(v, i, ios, r);
    OneMoreTraffic(v, i, ios, r);
    forall c: int ensures c in r.closed <==> c in v.closed || EndedFrom(v.slots, i, ios, c) {
      ClosedByServe(v, i, ios, c);
    }
  }

  lemma OneMoreSlot(v: Server, i: nat, ios: seq<Io>, r: Server)
    requires Continues(v, i, ios, r)
    ensures SlotsServed(v.slots, i, ios, r.slots)
  {
    hide SlotOk, KernelOk, Turn, Accounted, TrafficServed, EndedFrom, Echoed, Incoming, Of;
  }

  lemma OneMoreTraffic(v: Server, i: nat, ios: seq<Io>, r: Server)
    requires Continues(v, i, ios, r)
    ensures TrafficServed(v, i, ios, r)
  {
    hide SlotOk, KernelOk, Turn, Accounted, SlotsServed, EndedFrom, Echoed, Incoming, Of;
    var s, u := v.slots[i], Serve(v, i, ios[i]);
    OtherSlots(v, i, ios[i]);
    if s.fd != FREE {
      ServeTraffic(v, i, ios[i]);
      forall j | 0 <= j < |v.slots| && j != i ensures v.slots[j].fd != s.fd {
        FdsDistinct(v, i, j);
      }
    }
    hide Serve;
  }

  lemma OtherSlots(v: Server, i: nat, io: Io)
    requires i < |v.slots| && SlotOk(v.slots[i]) && KernelOk(v.slots[i], io)
    ensures var u := Serve(v, i, io);
            && |u.slots| == |v.slots| && (forall j :: 0 <= j < |v.slots| && j != i ==> u.slots[j] == v.slots[j])
            && (v.slots[i].fd == FREE ==> u.got == v.got && u.put == v.put)
  {
  }

  lemma ClosedByServe(v: Server, i: nat, ios: seq<Io>, c: int)
    requires i < |v.slots| && IosOk(v.slots, ios, i) && IosOk(Serve(v, i, ios[i]).slots, ios, i + 1)
    ensures c in Serve(v, i, ios[i]).closed || EndedFrom(Serve(v, i, ios[i]).slots, i + 1, ios, c) <==>
            c in v.closed || EndedFrom(v.slots, i, ios, c)
  {
    hide SlotOk, KernelOk, Turn, Echoed, Incoming;
    var u := Serve(v, i, ios[i]);
    if EndedFrom(u.slots, i + 1, ios, c) {
      var j :| i + 1 <= j < |u.slots| && u.slots[j].fd == c != FREE && Turn(u.slots[j], ios[j]).fd == FREE;
      assert u.slots[j] == v.slots[j];
    }
    if EndedFrom(v.slots, i, ios, c) {
      var j :| i <= j < |v.slots| && v.slots[j].fd == c != FREE && Turn(v.slots[j], ios[j]).fd == FREE;
      if j > i { assert u.slots[j] == v.slots[j]; }
    }
  }

  // ---- Rounds

  /** The table is full and the connection `c` arrives. */
  ghost predicate Refused(v: Server, e: Env, c: int) {
    e.arrival == Some(c) && !e.finishAccept && Full(v.slots)
  }

  /** The round refuses connection `c`, or some slot holds it and its `read` or `write` ends it. */
  ghost predicate ClosedIn(v: Server, e: Env, c: int) {
    || Refused(v, e, c)
    || exists i :: 0 <= i < |Admit(v, e).slots| && i < |e.ios| && Admit(v, e).slots[i].fd == c != FREE && Ends(e.ios[i])
  }

  ghost predicate Serving(v: Server, sent: Traffic, e: Env) {
    Inv(v) && RoundOk(v, sent, e)
  }

  lemma ServingIsOk(v: Server, sent: Traffic, e: Env)
    requires Serving(v, sent, e)
    ensures IosOk(Admit(v, e).slots, e.ios, 0) && Accounted(Admit(v, e))
  {
    hide SlotOk, Orderly, Incoming, Of, KernelOk, Conserved, Admit, Accounted;
    AdmitKeepsInv(v, e);
    OrderlyIsOk(Admit(v, e).slots, e.ios);
  }

  /** After a round every slot is its own turn of what it was once the new connection had been taken. */
  lemma RoundServesAll(v: Server, sent: Traffic, e: Env)
    requires Serving(v, sent, e)
    ensures IosOk(Admit(v, e).slots, e.ios, 0) && ServedFrom(Admit(v, e), 0, e.ios, Round(v, e))
  {
    hide Serving, IosOk, Admit, ServedFrom, Accounted;
    ServingIsOk(v, sent, e);
    ServeFromServes(Admit(v, e), 0, e.ios);
  }

  /** The interrupt closes the listening socket at the top of a round, and keeps it from taking the connection waiting;
      a round without it takes that connection and leaves the socket as it was. */
  lemma InterruptStops(v: Server, sent: Traffic, e: Env)
    requires Serving(v, sent, e)
    ensures IosOk(Admit(v, e).slots, e.ios, 0)
    ensures var r := Round(v, e);
            && (r.listening <==> v.listening && !e.finishTop)
            && r.accepted == v.accepted + if e.arrival.Some? && !e.finishAccept then [e.arrival.value] else []
  {
    hide IosOk, Serving, Round, EndedFrom;
    RoundServesAll(v, sent, e);
  }

  /** A round closes exactly the connection it refuses and those whose `read` or `write` ends them. */
  lemma RoundClosesIff(v: Server, sent: Traffic, e: Env, c: int)
    requires Serving(v, sent, e) && c != FREE
    ensures IosOk(Admit(v, e).slots, e.ios, 0) && (c in Round(v, e).closed <==> c in v.closed || ClosedIn(v, e, c))
  {
    hide SlotOk, KernelOk, Turn, Subscribed, Overwrites, Incoming, Echoed, Of, Inv, Accept, Round, Ends;
    RoundServesAll(v, sent, e);
    AdmitCloses(v, e, c);
    var u := Admit(v, e);
    forall i | 0 <= i < |u.slots| && u.slots[i].fd != FREE
      ensures Turn(u.slots[i], e.ios[i]).fd == FREE <==> Ends(e.ios[i])
    {
      TurnEndsIff(u.slots[i], e.ios[i]);
    }
  }

  lemma AdmitCloses(v: Server, e: Env, c: int)
    ensures c in Admit(v, e).closed <==> c in v.closed || Refused(v, e, c)
  {
    var u := if e.finishTop then v.(listening := false) else v;
    if !e.finishAccept && e.arrival.Some? {
      var i := AcceptTakes(u, e.arrival.value);
    }
  }

  // ---- Runs

  /** Some round of the run closes connection `c`. */
  ghost predicate ClosedAlong(w: World, steps: seq<Step>, c: int)
    requires Legal(w, steps)
    decreases |steps|
  {
    steps != [] && ((steps[0].ServerRound? && ClosedIn(w.server, steps[0].env, c)) || ClosedAlong(Next(w, steps[0]), steps[1..], c))
  }

  lemma {:induction false} RunCloses(w: World, steps: seq<Step>, c: int)
    requires Legal(w, steps) && Chained(w) && c != FREE
    ensures c in Run(w, steps).server.closed <==> c in w.server.closed || ClosedAlong(w, steps, c)
    decreases |steps|
  {
    hide Chained, Enabled, Next, ClosedIn;
    if steps != [] {
      StepKeepsChained(w, steps[0]);
      StepCloses(w, steps[0], c);
      RunCloses(Next(w, steps[0]), steps[1..], c);
    }
  }

  lemma StepCloses(w: World, step: Step, c: int)
    requires Chained(w) && Enabled(w, step) && c != FREE
    ensures c in Next(w, step).server.closed <==>
            c in w.server.closed || (step.ServerRound? && ClosedIn(w.server, step.env, c))
  {
    hide Inv, RoundOk, ClosedIn, Round;
    if step.ServerRound? {
      RoundClosesIff(w.server, w.sent, step.env, c);
    }
  }

  /** In every run, a connection is closed if and only if it was refused because the table was full, or a `read` from it
      failed or met its end, or a `write` to it failed: the server hangs up on nobody else. */
  lemma ClosedIff(n: nat, steps: seq<Step>, c: int)
    requires Legal(Start(n), steps) && c != FREE
    ensures c in Run(Start(n), steps).server.closed <==> ClosedAlong(Start(n), steps, c)
  {
    StartChained(n);
    RunCloses(Start(n), steps, c);
  }
}
