/** The promises of the protocol, over all its runs. */
module ProtocolTheorems {
  import opened Bytes
  import opened Window
  import opened WindowFacts
  import opened WindowSteps
  import opened Fifos
  import opened Ordered
  import opened RequestText
  import opened RequestRoundTrip
  import opened Wire
  import opened Senders
  import opened SessionNumbers
  import opened Receivers
  import opened ReceiverFacts
  import opened Protocol
  import opened ProtocolSafety

  /** Everything printed in the current run of the data loop is, under its number, the `k`-th transmitter's own stream. */
  ghost predicate PrintedFrom(c: Config, s: State, k: nat)
    requires Typed(c, s)
  {
    Adopted(c, k, s.rx) && forall o :: o in s.rx.output ==> GenuineOf(c, s.senders, k, Chunk(o.num, o.data))
  }

  ghost predicate Safe(c: Config, s: State)
    requires Typed(c, s)
  {
    s.rx.output != [] ==> exists k: nat :: PrintedFrom(c, s, k)
  }

  /** Every run ends with the listener having heard nothing but one transmitter, of the adopted session. */
  ghost predicate AllRunsSafe(c: Config)
    requires c.Valid()
  {
    forall steps, s :: Reaches(c, Init(c), steps, s) ==> Typed(c, s) && Safe(c, s)
  }

  /** However datagrams are lost, repeated and reordered, the listener hears one transmitter's bytes - if and only if
      session numbers are pairwise different and 0 is used only by a transmitter that is alone on the air. */
  lemma SafetyIff(c: Config)
    requires c.Valid()
    ensures AllRunsSafe(c) <==> Distinguishable(c)
  {
    hide Reaches, Typed, Safe, Inv, Confusable;
    if Distinguishable(c) {
      forall steps, s | Reaches(c, Init(c), steps, s) ensures Typed(c, s) && Safe(c, s) {
        RunsKeepInv(c, steps, s);
        HeardIsSafe(c, s);
      }
    } else {
      var i, j :| 0 <= i < |c.stations| && 0 <= j < |c.stations| && i != j && Confusable(c, i, j);
      var steps, s := ConfusedRun(c, i, j);
    }
  }

  lemma HeardIsSafe(c: Config, s: State)
    requires Inv(c, s) && Distinguishable(c)
    ensures Typed(c, s) && Safe(c, s)
  {
    hide SenderOk, DatagramOk, ShapeOk, Distinguishable, GenuineOf;
    if !Idle(s.rx) {
      var k: nat :| HeardFrom(c, s.senders, k, s.rx);
      assert PrintedFrom(c, s, k);
    }
  }

  lemma RunsKeepInv(c: Config, steps: seq<Step>, s: State)
    requires c.Valid() && Reaches(c, Init(c), steps, s)
    ensures Inv(c, s)
  {
    hide Inv, Typed;
    InitInv(c);
    RunKeepsInv(c, Init(c), steps);
  }

  // ---- Two transmitters mixed up

  function Repeat(b: u8, n: nat): (r: seq<u8>)
    ensures |r| == n && forall i :: 0 <= i < n ==> r[i] == b
  {
    seq(n, _ => b)
  }

  /** The first chunk of the `i`-th transmitter is on the air. */
  ghost predicate OneSent(c: Config, s: State, i: nat, data: seq<u8>)
    requires Typed(c, s)
  {
    && i < |s.senders| && s.senders[i].stream == data != []
    && Encode(c.stations[i].order, c.stations[i].session, 0, data) in s.air
  }

  /** Everything received has been printed. */
  ghost predicate Drained(r: Receiver, session: nat, output: seq<Printed>) {
    && r.session == session && r.output == output && r.begins && r.skipped == 0
    && r.window.pkgs == [] && r.window.holes == {}
  }

  /** Whichever two transmitters can be confused, a run prints the first chunk of one and then the first of the other. */
  lemma ConfusedRun(c: Config, i: nat, j: nat) returns (steps: seq<Step>, s: State)
    requires c.Valid() && i < |c.stations| && j < |c.stations| && i != j && Confusable(c, i, j)
    ensures Reaches(c, Init(c), steps, s) && Typed(c, s) && !Safe(c, s)
  {
    hide Next, Typed, Enabled, Safe, Encode, Receive, Print, IDLE, Reaches, StepsTo, OneSent, Drained;
    InitTyped(c);
    var zeros, ones := Repeat(0, c.stations[i].psize), Repeat(1, c.stations[j].psize);
    var s1, s2 := BothSent(c, i, j, zeros, ones);
    var s3, s4, di := OnePrinted(c, s2, i, zeros, 0, []);
    var first := [Printed(0, zeros, true, 0)];
    assert [] + first == first;
    var s5, s6, dj := OnePrinted(c, s4, j, ones, c.stations[i].session, first);
    s := s6;
    MixedIsUnsafe(c, s, c.stations[j].session, zeros, ones);
    var last := [Multicast(j, ones), Deliver(di), PrintOne, Deliver(dj), PrintOne];
    FiveSteps(c, s1, last, s2, s3, s4, s5, s);
    steps := [Multicast(i, zeros)] + last;
    OneStep(c, Init(c), Multicast(i, zeros), s1, last, s);
  }

  lemma BothSent(c: Config, i: nat, j: nat, zeros: seq<u8>, ones: seq<u8>) returns (s1: State, s2: State)
    requires Typed(c, Init(c)) && i < |c.stations| && j < |c.stations| && i != j
    requires |zeros| == c.stations[i].psize && |ones| == c.stations[j].psize
    ensures StepsTo(c, Init(c), Multicast(i, zeros), s1) && StepsTo(c, s1, Multicast(j, ones), s2)
    ensures Typed(c, s2) && OneSent(c, s2, i, zeros) && OneSent(c, s2, j, ones) && Drained(s2.rx, 0, [])
  {
    hide Encode, Enqueue;
    var s0 := Init(c);
    NextTyped(c, s0, Multicast(i, zeros));
    s1 := Next(c, s0, Multicast(i, zeros));
    NextTyped(c, s1, Multicast(j, ones));
    s2 := Next(c, s1, Multicast(j, ones));
  }

  lemma OnePrinted(c: Config, s: State, i: nat, data: seq<u8>, session: nat, output: seq<Printed>)
    returns (s1: State, s2: State, d: seq<u8>)
    requires Typed(c, s) && OneSent(c, s, i, data) && Drained(s.rx, session, output)
    requires session in {0, c.stations[i].session}
    ensures StepsTo(c, s, Deliver(d), s1) && StepsTo(c, s1, PrintOne, s2)
    ensures Typed(c, s2) && s2.senders == s.senders && s2.air == s.air
    ensures Drained(s2.rx, c.stations[i].session, output + [Printed(0, data, true, 0)])
    ensures forall j, other :: OneSent(c, s, j, other) ==> OneSent(c, s2, j, other)
  {
    hide Receive, Print, Encode, Drained, StepsTo;
    var st := c.stations[i];
    d := Encode(st.order, st.session, 0, data);
    s1 := DeliverStep(c, s, d);
    OneInOneOut(s.rx, c.rxOrder, d, st, data, c.bsize, session, output);
    s2 := PrintStep(c, s1);
  }

  lemma OneInOneOut(r: Receiver, order: HostOrder, d: seq<u8>, st: Station, data: seq<u8>, max: nat, session: nat,
                    output: seq<Printed>)
    requires st.Valid() && data != [] && d == Encode(st.order, st.session, 0, data)
    requires Drained(r, session, output) && session in {0, st.session}
    ensures var w := Receive(r, order, d, max);
            w.window.pkgs != [] && Drained(Print(w), st.session, output + [Printed(0, data, true, 0)])
  {
    hide SessionOf, NumOf, DataOf, Encode;
    Wire.DatagramRoundTrip(st.order, order, st.session, 0, data);
  }

  lemma DeliverStep(c: Config, s: State, d: seq<u8>) returns (s': State)
    requires Typed(c, s) && d in s.air
    ensures StepsTo(c, s, Deliver(d), s') && Typed(c, s')
    ensures |d| > HEADER && s' == s.(rx := Receive(s.rx, c.rxOrder, d, c.bsize))
  {
    NextTyped(c, s, Deliver(d));
    s' := Next(c, s, Deliver(d));
  }

  lemma PrintStep(c: Config, s: State) returns (s': State)
    requires Typed(c, s) && s.rx.window.pkgs != []
    ensures StepsTo(c, s, PrintOne, s') && Typed(c, s') && s' == s.(rx := Print(s.rx))
  {
    NextTyped(c, s, PrintOne);
    s' := Next(c, s, PrintOne);
  }

  lemma MixedIsUnsafe(c: Config, s: State, session: nat, zeros: seq<u8>, ones: seq<u8>)
    requires Typed(c, s) && zeros != [] && ones != [] && zeros[0] != ones[0]
    requires Drained(s.rx, session, [Printed(0, zeros, true, 0)] + [Printed(0, ones, true, 0)])
    ensures !Safe(c, s)
  {
    hide PrintedFrom;
    var a, b := Printed(0, zeros, true, 0), Printed(0, ones, true, 0);
    assert s.rx.output[0] == a && s.rx.output[1] == b;
    forall k: nat | PrintedFrom(c, s, k) ensures false {
      OneChunkPerNumber(c, s, k, a, b);
    }
  }

  lemma OneChunkPerNumber(c: Config, s: State, k: nat, a: Printed, b: Printed)
    requires Typed(c, s) && PrintedFrom(c, s, k)
    requires a in s.rx.output && b in s.rx.output && a.num == b.num
    ensures a.data == b.data
  {
    hide Genuine;
    assert GenuineOf(c, s.senders, k, Chunk(a.num, a.data)) && GenuineOf(c, s.senders, k, Chunk(b.num, b.data));
    SameGenuine(s.senders[k].stream, c.stations[k].psize, Chunk(a.num, a.data), Chunk(b.num, b.data));
  }

  lemma SameGenuine(stream: seq<u8>, psize: nat, a: Chunk, b: Chunk)
    requires psize > 0 && Genuine(stream, psize, a) && Genuine(stream, psize, b) && a.num == b.num
    ensures a == b
  {
  }

  // ---- Safety by start times

  /** Every transmitter took its session number from the second it was started in. */
  ghost predicate StartedAt(c: Config, times: seq<nat>) {
    && |times| == |c.stations|
    && forall i :: 0 <= i < |times| ==>
         times[i] < TWO_32 && c.stations[i].session == SessionId(c.stations[i].order, times[i])
  }

  /** Started in the same second - on hosts of different byte order: in seconds with each other's bytes reversed - or
      the first of them in second 0. */
  ghost predicate Clash(c: Config, times: seq<nat>, i: nat, j: nat)
    requires |times| == |c.stations| && i < |times| && j < |times|
  {
    times[i] == SeenAs(times[j], c.stations[j].order, c.stations[i].order) || times[i] == 0
  }

  /** The listener is safe if and only if no two transmitters' starts clash. */
  lemma SafeByStartTimes(c: Config, times: seq<nat>)
    requires c.Valid() && StartedAt(c, times)
    ensures AllRunsSafe(c) <==>
            forall i, j :: 0 <= i < |times| && 0 <= j < |times| && i != j ==> !Clash(c, times, i, j)
  {
    hide AllRunsSafe, SessionId, SeenAs;
    SafetyIff(c);
    forall i, j | 0 <= i < |times| && 0 <= j < |times| ensures Confusable(c, i, j) <==> Clash(c, times, i, j) {
      SameSessionIff(c.stations[i].order, times[i], c.stations[j].order, times[j]);
      SessionsDiffer(c.stations[i].order, times[i], 0);
    }
  }

  // ---- Methods

  /** What the methods behind the step require. */
  ghost predicate Callable(c: Config, s: State, step: Step) {
    match step
    case Multicast(i, data) => i < |s.senders| && |s.senders[i].stream| < TWO_64
    case Control(i, msg) => i < |s.senders| && RequestsFit(s.senders[i])
    case CopyAndClear(i) => i < |s.senders| && RequestsFit(s.senders[i])
    case Replay(i) => i < |s.senders| && RequestsFit(s.senders[i])
    case Deliver(d) =>
      && |d| > HEADER
      && (Adds(s.rx.session, c.rxOrder, d) ==>
            Admits(s.rx.window, |d| - HEADER, c.bsize) && NumOf(c.rxOrder, d) + c.bsize < TWO_64)
    case PrintOne => s.rx.window.pkgs != [] && exists len: nat :: len > 0 && Admits(s.rx.window, len, c.bsize)
    case Leave => c.bsize < TWO_63
  }

  /** In every state of every run, the preconditions of the methods whose functions the steps are hold. */
  lemma MethodsApply(c: Config, steps: seq<Step>, s: State, step: Step)
    requires c.Valid() && Uniform(c) && Reaches(c, Init(c), steps, s) && Typed(c, s) && Enabled(c, s, step)
    ensures Callable(c, s, step)
  {
    hide Reaches, DatagramOk, ContentOk, WellFormed, InOrder, From, Uniform, Distinguishable, SessionOf, NumOf, DataOf;
    RunsKeepInv(c, steps, s);
    match step
    case Multicast(i, data) => {}
    case Control(i, msg) => assert SenderOk(c.stations[i], s.senders[i]);
    case CopyAndClear(i) => assert SenderOk(c.stations[i], s.senders[i]);
    case Replay(i) => assert SenderOk(c.stations[i], s.senders[i]);
    case Deliver(d) => DeliveryApplies(c, s, d);
    case PrintOne =>
      var k: nat :| FramedBy(c, k, s.rx);
      assert Admits(s.rx.window, c.stations[k].psize, c.bsize);
    case Leave => {}
  }

  lemma DeliveryApplies(c: Config, s: State, d: seq<u8>)
    requires Inv(c, s) && Uniform(c) && d in s.air
    ensures Callable(c, s, Deliver(d))
  {
    hide SenderOk, From, ShapeOk, ContentOk, WellFormed, InOrder, Uniform, Distinguishable, SessionOf, NumOf, DataOf;
    var k: nat :| From(c, s.senders, k, d);
    FromMeans(c, s, k, d);
    if Adds(s.rx.session, c.rxOrder, d) { AdoptedFrames(c, s, k, d); }
  }

  // ---- Bounds

  /** In every state of every run a transmitter's cache fits in `FSIZE` bytes, and it is not smaller than it need be: it
      holds the whole stream, or has no room for one chunk more. */
  lemma CacheBounded(c: Config, steps: seq<Step>, s: State, i: nat)
    requires c.Valid() && Reaches(c, Init(c), steps, s) && i < |c.stations|
    ensures i < |s.senders|
    ensures var psize, fsize, t := c.stations[i].psize, c.stations[i].fsize, s.senders[i];
            && |t.list| * psize <= fsize
            && (|t.list| * psize == |t.stream| || fsize < |t.list| * psize + psize)
  {
    hide Reaches, ShapeOk, ContentOk, DatagramOk, Uniform, Distinguishable, SenderOk;
    RunsKeepInv(c, steps, s);
    SenderCacheBounded(c.stations[i], s.senders[i]);
  }

  lemma SenderCacheBounded(st: Station, t: Sender)
    requires st.Valid() && SenderOk(st, t)
    ensures |t.list| * st.psize <= st.fsize
    ensures |t.list| * st.psize == |t.stream| || st.fsize < |t.list| * st.psize + st.psize
  {
    hide NoneLost, NoneInvented, RequestsFit;
    var psize := st.psize;
    var q := |t.stream| / psize;
    assert |t.stream| == q * psize by { assert |t.stream| == psize * q; }
    assert |t.list| == if q < st.fsize / psize then q else st.fsize / psize;
    hide SenderOk;
    WholeChunks(st.fsize, psize, |t.list|);
  }

  lemma WholeChunks(fsize: nat, psize: nat, k: nat)
    requires psize > 0 && k <= fsize / psize
    ensures k * psize <= fsize && (k == fsize / psize ==> fsize < k * psize + psize)
  {
    CacheFits(k, psize, fsize);
    assert fsize == psize * (fsize / psize) + fsize % psize;
  }

  /** In every state of every run the window fits in `BSIZE` bytes - unless it is a single package, which enters an empty
      window whatever its length. */
  lemma WindowBounded(c: Config, steps: seq<Step>, s: State) returns (sid: nat)
    requires c.Valid() && Uniform(c) && Reaches(c, Init(c), steps, s) && s.rx.window.pkgs != []
    ensures Adopted(c, sid, s.rx)
    ensures |s.rx.window.pkgs| * c.stations[sid].psize <= c.bsize || |s.rx.window.pkgs| == 1
  {
    hide Reaches, SenderOk, DatagramOk, ContentOk, InOrder, Uniform, Distinguishable;
    RunsKeepInv(c, steps, s);
    var k: nat :| FramedBy(c, k, s.rx);
    sid := k;
    var len, n := c.stations[k].psize, |s.rx.window.pkgs|;
    assert WellFormed(s.rx.window, len, c.bsize);
    if n != 1 { SizeTimesLen(len, c.bsize, n); }
  }

  // ---- Requests

  /** In every reachable state, whatever the interleaving of the two loops: no request is lost, none is served unasked. */
  lemma RequestsConserved(c: Config, steps: seq<Step>, s: State, i: nat)
    requires c.Valid() && Reaches(c, Init(c), steps, s) && i < |c.stations|
    ensures i < |s.senders| && NoneLost(s.senders[i]) && NoneInvented(s.senders[i])
  {
    hide NoneLost, NoneInvented, Reaches, ShapeOk, ContentOk, DatagramOk, Uniform, Distinguishable;
    RunsKeepInv(c, steps, s);
    assert SenderOk(c.stations[i], s.senders[i]);
  }

  // ---- Order

  /** What a delivery does to the listener: an older session nothing, a newer one ends the run, any other is heard. */
  lemma DeliveryFilters(c: Config, s: State, d: seq<u8>)
    requires Typed(c, s) && d in s.air
    ensures var sid, s' := SessionOf(c.rxOrder, d), Next(c, s, Deliver(d));
            && s'.senders == s.senders && s'.air == s.air
            && (s.rx.session != 0 && sid < s.rx.session ==> s' == s)
            && (s.rx.session != 0 && sid > s.rx.session ==> AtStart(s'.rx))
            && (s.rx.session == 0 || sid == s.rx.session ==> s'.rx.session == sid && s'.rx.output == s.rx.output)
  {
    hide Receive, SessionOf, NumOf, DataOf, AtStart;
    ReceiveFilters(s.rx, c.rxOrder, d, c.bsize);
  }

  /** Leaving the data loop keeps nothing of it, and touches no transmitter and nothing on the air. */
  lemma LeavingBegins(c: Config, s: State)
    requires Typed(c, s)
    ensures var s' := Next(c, s, Leave); AtStart(s'.rx) && s'.senders == s.senders && s'.air == s.air
  {
  }

  /** A turn of the printer is one of `printing_loop`, and touches no transmitter and nothing on the air. */
  lemma PrintingPrints(c: Config, s: State)
    requires Typed(c, s) && Enabled(c, s, PrintOne)
    ensures var front, s' := s.rx.window.pkgs[0], Next(c, s, PrintOne);
            && s'.senders == s.senders && s'.air == s.air && s'.rx.session == s.rx.session
            && if front.data == [] then s'.rx.output == s.rx.output && s'.rx.window.pkgs == []
               else
                 && s'.rx.window.pkgs == s.rx.window.pkgs[1..]
                 && s'.rx.output == s.rx.output + [Printed(front.num, front.data, s.rx.begins, s.rx.skipped)]
  {
    hide AtStart;
    PrintEffect(s.rx);
  }

  /** A step of one transmitter leaves the listener and the other transmitters alone, takes nothing off the air, and only
      adds to its stream: a full read by that read, which goes on the air under the number of its first byte; the others
      by nothing, and only serving a batch sends anything. Requests join the pending ones, those become the batch, and
      the batch is served. */
  lemma TransmitterSteps(c: Config, s: State, step: Step, i: nat)
    requires Typed(c, s) && Enabled(c, s, step) && i < |s.senders|
    requires (step.Multicast? || step.Control? || step.CopyAndClear? || step.Replay?) && step.i == i
    ensures var s' := Next(c, s, step);
            && s'.rx == s.rx && |s'.senders| == |s.senders| && s.air <= s'.air
            && (forall j :: 0 <= j < |s.senders| && j != i ==> s'.senders[j] == s.senders[j])
            && s'.senders[i].stream == s.senders[i].stream + (if step.Multicast? then step.data else [])
            && (step.Multicast? ==>
                  Encode(c.stations[i].order, c.stations[i].session, |s.senders[i].stream|, step.data) in s'.air)
            && (step.Control? || step.CopyAndClear? ==> s'.air == s.air)
            && var t, u := s.senders[i], s'.senders[i];
               match step
               case Control(_, msg) => u.pending == t.pending + Requested(msg) && u.batch == t.batch
               case CopyAndClear(_) => u.pending == {} && u.batch == t.pending
               case Replay(_) => u.pending == t.pending && u.batch == {}
               case _ => u.pending == t.pending && u.batch == t.batch
  {
    hide Encode, Enqueue, Requested, Lookups, Ascending, Replays;
  }

  /** A transmitter that was started later and has the larger session number is always heard in the end: its datagram
      ends the run of an older session, and delivered again it is adopted. */
  lemma NewerTakesOver(c: Config, s: State, d: seq<u8>)
    requires Typed(c, s) && d in s.air && 0 < s.rx.session < SessionOf(c.rxOrder, d)
    ensures var s1 := Next(c, s, Deliver(d));
            && AtStart(s1.rx) && Typed(c, s1) && d in s1.air
            && var s2 := Next(c, s1, Deliver(d));
               && s2.rx.session == SessionOf(c.rxOrder, d)
               && s2.rx.window.pkgs == [Chunk(NumOf(c.rxOrder, d), DataOf(d))]
  {
    hide Receive, SessionOf, NumOf, DataOf;
    NextTyped(c, s, Deliver(d));
    ReceiveFilters(s.rx, c.rxOrder, d, c.bsize);
    var r := Next(c, s, Deliver(d)).rx;
    ReceiveFilters(r, c.rxOrder, d, c.bsize);
  }

  /** While the window is empty, the next package to be printed is a first one. */
  ghost predicate FirstsOk(r: Receiver) {
    r.window.pkgs == [] ==> r.begins
  }

  /** The next print is a first one exactly while the window is empty, and from then on until it is printed. */
  lemma StepBegins(c: Config, s: State, step: Step)
    requires Typed(c, s) && Enabled(c, s, step) && FirstsOk(s.rx)
    ensures var r := Next(c, s, step).rx;
            && (r.begins <==> r.window.pkgs == [] || (s.rx.begins && step != PrintOne))
            && (r.window.pkgs != [] && step != PrintOne ==> r.output == s.rx.output)
  {
    hide Receive, Print, Restart, SessionOf, NumOf, Add, Encode, Replays, Ascending, Lookups, Enqueue;
    match step
    case Deliver(d) =>
      ReceiveFilters(s.rx, c.rxOrder, d, c.bsize);
      if s.rx.window.pkgs != [] { AddStaysOpen(s.rx.window, NumOf(c.rxOrder, d), DataOf(d), c.bsize); }
    case PrintOne => PrintEffect(s.rx);
    case Leave => RestartBegins(s.rx);
    case _ => {}
  }

  lemma AddStaysOpen(v: View, num: nat, data: seq<u8>, max: nat)
    requires data != [] && v.pkgs != []
    ensures Add(v, num, data, max).pkgs != []
  {
  }

  /** Some earlier moment of a run, with an empty window and nothing printed but `output`. */
  ghost predicate WasDrained(c: Config, s0: State, steps: seq<Step>, output: seq<Printed>)
    requires Typed(c, s0) && Legal(c, s0, steps)
    decreases |steps|
  {
    || (s0.rx.window.pkgs == [] && s0.rx.output == output)
    || (steps != [] && (NextTyped(c, s0, steps[0]); WasDrained(c, Next(c, s0, steps[0]), steps[1..], output)))
  }

  /** The `k`-th printed package was printed as a first one. */
  ghost predicate FirstAt(r: Receiver, k: nat) {
    k < |r.output| && r.output[k].first
  }

  /** Where a first package of a run's output comes from, for a run from any state. */
  lemma {:induction false} FirstsTraced(c: Config, s0: State, steps: seq<Step>, k: nat)
    requires Typed(c, s0) && Legal(c, s0, steps) && FirstsOk(s0.rx) && FirstAt(Run(c, s0, steps).rx, k)
    ensures var out := Run(c, s0, steps).rx.output;
            || WasDrained(c, s0, steps, out[..k])
            || (k < |s0.rx.output| && s0.rx.output[..k + 1] == out[..k + 1])
            || (s0.rx.begins && s0.rx.output == out[..k])
    decreases |steps|
  {
    hide Next, Enabled, Typed;
    if steps != [] {
      var step, s1 := steps[0], Next(c, s0, steps[0]);
      NextTyped(c, s0, step);
      StepBegins(c, s0, step);
      StepOutput(c, s0, step);
      FirstsTraced(c, s1, steps[1..], k);
      var out := Run(c, s0, steps).rx.output;
      if !WasDrained(c, s1, steps[1..], out[..k]) && k < |s1.rx.output| && s1.rx.output[..k + 1] == out[..k + 1] {
        SamePrefix(s1.rx.output, out, k);
        if s1.rx.output != s0.rx.output { assert s0.rx.output == s1.rx.output[..|s0.rx.output|]; }
        LongerPrefix(s0.rx.output, s1.rx.output, out, k);
      }
    }
  }

  /** A step leaves the output, clears it, or adds one package, marked as the next one was due to be. */
  lemma StepOutput(c: Config, s: State, step: Step)
    requires Typed(c, s) && Enabled(c, s, step)
    ensures var out, out' := s.rx.output, Next(c, s, step).rx.output;
            || out' == out || out' == []
            || (|out'| == |out| + 1 && out'[..|out|] == out && out'[|out|].first == s.rx.begins)
  {
    hide Receive, Print, Restart, SessionOf, NumOf, DataOf, Add, Encode, Replays, Ascending, Lookups, Enqueue;
    match step
    case Deliver(d) => ReceiveFilters(s.rx, c.rxOrder, d, c.bsize);
    case PrintOne => PrintEffect(s.rx);
    case Leave => RestartBegins(s.rx);
    case _ => {}
  }

  lemma SamePrefix<T>(a: seq<T>, b: seq<T>, k: nat)
    requires k < |a| && k < |b| && a[..k + 1] == b[..k + 1]
    ensures a[k] == b[k] && a[..k] == b[..k]
  {
    assert a[..k + 1][k] == a[k] && b[..k + 1][k] == b[k];
    assert a[..k] == a[..k + 1][..k] && b[..k] == b[..k + 1][..k];
  }

  lemma LongerPrefix<T>(a: seq<T>, b: seq<T>, out: seq<T>, k: nat)
    requires k < |b| && k < |out| && b[..k + 1] == out[..k + 1] && |a| <= |b| && b[..|a|] == a
    ensures k < |a| ==> a[..k + 1] == out[..k + 1]
    ensures k == |a| ==> a == out[..k]
  {
    if k < |a| {
      assert a[..k + 1] == b[..k + 1];
    } else if k == |a| {
      SamePrefix(b, out, k);
    }
  }

  /** In every run, a package is printed as a first one only after a moment at which the window was empty and everything
      printed before it, and nothing else, had been printed. */
  lemma FirstAfterEmpty(c: Config, steps: seq<Step>, s: State, k: nat)
    requires c.Valid() && Reaches(c, Init(c), steps, s) && k < |s.rx.output| && s.rx.output[k].first
    ensures Typed(c, Init(c)) && Legal(c, Init(c), steps) && WasDrained(c, Init(c), steps, s.rx.output[..k])
  {
    FirstsTraced(c, Init(c), steps, k);
  }

  /** A printed package after the first, with none printed since a moment when the window was empty in between. */
  ghost predicate OneStretch(output: seq<Printed>, i: nat, j: nat) {
    i <= j < |output| && forall k :: i < k <= j ==> !output[k].first
  }

  /** Printed numbers strictly increase between two moments when the window is empty, by exactly the package length
      unless an arrival evicted packages in between. */
  lemma OutputInOrder(c: Config, steps: seq<Step>, s: State, i: nat, j: nat) returns (sid: nat)
    requires c.Valid() && Uniform(c) && Reaches(c, Init(c), steps, s)
    requires i < j && OneStretch(s.rx.output, i, j)
    ensures Adopted(c, sid, s.rx)
    ensures s.rx.output[i].num < s.rx.output[j].num
    ensures s.rx.output[j].num == s.rx.output[i].num + c.stations[sid].psize * (j - i) <==>
            forall k :: i < k <= j ==> s.rx.output[k].skipped == 0
  {
    hide Reaches, SenderOk, DatagramOk, ContentOk, Admits, InOrder, Uniform, Distinguishable;
    RunsKeepInv(c, steps, s);
    var k: nat :| FramedBy(c, k, s.rx);
    sid := k;
    OutputIncreases(s.rx, c.stations[k].psize, i, j);
    Positive(j - i, c.stations[k].psize);
  }

  /** What is printed between two moments of an empty window, with nothing evicted in between, is one contiguous piece of
      the adopted transmitter's stream, byte for byte. */
  lemma OutputIsSlice(c: Config, steps: seq<Step>, s: State, i: nat, j: nat) returns (sid: nat)
    requires c.Valid() && Distinguishable(c) && Reaches(c, Init(c), steps, s)
    requires OneStretch(s.rx.output, i, j) && forall k :: i < k <= j ==> s.rx.output[k].skipped == 0
    ensures Adopted(c, sid, s.rx) && sid < |s.senders|
    ensures var first, last, stream := s.rx.output[i].num, s.rx.output[j].num, s.senders[sid].stream;
            && first <= last && last + c.stations[sid].psize <= |stream|
            && PrintedBytes(s.rx.output[i..j + 1]) == stream[first..last + c.stations[sid].psize]
  {
    hide Reaches, SenderOk, DatagramOk, Admits, InOrder, Uniform, Distinguishable, PrintedBytes, Genuine;
    RunsKeepInv(c, steps, s);
    DistinguishableIsUniform(c);
    var k: nat :| HeardFrom(c, s.senders, k, s.rx);
    var k': nat :| FramedBy(c, k', s.rx);
    SameLength(c, k, k', s.rx);
    sid := k;
    SliceOfStream(s.rx, s.senders[k].stream, c.stations[k].psize, i, j);
  }

  lemma SameLength(c: Config, k: nat, k': nat, r: Receiver)
    requires Uniform(c) && Adopted(c, k, r) && Adopted(c, k', r)
    ensures c.stations[k].psize == c.stations[k'].psize
  {
    assert Confusable(c, k, k');
  }

  // ---- The hole index

  /** No delivery along the way is a duplicate (or misaligned arrival) that flushes packages not yet received. */
  ghost predicate Undisturbed(c: Config, s: State, steps: seq<Step>)
    requires Typed(c, s) && Legal(c, s, steps)
    decreases |steps|
  {
    steps == [] || (NextTyped(c, s, steps[0]); Harmless(c, s, steps[0]) && Undisturbed(c, Next(c, s, steps[0]), steps[1..]))
  }

  ghost predicate Harmless(c: Config, s: State, step: Step)
    requires Typed(c, s) && Enabled(c, s, step)
  {
    step.Deliver? && Adds(s.rx.session, c.rxOrder, step.d) ==>
      var num, len, v := NumOf(c.rxOrder, step.d), |step.d| - HEADER, s.rx.window;
      Disturbs(v, num, len) ==> ReceivedAfter(v, Place(v, num, len))
  }

  /** While nothing disturbs the window, the index holds exactly the numbers of the packages still empty. */
  lemma {:induction false} IndexStaysExact(c: Config, s: State, steps: seq<Step>)
    requires Inv(c, s) && Uniform(c) && Legal(c, s, steps) && Undisturbed(c, s, steps) && Exact(s.rx.window)
    ensures Exact(Run(c, s, steps).rx.window)
    decreases |steps|
  {
    hide Next, Enabled, Typed, SenderOk, DatagramOk, ContentOk, ShapeOk, Uniform, Distinguishable, Exact, Harmless;
    if steps != [] {
      StepKeepsInv(c, s, steps[0]);
      StepExactIff(c, s, steps[0]);
      IndexStaysExact(c, Next(c, s, steps[0]), steps[1..]);
    }
  }

  /** A step keeps the index exact if and only if it is harmless. */
  lemma StepExactIff(c: Config, s: State, step: Step)
    requires Inv(c, s) && Uniform(c) && Enabled(c, s, step) && Exact(s.rx.window)
    ensures Exact(Next(c, s, step).rx.window) <==> Harmless(c, s, step)
  {
    hide Receive, Print, WellFormed, SenderOk, From, ContentOk, InOrder, Disturbs, ReceivedAfter, SessionOf, NumOf, DataOf, Exact,
         Uniform, Distinguishable, ShapeOk;
    match step
    case Deliver(d) =>
      var k: nat :| From(c, s.senders, k, d);
      DeliveryExactIff(c, s, d, k);
    case PrintOne => PrintStaysExact(c, s.rx);
    case Leave => ResetIsExact(s.rx.window);
    case _ => {}
  }

  lemma DeliveryExactIff(c: Config, s: State, d: seq<u8>, k: nat)
    requires Typed(c, s) && Uniform(c) && ShapeOk(c, s.rx) && From(c, s.senders, k, d) && d in s.air && Exact(s.rx.window)
    ensures Exact(Receive(s.rx, c.rxOrder, d, c.bsize).window) <==> Harmless(c, s, Deliver(d))
  {
    hide Add, WellFormed, InOrder, Disturbs, ReceivedAfter, SessionOf, NumOf, DataOf, Exact, Uniform, ShapeOk, From, Evicted;
    FromMeans(c, s, k, d);
    if Adds(s.rx.session, c.rxOrder, d) {
      AdoptedFrames(c, s, k, d);
      AddKeepsExactIff(s.rx.window, NumOf(c.rxOrder, d), DataOf(d), c.bsize);
    } else {
      ResetIsExact(s.rx.window);
    }
  }

  lemma PrintStaysExact(c: Config, r: Receiver)
    requires ShapeOk(c, r) && Exact(r.window) && r.window.pkgs != []
    ensures Exact(Print(r).window)
  {
    hide InOrder, WellFormed, Exact, Print;
    var k: nat :| FramedBy(c, k, r);
    PrintKeepsWellFormed(r, c.stations[k].psize, c.bsize);
  }

  lemma ResetIsExact(v: View)
    ensures Exact(Reset(v))
  {
  }

  // ---- Recovery

  /** The chunk of a transmitter's stream numbered `n`. */
  function ChunkData(t: Sender, n: nat, psize: nat): seq<u8> {
    if n + psize <= |t.stream| then t.stream[n..n + psize] else []
  }

  /** Some run leads here. */
  ghost predicate Reachable(c: Config, s: State)
    requires c.Valid()
  {
    exists steps :: Reaches(c, Init(c), steps, s)
  }

  lemma ReachableInv(c: Config, s: State)
    requires c.Valid() && Reachable(c, s)
    ensures Inv(c, s)
  {
    hide Inv, Reaches;
    var steps :| Reaches(c, Init(c), steps, s);
    RunsKeepInv(c, steps, s);
  }

  /** A hole of the window whose chunk a transmitter of the adopted session still caches. */
  ghost predicate Recoverable(c: Config, s: State, i: nat, n: nat) {
    && c.Valid()
    && n in s.rx.window.holes && n < TWO_63
    && Adopted(c, i, s.rx) && i < |s.senders|
    && Cached(s.senders[i].stream, c.stations[i].psize, c.stations[i].MaxCount(), n)
    && Reachable(c, s)
  }

  /** In `s'` the receiver is as in `s`, but the hole `n` holds the bytes first sent under that number. */
  ghost predicate Recovered(c: Config, s: State, i: nat, n: nat, s': State) {
    && i < |s.senders| && i < |c.stations|
    && var v, data := s.rx.window, ChunkData(s.senders[i], n, c.stations[i].psize);
       |data| == c.stations[i].psize && s'.rx == s.rx.(window := View(Fill(v.pkgs, n, data), v.holes - {n}, v.size))
  }

  /**
   * A lost chunk comes back: from any reachable state, one round of requests, parsing, serving and delivery
   * puts into the hole exactly the bytes first sent under its number, as long as the cache still holds them.
   */
  lemma HoleIsRecovered(c: Config, s: State, i: nat, n: nat) returns (msg: string, d: seq<u8>, s': State)
    requires Recoverable(c, s, i, n)
    ensures msg in Requests(s.rx.window.holes)
    ensures Reaches(c, s, [Replay(i), Control(i, msg), CopyAndClear(i), Replay(i), Deliver(d)], s')
    ensures Recovered(c, s, i, n, s')
  {
    hide Inv, Cached, Encode, Fill, Reaches, Reachable, Requests, ChunkData, StepsTo, Requested;
    ReachableInv(c, s);
    msg := SomeRequestAsks(s.rx.window.holes, n);
    var s1, s2, s3, s4;
    s1, s2, s3, s4, d := RequestRound(c, s, i, msg, n);
    s' := FillingDelivery(c, s4, i, n, d, ChunkData(s.senders[i], n, c.stations[i].psize));
    FiveSteps(c, s, [Replay(i), Control(i, msg), CopyAndClear(i), Replay(i), Deliver(d)], s1, s2, s3, s4, s');
  }

  lemma SomeRequestAsks(holes: set<nat>, n: nat) returns (msg: string)
    requires n in holes && n < TWO_63
    ensures msg in Requests(holes) && n in Requested(msg)
  {
    hide Requested, RenderAll, Batches;
    var nums := Ascending(holes);
    AscendingSorts(holes);
    BatchesRoundTrip(nums);
    assert Saturated(n) == n && n in nums;
    var msgs := Requests(holes);
    var i := SomeDatagramAsks(msgs, n);
    msg := msgs[i];
  }

  ghost predicate Askable(c: Config, s: State, i: nat, msg: string, n: nat) {
    && c.Valid() && i < |s.senders| && i < |c.stations| && n in Requested(msg)
    && Cached(s.senders[i].stream, c.stations[i].psize, c.stations[i].MaxCount(), n)
    && Inv(c, s)
  }

  /** Finish the batch being served, parse the request, pick it up, serve it: the chunk is on the air again. */
  lemma RequestRound(c: Config, s: State, i: nat, msg: string, n: nat)
    returns (s1: State, s2: State, s3: State, s4: State, d: seq<u8>)
    requires Askable(c, s, i, msg, n)
    ensures StepsTo(c, s, Replay(i), s1) && StepsTo(c, s1, Control(i, msg), s2)
    ensures StepsTo(c, s2, CopyAndClear(i), s3) && StepsTo(c, s3, Replay(i), s4)
    ensures Typed(c, s4) && s4.rx == s.rx && d in s4.air
    ensures i < |s.senders| && i < |c.stations| && Carries(c.stations[i], n, ChunkData(s.senders[i], n, c.stations[i].psize), d)
  {
    hide Requested, Cached, Carries, SenderOk, DatagramOk, ContentOk, ShapeOk, Uniform, Distinguishable, ReplaysOf, Lookups,
         Ascending, IsReplay, ChunkData;
    StepKeepsInv(c, s, Replay(i));
    s1 := Next(c, s, Replay(i));
    StepKeepsInv(c, s1, Control(i, msg));
    s2 := Next(c, s1, Control(i, msg));
    StepKeepsInv(c, s2, CopyAndClear(i));
    s3 := Next(c, s2, CopyAndClear(i));
    StepKeepsInv(c, s3, Replay(i));
    s4 := Next(c, s3, Replay(i));
    var st, t := c.stations[i], s3.senders[i];
    d := CachedIsReplayed(st, t, n);
    ServeSends(st, t, d);
    SameChunk(s.senders[i], t, n, st.psize);
  }

  /** `d` is the station's datagram with `data` under number `n`. */
  ghost predicate Carries(st: Station, n: nat, data: seq<u8>, d: seq<u8>) {
    st.Valid() && n < TWO_64 && |data| == st.psize && d == Encode(st.order, st.session, n, data)
  }

  lemma SameChunk(t: Sender, u: Sender, n: nat, psize: nat)
    requires t.stream == u.stream
    ensures ChunkData(t, n, psize) == ChunkData(u, n, psize)
  {
  }

  lemma CachedIsReplayed(st: Station, t: Sender, n: nat) returns (d: seq<u8>)
    requires st.Valid() && |t.stream| < TWO_64 && Cached(t.stream, st.psize, st.MaxCount(), n)
    ensures IsReplay(st, t, n, d) && Carries(st, n, ChunkData(t, n, st.psize), d)
  {
    hide Encode;
    d := Encode(st.order, st.session, n, t.stream[n..n + st.psize]);
  }

  lemma FillingDelivery(c: Config, s: State, i: nat, n: nat, d: seq<u8>, data: seq<u8>) returns (s': State)
    requires Typed(c, s) && Adopted(c, i, s.rx) && n in s.rx.window.holes && d in s.air && Carries(c.stations[i], n, data, d)
    ensures StepsTo(c, s, Deliver(d), s')
    ensures s'.rx == s.rx.(window := View(Fill(s.rx.window.pkgs, n, data), s.rx.window.holes - {n}, s.rx.window.size))
  {
    hide Receive, Fill, StepsTo, Carries;
    s' := DeliverStep(c, s, d);
    FillingReception(c.stations[i], c.rxOrder, s.rx, n, d, data, c.bsize);
  }

  lemma FillingReception(st: Station, order: HostOrder, r: Receiver, n: nat, d: seq<u8>, data: seq<u8>, max: nat)
    requires n in r.window.holes && Carries(st, n, data, d) && r.session == st.session
    ensures |d| > HEADER
    ensures Receive(r, order, d, max) == r.(window := View(Fill(r.window.pkgs, n, data), r.window.holes - {n}, r.window.size))
  {
    hide SessionOf, NumOf, DataOf, Fill, Encode;
    Wire.DatagramRoundTrip(st.order, order, r.session, n, data);
    assert r.(session := r.session) == r;
  }
}
