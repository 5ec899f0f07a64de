/**
 * The whole system: transmitters, one receiver, and a network that may lose, repeat and reorder datagrams.
 * Every critical section of the two programs is one atomic step, and each step is the function that the method of
 * `Senders.Transmitter` or `Receivers.Reception` is proved to compute (`ProtocolTheorems.MethodsApply`: what those
 * methods require holds along every run); `air` holds every datagram ever multicast.
 */
module Protocol {
  import opened Bytes
  import opened Window
  import opened Fifos
  import opened Ordered
  import opened Wire
  import opened Senders
  import opened Receivers

  /** A transmitter as it was started: its session, `PSIZE`, `FSIZE` and the byte order of its host. */
  datatype Station = Station(session: nat, psize: nat, fsize: nat, order: HostOrder) {
    predicate Valid() { session < TWO_64 && 0 < psize < TWO_63 }

    function MaxCount(): nat
      requires psize > 0
    {
      fsize / psize
    }
  }

  /** The transmitters on one group and port, and the receiver's `BSIZE` and byte order. */
  datatype Config = Config(stations: seq<Station>, bsize: nat, rxOrder: HostOrder) {
    predicate Valid() { bsize < TWO_63 && forall i :: 0 <= i < |stations| ==> stations[i].Valid() }
  }

  /** What each transmitter has got to, the datagrams multicast so far, and the receiver. */
  datatype State = State(senders: seq<Sender>, air: set<seq<u8>>, rx: Receiver)

  datatype Step =
    | Multicast(i: nat, data: seq<u8>)  // a full read from a transmitter's standard input
    | Control(i: nat, msg: string)      // a transmitter parses a control datagram, from whomever
    | CopyAndClear(i: nat)              // a transmitter picks up its pending requests
    | Replay(i: nat)                    // ... and serves them
    | Deliver(d: seq<u8>)               // a datagram reaches the receiver
    | PrintOne                          // the printer takes the front package
    | Leave                             // the listener switches station: a new run of the data loop

  function Init(c: Config): State {
    State(seq(|c.stations|, _ => IDLE), {}, STARTED)
  }

  /** One sender for each transmitter, streams short of the 64-bit range by a window, and no empty datagram. */
  ghost predicate Typed(c: Config, s: State) {
    && c.Valid()
    && |s.senders| == |c.stations|
    && (forall i :: 0 <= i < |s.senders| ==> |s.senders[i].stream| + c.bsize < TWO_64)
    && (forall d :: d in s.air ==> |d| > HEADER)
  }

  ghost predicate Enabled(c: Config, s: State, step: Step)
    requires Typed(c, s)
  {
    match step
    case Multicast(i, data) =>
      i < |s.senders| && |data| == c.stations[i].psize && |s.senders[i].stream| + |data| + c.bsize < TWO_64
    case Control(i, msg) => i < |s.senders|
    case CopyAndClear(i) => i < |s.senders| && s.senders[i].batch == {}
    case Replay(i) => i < |s.senders|
    case Deliver(d) => d in s.air
    case PrintOne => s.rx.window.pkgs != []
    case Leave => true
  }

  /** The datagrams multicast when a station serves its batch. */
  ghost function ReplaysOf(st: Station, t: Sender): set<seq<u8>>
    requires st.Valid()
  {
    set d | d in Replays(st.order, st.session, t.list, Ascending(t.batch), st.psize)
  }

  ghost function Next(c: Config, s: State, step: Step): State
    requires Typed(c, s) && Enabled(c, s, step)
  {
    hide Encode, Receive, Print, Replays, Ascending, Lookups, Enqueue;
    match step
    case Multicast(i, data) =>
      var st, t := c.stations[i], s.senders[i];
      s.(senders := s.senders[i := Transmit(t, data, st.MaxCount())],
         air := s.air + {Encode(st.order, st.session, |t.stream|, data)})
    case Control(i, msg) => s.(senders := s.senders[i := Ask(s.senders[i], msg)])
    case CopyAndClear(i) => s.(senders := s.senders[i := Swap(s.senders[i])])
    case Replay(i) =>
      var st, t := c.stations[i], s.senders[i];
      s.(senders := s.senders[i := Serve(t, st.psize)], air := s.air + ReplaysOf(st, t))
    case Deliver(d) => s.(rx := Receive(s.rx, c.rxOrder, d, c.bsize))
    case PrintOne => s.(rx := Print(s.rx))
    case Leave => s.(rx := Restart(s.rx))
  }

  lemma NextTyped(c: Config, s: State, step: Step)
    requires Typed(c, s) && Enabled(c, s, step)
    ensures Typed(c, Next(c, s, step))
  {
    hide Encode, Receive, Print, Replays, Ascending, Lookups, Enqueue;
    if step.Replay? {
      ReplaysFit(c.stations[step.i], s.senders[step.i]);
    }
  }

  lemma ReplaysFit(st: Station, t: Sender)
    requires st.Valid()
    ensures forall d :: d in ReplaysOf(st, t) ==> |d| == HEADER + st.psize
  {
    forall d | d in ReplaysOf(st, t) ensures |d| == HEADER + st.psize {
      ReplaysAre(st.order, st.session, t.list, Ascending(t.batch), st.psize, d);
    }
  }

  /** The steps can be taken one after the other. */
  ghost predicate Legal(c: Config, s: State, steps: seq<Step>)
    requires Typed(c, s)
    decreases |steps|
  {
    steps == [] ||
    (Enabled(c, s, steps[0]) && (NextTyped(c, s, steps[0]); Legal(c, Next(c, s, steps[0]), steps[1..])))
  }

  /** Where a run ends. */
  ghost function Run(c: Config, s: State, steps: seq<Step>): (s': State)
    requires Typed(c, s) && Legal(c, s, steps)
    ensures Typed(c, s')
    decreases |steps|
  {
    if steps == [] then s
    else
      NextTyped(c, s, steps[0]);
      Run(c, Next(c, s, steps[0]), steps[1..])
  }

  lemma InitTyped(c: Config)
    requires c.Valid()
    ensures Typed(c, Init(c))
  {
  }

  ghost predicate StepsTo(c: Config, s: State, step: Step, s': State) {
    Typed(c, s) && Enabled(c, s, step) && s' == Next(c, s, step) && Typed(c, s')
  }

  /** Taking `steps` from `s`, one after the other, is possible and leads to `s'`. */
  ghost predicate Reaches(c: Config, s: State, steps: seq<Step>, s': State) {
    Typed(c, s) && Legal(c, s, steps) && Run(c, s, steps) == s'
  }

  lemma ReachesNothing(c: Config, s: State)
    requires Typed(c, s)
    ensures Reaches(c, s, [], s)
  {
  }

  lemma OneStep(c: Config, s: State, step: Step, s1: State, rest: seq<Step>, s': State)
    requires StepsTo(c, s, step, s1) && Reaches(c, s1, rest, s')
    ensures Reaches(c, s, [step] + rest, s')
  {
    hide Enabled, Next, Typed;
    var steps := [step] + rest;
    assert steps[0] == step && steps[1..] == rest;
  }

  lemma FiveSteps(c: Config, s0: State, steps: seq<Step>, s1: State, s2: State, s3: State, s4: State, s5: State)
    requires |steps| == 5
    requires StepsTo(c, s0, steps[0], s1) && StepsTo(c, s1, steps[1], s2) && StepsTo(c, s2, steps[2], s3)
    requires StepsTo(c, s3, steps[3], s4) && StepsTo(c, s4, steps[4], s5)
    ensures Reaches(c, s0, steps, s5)
  {
    hide Enabled, Next, Typed, Reaches;
    ReachesNothing(c, s5);
    OneStep(c, s4, steps[4], s5, [], s5);
    assert [steps[4]] + [] == [steps[4]];
    OneStep(c, s3, steps[3], s4, [steps[4]], s5);
    OneStep(c, s2, steps[2], s3, [steps[3]] + [steps[4]], s5);
    OneStep(c, s1, steps[1], s2, [steps[2]] + ([steps[3]] + [steps[4]]), s5);
    OneStep(c, s0, steps[0], s1, [steps[1]] + ([steps[2]] + ([steps[3]] + [steps[4]])), s5);
    assert steps == [steps[0]] + ([steps[1]] + ([steps[2]] + ([steps[3]] + [steps[4]])));
  }
}
