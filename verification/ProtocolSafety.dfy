/** What every run keeps, and what it means for the listener. */
module ProtocolSafety {
  import opened Bytes
  import opened Window
  import opened WindowFacts
  import opened WindowSteps
  import opened Fifos
  import opened Ordered
  import opened RequestText
  import opened Wire
  import opened Senders
  import opened Receivers
  import opened ReceiverFacts
  import opened Protocol

  /** The listener may take transmitter `j` for `i`: they share a session, or `i` has session 0, "no session yet". */
  ghost predicate Confusable(c: Config, i: nat, j: nat)
    requires i < |c.stations| && j < |c.stations|
  {
    c.stations[i].session == c.stations[j].session || c.stations[i].session == 0
  }

  /** No transmitter can be taken for another: sessions differ, and 0 is used only by one that is alone on the air. */
  ghost predicate Distinguishable(c: Config) {
    forall i, j :: 0 <= i < |c.stations| && 0 <= j < |c.stations| && i != j ==> !Confusable(c, i, j)
  }

  /** Transmitters that can be taken for one another cut their input into chunks of the same length. */
  ghost predicate Uniform(c: Config) {
    forall i, j :: 0 <= i < |c.stations| && 0 <= j < |c.stations| && Confusable(c, i, j) ==>
      c.stations[i].psize == c.stations[j].psize
  }

  lemma DistinguishableIsUniform(c: Config)
    requires Distinguishable(c)
    ensures Uniform(c)
  {
  }

  /** Some lookup of `n` comes after the `i`-th event. */
  ghost predicate LookedAfter(log: seq<Event>, i: nat, n: nat) {
    exists j :: i < j < |log| && log[j].Looked? && log[j].num == n
  }

  function Asks(log: seq<Event>, n: nat): nat {
    if log == [] then 0
    else Asks(log[..|log| - 1], n) + if log[|log| - 1].Asked? && n in log[|log| - 1].nums then 1 else 0
  }

  function Looks(log: seq<Event>, n: nat): nat {
    if log == [] then 0
    else Looks(log[..|log| - 1], n) + if log[|log| - 1].Looked? && log[|log| - 1].num == n then 1 else 0
  }

  /** Every asked number is waiting, being served, or was looked up after being asked for. */
  ghost predicate NoneLost(t: Sender) {
    forall i, n :: 0 <= i < |t.log| && t.log[i].Asked? && n in t.log[i].nums ==>
      n in t.pending || n in t.batch || LookedAfter(t.log, i, n)
  }

  /** No number is looked up more often than it was asked for, those still waiting included. */
  ghost predicate NoneInvented(t: Sender) {
    forall n: nat :: Looks(t.log, n) + (if n in t.pending then 1 else 0) + (if n in t.batch then 1 else 0) <= Asks(t.log, n)
  }

  /** Requested numbers are 64-bit. */
  ghost predicate RequestsFit(t: Sender) {
    (forall n :: n in t.pending ==> n < TWO_64) && (forall n :: n in t.batch ==> n < TWO_64)
  }

  ghost predicate SenderOk(st: Station, t: Sender)
    requires st.Valid()
  {
    && |t.stream| % st.psize == 0
    && t.list == Last(Cut(t.stream, st.psize), st.MaxCount())
    && RequestsFit(t) && NoneLost(t) && NoneInvented(t)
  }

  ghost predicate Fitting(c: Config, senders: seq<Sender>) {
    c.Valid() && |senders| == |c.stations|
  }

  /** `ch` is, under its number, the `k`-th transmitter's own stream. */
  ghost predicate GenuineOf(c: Config, senders: seq<Sender>, k: nat, ch: Chunk)
    requires Fitting(c, senders) && k < |senders|
  {
    Genuine(senders[k].stream, c.stations[k].psize, ch)
  }

  ghost predicate From(c: Config, senders: seq<Sender>, k: nat, d: seq<u8>)
    requires Fitting(c, senders)
  {
    && k < |senders| && |d| == HEADER + c.stations[k].psize
    && SessionOf(c.rxOrder, d) == c.stations[k].session
    && GenuineOf(c, senders, k, Chunk(NumOf(c.rxOrder, d), DataOf(d)))
  }

  ghost predicate DatagramOk(c: Config, senders: seq<Sender>, d: seq<u8>)
    requires Fitting(c, senders)
  {
    exists k: nat :: From(c, senders, k, d)
  }

  /** The `k`-th transmitter's session is the one adopted. */
  ghost predicate Adopted(c: Config, k: nat, r: Receiver) {
    k < |c.stations| && c.stations[k].session == r.session
  }

  /** All that is in the window and all that was printed came from the `k`-th transmitter. */
  ghost predicate HeardFrom(c: Config, senders: seq<Sender>, k: nat, r: Receiver)
    requires Fitting(c, senders)
  {
    && Adopted(c, k, r)
    && (forall ch :: ch in r.window.pkgs && ch.data != [] ==> GenuineOf(c, senders, k, ch))
    && (forall o :: o in r.output ==> GenuineOf(c, senders, k, Chunk(o.num, o.data)))
  }

  /** Nothing has been received in this run of the data loop. */
  ghost predicate Idle(r: Receiver) {
    r.session == 0 && r.window.pkgs == [] && r.window.holes == {} && r.output == [] && r.begins
  }

  ghost predicate ContentOk(c: Config, senders: seq<Sender>, r: Receiver)
    requires Fitting(c, senders)
  {
    Idle(r) || exists k: nat :: HeardFrom(c, senders, k, r)
  }

  /** The window and the output are those of a stream cut into chunks of `len` bytes. */
  ghost predicate Framed(r: Receiver, len: nat, max: nat) {
    Admits(r.window, len, max) && InOrder(r, len)
  }

  ghost predicate FramedBy(c: Config, k: nat, r: Receiver) {
    Adopted(c, k, r) && Framed(r, c.stations[k].psize, c.bsize)
  }

  ghost predicate ShapeOk(c: Config, r: Receiver) {
    Idle(r) || exists k: nat :: FramedBy(c, k, r)
  }

  ghost predicate Inv(c: Config, s: State) {
    && Typed(c, s)
    && (forall i :: 0 <= i < |s.senders| ==> SenderOk(c.stations[i], s.senders[i]))
    && (forall d :: d in s.air ==> DatagramOk(c, s.senders, d))
    && (Uniform(c) ==> ShapeOk(c, s.rx))
    && (Distinguishable(c) ==> ContentOk(c, s.senders, s.rx))
  }

  // ---- Transmitters

  lemma TransmitKeepsOk(st: Station, t: Sender, data: seq<u8>)
    requires st.Valid() && SenderOk(st, t) && |data| == st.psize
    ensures SenderOk(st, Transmit(t, data, st.MaxCount()))
    ensures Genuine(t.stream + data, st.psize, Chunk(|t.stream|, data))
  {
    CutGrows(t.stream, data, st.psize);
    EnqueueKeepsLast(Cut(t.stream, st.psize), Chunk(|t.stream|, data), st.MaxCount());
  }

  lemma GenuineGrows(stream: seq<u8>, data: seq<u8>, psize: nat, ch: Chunk)
    requires psize > 0 && Genuine(stream, psize, ch)
    ensures Genuine(stream + data, psize, ch)
  {
    assert (stream + data)[ch.num..ch.num + psize] == stream[ch.num..ch.num + psize];
  }

  lemma AppendCounts(log: seq<Event>, e: Event, n: nat)
    ensures Asks(log + [e], n) == Asks(log, n) + if e.Asked? && n in e.nums then 1 else 0
    ensures Looks(log + [e], n) == Looks(log, n) + if e.Looked? && e.num == n then 1 else 0
  {
    assert (log + [e])[..|log|] == log;
  }

  lemma LookedLater(log: seq<Event>, more: seq<Event>, i: nat, n: nat)
    requires LookedAfter(log, i, n)
    ensures LookedAfter(log + more, i, n)
  {
    var j :| i < j < |log| && log[j].Looked? && log[j].num == n;
    assert (log + more)[j] == log[j];
  }

  lemma AskKeepsOk(st: Station, t: Sender, msg: string)
    requires st.Valid() && SenderOk(st, t)
    ensures SenderOk(st, Ask(t, msg))
  {
    hide Requested;
    RequestedFits(msg);
    var u := Ask(t, msg);
    var e := Asked(Requested(msg));
    forall n: nat
      ensures Looks(u.log, n) + (if n in u.pending then 1 else 0) + (if n in u.batch then 1 else 0) <= Asks(u.log, n)
    {
      AppendCounts(t.log, e, n);
    }
    forall i, n | 0 <= i < |u.log| && u.log[i].Asked? && n in u.log[i].nums
      ensures n in u.pending || n in u.batch || LookedAfter(u.log, i, n)
    {
      if i < |t.log| && LookedAfter(t.log, i, n) { LookedLater(t.log, [e], i, n); }
    }
  }

  lemma SwapKeepsOk(st: Station, t: Sender)
    requires st.Valid() && SenderOk(st, t) && t.batch == {}
    ensures SenderOk(st, Swap(t))
  {
  }

  lemma {:induction false} LookupsCount(log: seq<Event>, list: seq<Chunk>, nums: seq<nat>, psize: nat, n: nat)
    requires forall i, j :: 0 <= i < j < |nums| ==> nums[i] != nums[j]
    ensures Asks(log + Lookups(list, nums, psize), n) == Asks(log, n)
    ensures Looks(log + Lookups(list, nums, psize), n) == Looks(log, n) + if n in nums then 1 else 0
    decreases |nums|
  {
    hide Asks, Looks, Hit;
    if nums == [] {
      assert log + Lookups(list, nums, psize) == log;
    } else {
      var k := |nums| - 1;
      var front, last := nums[..k], nums[k];
      var l := Lookups(list, front, psize);
      LookupsCount(log, list, front, psize, n);
      var e := Looked(last, Hit(list, last, psize));
      assert Lookups(list, nums, psize) == l + [e];
      assert log + (l + [e]) == (log + l) + [e];
      AppendCounts(log + l, e, n);
      assert nums == front + [last];
    }
  }

  lemma ServeKeepsOk(st: Station, t: Sender)
    requires st.Valid() && SenderOk(st, t)
    ensures SenderOk(st, Serve(t, st.psize))
  {
    hide Ascending, Cut, Last, NoneLost, NoneInvented;
    AscendingSorts(t.batch);
    ServeLosesNone(t, st.psize);
    ServeInventsNone(t, st.psize);
  }

  lemma ServeInventsNone(t: Sender, psize: nat)
    requires NoneInvented(t)
    ensures NoneInvented(Serve(t, psize))
  {
    hide Ascending, Asks, Looks;
    var nums := Ascending(t.batch);
    AscendingSorts(t.batch);
    var u := Serve(t, psize);
    forall n: nat
      ensures Looks(u.log, n) + (if n in u.pending then 1 else 0) + (if n in u.batch then 1 else 0) <= Asks(u.log, n)
    {
      LookupsCount(t.log, t.list, nums, psize, n);
    }
  }

  lemma ServeLosesNone(t: Sender, psize: nat)
    requires NoneLost(t)
    ensures NoneLost(Serve(t, psize))
  {
    hide Ascending, Hit;
    var nums := Ascending(t.batch);
    AscendingSorts(t.batch);
    var u := Serve(t, psize);
    var l := Lookups(t.list, nums, psize);
    forall i, n | 0 <= i < |u.log| && u.log[i].Asked? && n in u.log[i].nums
      ensures n in u.pending || n in u.batch || LookedAfter(u.log, i, n)
    {
      assert i < |t.log|;
      if LookedAfter(t.log, i, n) {
        LookedLater(t.log, l, i, n);
      } else if n in t.batch {
        assert n in nums;
        var j :| 0 <= j < |nums| && nums[j] == n;
        assert u.log[|t.log| + j] == l[j];
      }
    }
  }

  /** `d` carries, under number `n`, the stream's own bytes, and the cache still holds them. */
  ghost predicate IsReplay(st: Station, t: Sender, n: nat, d: seq<u8>)
    requires st.Valid() && |t.stream| < TWO_64
  {
    Cached(t.stream, st.psize, st.MaxCount(), n) && d == Encode(st.order, st.session, n, t.stream[n..n + st.psize])
  }

  /** Serving a batch sends exactly the chunks the cache still holds, byte for byte those first sent under the same numbers. */
  lemma ServeSends(st: Station, t: Sender, d: seq<u8>)
    requires st.Valid() && |t.stream| < TWO_64 && SenderOk(st, t)
    ensures d in ReplaysOf(st, t) <==> exists n :: n in t.batch && IsReplay(st, t, n, d)
  {
    hide Encode, Retrieve, Ascending, Replays, SenderOk, Hit, Cached;
    var nums := Ascending(t.batch);
    AscendingSorts(t.batch);
    ReplaysAre(st.order, st.session, t.list, nums, st.psize, d);
    forall n: nat
      ensures Hit(t.list, n, st.psize) <==> Cached(t.stream, st.psize, st.MaxCount(), n)
      ensures Hit(t.list, n, st.psize) ==>
                n + st.psize <= |t.stream| && Retrieve(t.list, n) == t.stream[n..n + st.psize]
    {
      HitIffCached(st, t, n);
    }
  }

  lemma HitIffCached(st: Station, t: Sender, n: nat)
    requires st.Valid() && SenderOk(st, t)
    ensures Hit(t.list, n, st.psize) <==> Cached(t.stream, st.psize, st.MaxCount(), n)
    ensures Hit(t.list, n, st.psize) ==>
              n + st.psize <= |t.stream| && Retrieve(t.list, n) == t.stream[n..n + st.psize]
  {
    hide Retrieve, Cut, Last, NoneLost, NoneInvented;
    RetrieveIsStream(t.stream, st.psize, st.fsize, n);
  }

  lemma EncodedIsFrom(c: Config, senders: seq<Sender>, k: nat, ch: Chunk)
    requires Fitting(c, senders) && k < |senders| && ch.num < TWO_64 && GenuineOf(c, senders, k, ch)
    ensures From(c, senders, k, Encode(c.stations[k].order, c.stations[k].session, ch.num, ch.data))
  {
    DatagramRoundTrip(c.stations[k].order, c.rxOrder, c.stations[k].session, ch.num, ch.data);
  }

  // ---- Steps of a transmitter

  /** The `i`-th transmitter changes; its stream may have grown. */
  ghost predicate Extends(senders: seq<Sender>, i: nat, u: Sender)
    requires i < |senders|
  {
    |senders[i].stream| <= |u.stream| && u.stream[..|senders[i].stream|] == senders[i].stream
  }

  lemma GenuineStays(c: Config, senders: seq<Sender>, i: nat, u: Sender, k: nat, ch: Chunk)
    requires Fitting(c, senders) && i < |senders| && Extends(senders, i, u)
    requires k < |senders| && GenuineOf(c, senders, k, ch)
    ensures GenuineOf(c, senders[i := u], k, ch)
  {
    var n := |senders[i].stream|;
    if k == i {
      assert u.stream == senders[i].stream + u.stream[n..];
      GenuineGrows(senders[i].stream, u.stream[n..], c.stations[i].psize, ch);
    }
  }

  lemma DatagramStays(c: Config, senders: seq<Sender>, i: nat, u: Sender, d: seq<u8>)
    requires Fitting(c, senders) && i < |senders| && Extends(senders, i, u) && DatagramOk(c, senders, d)
    ensures DatagramOk(c, senders[i := u], d)
  {
    hide GenuineOf, Extends, SessionOf, NumOf, DataOf;
    var k: nat :| From(c, senders, k, d);
    GenuineStays(c, senders, i, u, k, Chunk(NumOf(c.rxOrder, d), DataOf(d)));
    assert From(c, senders[i := u], k, d);
  }

  lemma ContentStays(c: Config, senders: seq<Sender>, i: nat, u: Sender, r: Receiver)
    requires Fitting(c, senders) && i < |senders| && Extends(senders, i, u) && ContentOk(c, senders, r)
    ensures ContentOk(c, senders[i := u], r)
  {
    hide GenuineOf, Extends;
    if !Idle(r) {
      var k: nat :| HeardFrom(c, senders, k, r);
      forall ch | ch in r.window.pkgs && ch.data != [] ensures GenuineOf(c, senders[i := u], k, ch) {
        GenuineStays(c, senders, i, u, k, ch);
      }
      forall o | o in r.output ensures GenuineOf(c, senders[i := u], k, Chunk(o.num, o.data)) {
        GenuineStays(c, senders, i, u, k, Chunk(o.num, o.data));
      }
      assert HeardFrom(c, senders[i := u], k, r);
    }
  }

  lemma SenderStepKeepsInv(c: Config, s: State, i: nat, u: Sender, more: set<seq<u8>>)
    requires Inv(c, s) && i < |s.senders| && Extends(s.senders, i, u) && SenderOk(c.stations[i], u)
    requires |u.stream| + c.bsize < TWO_64
    requires forall d :: d in more ==> |d| > HEADER && From(c, s.senders[i := u], i, d)
    ensures Inv(c, State(s.senders[i := u], s.air + more, s.rx))
  {
    hide SenderOk, ContentOk, ShapeOk, From, Extends, Uniform, Distinguishable;
    if Distinguishable(c) { ContentStays(c, s.senders, i, u, s.rx); }
    forall d | d in s.air + more ensures DatagramOk(c, s.senders[i := u], d) {
      if d in s.air { DatagramStays(c, s.senders, i, u, d); }
    }
  }

  lemma MulticastKeepsInv(c: Config, s: State, i: nat, data: seq<u8>)
    requires Inv(c, s) && Enabled(c, s, Multicast(i, data))
    ensures Inv(c, Next(c, s, Multicast(i, data)))
  {
    hide SenderOk, DatagramOk, ContentOk, ShapeOk, From, Encode, Uniform, Distinguishable;
    var st, t := c.stations[i], s.senders[i];
    var u := Transmit(t, data, st.MaxCount());
    TransmitKeepsOk(st, t, data);
    assert u.stream[..|t.stream|] == t.stream;
    EncodedIsFrom(c, s.senders[i := u], i, Chunk(|t.stream|, data));
    SenderStepKeepsInv(c, s, i, u, {Encode(st.order, st.session, |t.stream|, data)});
  }

  lemma ReplayKeepsInv(c: Config, s: State, i: nat)
    requires Inv(c, s) && Enabled(c, s, Replay(i))
    ensures Inv(c, Next(c, s, Replay(i)))
  {
    hide SenderOk, DatagramOk, ContentOk, ShapeOk, From, Encode, ReplaysOf, Lookups, Ascending, Uniform, Distinguishable;
    var st, t := c.stations[i], s.senders[i];
    var u := Serve(t, st.psize);
    ServeKeepsOk(st, t);
    var more := ReplaysOf(st, t);
    ReplaysFit(st, t);
    assert Extends(s.senders, i, u);
    forall d | d in more ensures From(c, s.senders[i := u], i, d) {
      ReplayIsFrom(c, s.senders[i := u], i, t, d);
    }
    SenderStepKeepsInv(c, s, i, u, more);
  }

  lemma ReplayIsFrom(c: Config, senders: seq<Sender>, i: nat, t: Sender, d: seq<u8>)
    requires Fitting(c, senders) && i < |senders| && senders[i].stream == t.stream && |t.stream| < TWO_64
    requires SenderOk(c.stations[i], t) && d in ReplaysOf(c.stations[i], t)
    ensures From(c, senders, i, d)
  {
    hide SenderOk, From, ReplaysOf, IsReplay;
    ServeSends(c.stations[i], t, d);
    var n :| n in t.batch && IsReplay(c.stations[i], t, n, d);
    ReplayedIsFrom(c, senders, i, t, n, d);
  }

  lemma ReplayedIsFrom(c: Config, senders: seq<Sender>, i: nat, t: Sender, n: nat, d: seq<u8>)
    requires Fitting(c, senders) && i < |senders| && senders[i].stream == t.stream && |t.stream| < TWO_64
    requires IsReplay(c.stations[i], t, n, d)
    ensures From(c, senders, i, d)
  {
    hide Encode, From;
    EncodedIsFrom(c, senders, i, Chunk(n, t.stream[n..n + c.stations[i].psize]));
  }

  lemma ControlKeepsInv(c: Config, s: State, i: nat, msg: string)
    requires Inv(c, s) && Enabled(c, s, Control(i, msg))
    ensures Inv(c, Next(c, s, Control(i, msg)))
  {
    hide SenderOk, DatagramOk, ContentOk, ShapeOk, From, Requested, Uniform, Distinguishable;
    AskKeepsOk(c.stations[i], s.senders[i], msg);
    SenderStepKeepsInv(c, s, i, Ask(s.senders[i], msg), {});
    assert s.air + {} == s.air;
  }

  lemma CopyAndClearKeepsInv(c: Config, s: State, i: nat)
    requires Inv(c, s) && Enabled(c, s, CopyAndClear(i))
    ensures Inv(c, Next(c, s, CopyAndClear(i)))
  {
    hide SenderOk, DatagramOk, ContentOk, ShapeOk, From, Uniform, Distinguishable;
    SwapKeepsOk(c.stations[i], s.senders[i]);
    SenderStepKeepsInv(c, s, i, Swap(s.senders[i]), {});
    assert s.air + {} == s.air;
  }

  // ---- Steps of the receiver

  /** What a datagram of the `k`-th transmitter brings. */
  lemma FromMeans(c: Config, s: State, k: nat, d: seq<u8>)
    requires Typed(c, s) && From(c, s.senders, k, d)
    ensures |DataOf(d)| == c.stations[k].psize > 0 && |d| == HEADER + |DataOf(d)|
    ensures NumOf(c.rxOrder, d) + c.bsize < TWO_64
  {
    hide SessionOf, NumOf;
  }

  lemma AddedIsHeard(c: Config, senders: seq<Sender>, k: nat, r: Receiver, num: nat, data: seq<u8>)
    requires Fitting(c, senders) && data != [] && WellFormed(r.window, |data|, c.bsize)
    requires HeardFrom(c, senders, k, r) && GenuineOf(c, senders, k, Chunk(num, data))
    ensures HeardFrom(c, senders, k, Accept(r, num, data, c.bsize))
  {
    hide Add, WellFormed, GenuineOf, Evicted;
    AddInventsNothing(r.window, num, data, c.bsize);
  }

  lemma AddedIsFramed(r: Receiver, num: nat, data: seq<u8>, max: nat)
    requires data != [] && Framed(r, |data|, max) && num + max < TWO_64
    ensures Framed(Accept(r, num, data, max), |data|, max)
  {
    hide Add, WellFormed, Evicted, InOrder;
    AddKeepsAdmits(r.window, num, data, max);
    AcceptKeepsOrder(r, num, data, max);
  }

  /** Before an arrival is added, the window has its length: whoever was adopted before has the same. */
  lemma AdoptedFrames(c: Config, s: State, k: nat, d: seq<u8>)
    requires Typed(c, s) && Uniform(c) && ShapeOk(c, s.rx) && From(c, s.senders, k, d) && Adds(s.rx.session, c.rxOrder, d)
    ensures Framed(s.rx.(session := SessionOf(c.rxOrder, d)), c.stations[k].psize, c.bsize)
    ensures Framed(s.rx, c.stations[k].psize, c.bsize)
  {
    hide SessionOf, GenuineOf, Framed;
    var sid := SessionOf(c.rxOrder, d);
    if Idle(s.rx) {
      IdleIsFramed(s.rx, sid, c.stations[k].psize, c.bsize);
    } else {
      var j: nat :| FramedBy(c, j, s.rx);
      assert Confusable(c, j, k);
      SessionFrames(s.rx, sid, c.stations[k].psize, c.bsize);
    }
  }

  lemma IdleIsFramed(r: Receiver, session: nat, len: nat, max: nat)
    requires Idle(r) && len > 0
    ensures Framed(r, len, max) && Framed(r.(session := session), len, max)
  {
  }

  lemma SessionFrames(r: Receiver, session: nat, len: nat, max: nat)
    requires Framed(r, len, max)
    ensures Framed(r.(session := session), len, max)
  {
  }

  lemma AdoptedIsHeard(c: Config, s: State, k: nat, d: seq<u8>)
    requires Typed(c, s) && Distinguishable(c) && ContentOk(c, s.senders, s.rx)
    requires From(c, s.senders, k, d) && Adds(s.rx.session, c.rxOrder, d)
    ensures HeardFrom(c, s.senders, k, s.rx.(session := SessionOf(c.rxOrder, d)))
  {
    hide SessionOf, GenuineOf;
    if !Idle(s.rx) {
      var j: nat :| HeardFrom(c, s.senders, j, s.rx);
      assert Confusable(c, j, k);
      assert j == k;
    }
  }

  lemma DeliverKeepsShape(c: Config, s: State, d: seq<u8>, k: nat)
    requires Typed(c, s) && Uniform(c) && ShapeOk(c, s.rx) && From(c, s.senders, k, d)
    ensures |d| > HEADER && ShapeOk(c, Receive(s.rx, c.rxOrder, d, c.bsize))
  {
    hide SessionOf, NumOf, DataOf, Accept, Framed, Uniform, GenuineOf;
    FromMeans(c, s, k, d);
    if Adds(s.rx.session, c.rxOrder, d) {
      AdoptedFrames(c, s, k, d);
      var r := s.rx.(session := SessionOf(c.rxOrder, d));
      AddedIsFramed(r, NumOf(c.rxOrder, d), DataOf(d), c.bsize);
      AcceptKeepsSession(r, NumOf(c.rxOrder, d), DataOf(d), c.bsize);
      assert FramedBy(c, k, Accept(r, NumOf(c.rxOrder, d), DataOf(d), c.bsize));
    }
  }

  lemma AcceptKeepsSession(r: Receiver, num: nat, data: seq<u8>, max: nat)
    requires data != []
    ensures Accept(r, num, data, max).session == r.session && Accept(r, num, data, max).output == r.output
  {
  }

  lemma DeliverKeepsContent(c: Config, s: State, d: seq<u8>, k: nat)
    requires Typed(c, s) && Distinguishable(c) && ShapeOk(c, s.rx) && ContentOk(c, s.senders, s.rx)
    requires From(c, s.senders, k, d)
    ensures |d| > HEADER && ContentOk(c, s.senders, Receive(s.rx, c.rxOrder, d, c.bsize))
  {
    hide SessionOf, NumOf, DataOf, Accept, Uniform, Distinguishable, GenuineOf, HeardFrom, ShapeOk, InOrder, WellFormed;
    FromMeans(c, s, k, d);
    if Adds(s.rx.session, c.rxOrder, d) {
      DistinguishableIsUniform(c);
      AdoptedFrames(c, s, k, d);
      AdoptedIsHeard(c, s, k, d);
      AddedIsHeard(c, s.senders, k, s.rx.(session := SessionOf(c.rxOrder, d)), NumOf(c.rxOrder, d), DataOf(d));
    }
  }

  lemma DeliverKeepsInv(c: Config, s: State, d: seq<u8>)
    requires Inv(c, s) && Enabled(c, s, Deliver(d))
    ensures Inv(c, Next(c, s, Deliver(d)))
  {
    hide SenderOk, From, Receive, ShapeOk, ContentOk, Uniform, Distinguishable;
    var k: nat :| From(c, s.senders, k, d);
    if Uniform(c) { DeliverKeepsShape(c, s, d, k); }
    if Distinguishable(c) {
      DistinguishableIsUniform(c);
      DeliverKeepsContent(c, s, d, k);
    }
  }

  lemma PrintKeepsContent(c: Config, senders: seq<Sender>, r: Receiver)
    requires Fitting(c, senders) && ContentOk(c, senders, r) && r.window.pkgs != []
    ensures ContentOk(c, senders, Print(r))
  {
    hide GenuineOf;
    var k: nat :| HeardFrom(c, senders, k, r);
    assert r.window.pkgs[0] in r.window.pkgs;
    assert HeardFrom(c, senders, k, Print(r));
  }

  lemma PrintKeepsShape(c: Config, r: Receiver)
    requires c.Valid() && ShapeOk(c, r) && r.window.pkgs != []
    ensures ShapeOk(c, Print(r))
  {
    var k: nat :| FramedBy(c, k, r);
    PrintKeepsFramed(r, c.stations[k].psize, c.bsize);
    hide Framed;
    assert FramedBy(c, k, Print(r));
  }

  lemma PrintKeepsFramed(r: Receiver, len: nat, max: nat)
    requires Framed(r, len, max) && r.window.pkgs != []
    ensures Framed(Print(r), len, max)
  {
    PrintKeepsOrder(r, len, max);
    PrintKeepsWellFormed(r, len, max);
    hide WellFormed, InOrder;
  }

  /** Every step keeps the invariant. */
  lemma StepKeepsInv(c: Config, s: State, step: Step)
    requires Inv(c, s) && Enabled(c, s, step)
    ensures Inv(c, Next(c, s, step))
  {
    hide SenderOk, DatagramOk, ContentOk, ShapeOk, Receive, Print, Uniform, Distinguishable;
    match step
    case Multicast(i, data) => MulticastKeepsInv(c, s, i, data);
    case Control(i, msg) => ControlKeepsInv(c, s, i, msg);
    case CopyAndClear(i) => CopyAndClearKeepsInv(c, s, i);
    case Replay(i) => ReplayKeepsInv(c, s, i);
    case Deliver(d) => DeliverKeepsInv(c, s, d);
    case PrintOne =>
      if Uniform(c) { PrintKeepsShape(c, s.rx); }
      if Distinguishable(c) { PrintKeepsContent(c, s.senders, s.rx); }
    case Leave => RestartIsIdle(c, s.senders, s.rx);
  }

  lemma RestartIsIdle(c: Config, senders: seq<Sender>, r: Receiver)
    requires Fitting(c, senders)
    ensures ShapeOk(c, Restart(r)) && ContentOk(c, senders, Restart(r))
  {
  }

  lemma InitInv(c: Config)
    requires c.Valid()
    ensures Inv(c, Init(c))
  {
    hide Uniform, Distinguishable;
    forall i | 0 <= i < |c.stations| ensures SenderOk(c.stations[i], Init(c).senders[i]) {
      assert Cut([], c.stations[i].psize) == [];
    }
    assert Idle(STARTED);
  }

  lemma {:induction false} RunKeepsInv(c: Config, s: State, steps: seq<Step>)
    requires Inv(c, s) && Legal(c, s, steps)
    ensures Inv(c, Run(c, s, steps))
    decreases |steps|
  {
    hide Next, Enabled, Typed, SenderOk, DatagramOk, ContentOk, ShapeOk, Uniform, Distinguishable;
    if steps != [] {
      StepKeepsInv(c, s, steps[0]);
      RunKeepsInv(c, Next(c, s, steps[0]), steps[1..]);
    }
  }
}
