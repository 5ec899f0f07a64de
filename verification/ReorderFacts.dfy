/**
 * What the reorder window is for. Packages of a stream arrive late, early, out of order or not at all, and the printer
 * takes its turns in between: the window always holds the stretch of the stream that a simple account of places says.
 */
module ReorderFacts {
  import opened Bytes
  import opened Window
  import opened WindowFacts
  import opened WindowSteps
  import opened Receivers
  import opened ReceiverFacts

  /** A stretch of a stream: `chunks[p]` are the `len` bytes from number `base + p * len` on. */
  datatype Stream = Stream(base: nat, len: nat, chunks: seq<seq<u8>>) {
    predicate Even() {
      len > 0 && forall p :: 0 <= p < |chunks| ==> |chunks[p]| == len
    }

    function Num(p: nat): nat {
      base + p * len
    }
  }

  /** The account: the window covers the places from `front` up to `end`, and those in `got` have been received. */
  datatype Track = Track(front: nat, end: nat, got: set<nat>) {
    ghost predicate Ok() {
      front <= end && forall q :: q in got ==> front <= q < end
    }

    /** The window after place `p` arrived, for a capacity of `size`. */
    function Arrived(p: nat, size: nat): Track {
      if front >= end then Track(p, p + 1, {p})
      else if front <= p < end then Track(front, end, got + {p})
      else if p < front || end - front >= size then this
      else
        var f := if p + 1 <= front + size then front else p + 1 - size;
        Track(f, p + 1, (set q | q in got && f <= q) + {p})
    }

    /** ... and after a turn of the printer: a hole at the front makes it start over. */
    function Popped(): Track {
      if front >= end then this
      else if front in got then Track(front + 1, end, got - {front})
      else Track(end, end, {})
    }
  }

  ghost predicate InPlace(pkgs: seq<Chunk>, s: Stream, front: nat, got: set<nat>)
    requires front + |pkgs| <= |s.chunks|
  {
    forall i :: 0 <= i < |pkgs| ==> pkgs[i] == Chunk(s.Num(front + i), if front + i in got then s.chunks[front + i] else [])
  }

  /** The window is what the account says: the received places with the stream's bytes, the others empty and asked for. */
  ghost predicate Follows(v: View, s: Stream, t: Track, max: nat) {
    && s.Even() && t.Ok() && t.end <= |s.chunks|
    && |v.pkgs| == t.end - t.front
    && (v.pkgs != [] ==> v.size == max / s.len && (|v.pkgs| <= v.size || |v.pkgs| == 1))
    && Exact(v)
    && InPlace(v.pkgs, s, t.front, t.got)
  }

  /** The place is not one received already, in a window that still has room. */
  predicate Quiet(s: Stream, t: Track, p: nat, size: nat) {
    p < |s.chunks| && (t.front <= p < t.end && t.end - t.front < size ==> p !in t.got)
  }

  lemma NumsDiffer(s: Stream, p: nat, q: nat)
    requires s.len > 0 && p < q
    ensures s.Num(p) < s.Num(q)
  {
    Distribute(p, q - p, s.len);
    Positive(q - p, s.len);
  }

  /** Any run begins with an empty window. */
  lemma StartFollows(s: Stream, front: nat, max: nat)
    requires s.Even() && front <= |s.chunks|
    ensures Follows(STARTED.window, s, Track(front, front, {}), max)
  {
  }

  lemma FollowsShape(v: View, s: Stream, t: Track, max: nat)
    requires Follows(v, s, t, max)
    ensures WellFormed(v, s.len, max)
    ensures v.pkgs != [] ==> v.Front() == s.Num(t.front) && t.end > t.front && v.Back() == s.Num(t.end - 1)
  {
    var n := |v.pkgs|;
    forall i | 0 <= i < n ensures v.pkgs[i].num == v.pkgs[0].num + i * s.len {
      Distribute(t.front, i, s.len);
    }
    assert forall i :: 0 <= i < n ==> |v.pkgs[i].data| in {0, s.len};
  }

  // ---- An arrival

  lemma FollowedHoles(v: View, s: Stream, t: Track, p: nat, max: nat)
    requires Follows(v, s, t, max)
    ensures s.Num(p) in v.holes <==> t.front <= p < t.end && p !in t.got
  {
    hide Stream.Num;
    if t.front <= p < t.end {
      var i := p - t.front;
      assert v.pkgs[i].num == s.Num(p);
      forall j | 0 <= j < |v.pkgs| && v.pkgs[j].num == s.Num(p) ensures j == i {
        SamePlace(s, t.front + j, p);
      }
    } else {
      forall j | 0 <= j < |v.pkgs| ensures v.pkgs[j].num != s.Num(p) {
        SamePlace(s, t.front + j, p);
      }
    }
  }

  lemma SamePlace(s: Stream, p: nat, q: nat)
    requires s.len > 0
    ensures s.Num(p) == s.Num(q) <==> p == q
  {
    if p < q { NumsDiffer(s, p, q); } else if q < p { NumsDiffer(s, q, p); }
  }

  ghost predicate Arriving(v: View, s: Stream, t: Track, p: nat, max: nat) {
    s.Even() && p < |s.chunks| && Quiet(s, t, p, max / s.len) && Follows(v, s, t, max)
  }

  /** Each arrival does to the window what it does to the account. */
  lemma ArrivalFollows(v: View, s: Stream, t: Track, p: nat, max: nat)
    requires Arriving(v, s, t, p, max)
    ensures Follows(Add(v, s.Num(p), s.chunks[p], max), s, t.Arrived(p, max / s.len), max)
    ensures Evicted(v, s.Num(p), s.len) == if t.front == t.end then 0 else t.Arrived(p, max / s.len).front - t.front
  {
    hide Stream.Num, Add, Fill, Follows, Evicted, Exact;
    FollowedHoles(v, s, t, p, max);
    FollowsMeans(v, s, t, max);
    if t.front == t.end {
      FirstFollows(v, s, t, p, max);
    } else if t.front <= p < t.end && p !in t.got {
      FillFollows(v, s, t, p, max);
    } else if p < t.end || t.end - t.front >= max / s.len {
      IgnoredFollows(v, s, t, p, max);
    } else {
      AppendFollows(v, s, t, p, max);
    }
  }

  lemma FollowsMeans(v: View, s: Stream, t: Track, max: nat)
    requires Follows(v, s, t, max)
    ensures s.len > 0 && t.Ok() && t.end <= |s.chunks| && |v.pkgs| == t.end - t.front
    ensures v.pkgs != [] ==> v.size == max / s.len
  {
  }

  lemma FirstFollows(v: View, s: Stream, t: Track, p: nat, max: nat)
    requires Arriving(v, s, t, p, max) && t.front == t.end
    ensures Follows(Add(v, s.Num(p), s.chunks[p], max), s, Track(p, p + 1, {p}), max)
    ensures Evicted(v, s.Num(p), s.len) == 0
  {
    hide Stream.Num;
    var w := Add(v, s.Num(p), s.chunks[p], max);
    assert w.pkgs == [Chunk(s.Num(p), s.chunks[p])];
  }

  lemma FillFollows(v: View, s: Stream, t: Track, p: nat, max: nat)
    requires Arriving(v, s, t, p, max) && t.front <= p < t.end && s.Num(p) in v.holes
    ensures Follows(Add(v, s.Num(p), s.chunks[p], max), s, Track(t.front, t.end, t.got + {p}), max)
    ensures Evicted(v, s.Num(p), s.len) == 0
  {
    hide Fill, EmptyNums, InPlace, Stream.Num;
    FillEmptyNums(v, s.Num(p), s.chunks[p]);
    FillIsInPlace(v.pkgs, s, t, p);
  }

  lemma FillIsInPlace(pkgs: seq<Chunk>, s: Stream, t: Track, p: nat)
    requires s.Even() && t.front <= p < t.front + |pkgs| <= |s.chunks| && InPlace(pkgs, s, t.front, t.got)
    ensures InPlace(Fill(pkgs, s.Num(p), s.chunks[p]), s, t.front, t.got + {p})
  {
    hide Fill, Stream.Num;
    var r := Fill(pkgs, s.Num(p), s.chunks[p]);
    forall i | 0 <= i < |pkgs|
      ensures r[i] == Chunk(s.Num(t.front + i), if t.front + i in t.got + {p} then s.chunks[t.front + i] else [])
    {
      SamePlace(s, t.front + i, p);
    }
  }

  /** Too late, or no room. */
  lemma IgnoredFollows(v: View, s: Stream, t: Track, p: nat, max: nat)
    requires Arriving(v, s, t, p, max) && t.front < t.end && s.Num(p) !in v.holes
    requires t.front <= p < t.end ==> p in t.got
    requires p < t.end || t.end - t.front >= max / s.len
    ensures Add(v, s.Num(p), s.chunks[p], max) == v && Evicted(v, s.Num(p), s.len) == 0
    ensures t.Arrived(p, max / s.len) == t && Follows(v, s, t, max)
  {
    hide InPlace, Exact, Stream.Num;
    assert v.Front() == s.Num(t.front) by { FollowsShape(v, s, t, max); }
    if p < t.front { NumsDiffer(s, p, t.front); }
    if t.front <= p < t.end { assert t.got + {p} == t.got; }
  }

  lemma AppendFollows(v: View, s: Stream, t: Track, p: nat, max: nat)
    requires Arriving(v, s, t, p, max) && t.front < t.end <= p && t.end - t.front < max / s.len
    ensures Follows(Add(v, s.Num(p), s.chunks[p], max), s, t.Arrived(p, max / s.len), max)
    ensures Evicted(v, s.Num(p), s.len) == t.Arrived(p, max / s.len).front - t.front
  {
    hide Stream.Num, Exact, InPlace, WellFormed;
    var num, data, u := s.Num(p), s.chunks[p], t.Arrived(p, max / s.len);
    FollowsShape(v, s, t, max);
    FollowedHoles(v, s, t, p, max);
    AheadOfWindow(v, s, t, p, max);
    assert Exact(Add(v, num, data, max)) by { ExactAhead(v, num, data, max); }
    AppendedInPlace(v, s, t, p, max);
    AheadIsAppended(v, num, data, max);
    hide Add, Appended, Evicted;
  }

  lemma ExactAhead(v: View, num: nat, data: seq<u8>, max: nat)
    requires data != [] && v.pkgs != [] && Ahead(v, num, |data|) && WellFormed(v, |data|, max) && Exact(v)
    ensures Exact(Add(v, num, data, max))
  {
    hide WellFormed, Exact, Add;
    AddKeepsExactIff(v, num, data, max);
  }

  lemma AheadIsAppended(v: View, num: nat, data: seq<u8>, max: nat)
    requires data != [] && num !in v.holes && v.pkgs != [] && !Ignored(v, num) && Ahead(v, num, |data|)
    ensures var w, k := Add(v, num, data, max), Gap(v, num, |data|);
            && w.pkgs == Appended(v, num, data, k) && w.size == v.size
            && Evicted(v, num, |data|) == if |v.pkgs| + k < v.size then 0 else |v.pkgs| + k - v.size
  {
    hide Appended;
  }

  lemma AheadOfWindow(v: View, s: Stream, t: Track, p: nat, max: nat)
    requires Arriving(v, s, t, p, max) && t.front < t.end <= p && t.end - t.front < max / s.len
    ensures v.pkgs != [] && !Ignored(v, s.Num(p)) && Ahead(v, s.Num(p), s.len)
    ensures Gap(v, s.Num(p), s.len) == p - t.end + 1
  {
    FollowsShape(v, s, t, max);
    hide InPlace, Exact, WellFormed;
    NumsDiffer(s, t.front, p);
    Distribute(t.end - 1, p - t.end + 1, s.len);
    AheadBy(v, s.Num(p), s.len, p - t.end + 1);
  }

  lemma AppendedInPlace(v: View, s: Stream, t: Track, p: nat, max: nat)
    requires Arriving(v, s, t, p, max) && t.front < t.end <= p && t.end - t.front < max / s.len
    ensures v.pkgs != []
    ensures var u := t.Arrived(p, max / s.len);
            var r := Appended(v, s.Num(p), s.chunks[p], p - t.end + 1);
            |r| == u.end - u.front && InPlace(r, s, u.front, u.got)
  {
    hide Exact, Extended, InPlace, Stream.Num;
    var k, u := p - t.end + 1, t.Arrived(p, max / s.len);
    ExtendedNums(v, s, t, k - 1, max);
    var ext := Extended(v, s.len, k - 1);
    var all := ext + [Chunk(s.Num(p), s.chunks[p])];
    OneMoreInPlace(ext, s, t, p);
    DropInPlace(all, s, t.front, t.got + {p}, u.got, u.front - t.front);
    assert Appended(v, s.Num(p), s.chunks[p], k) == all[u.front - t.front..];
  }

  lemma OneMoreInPlace(pkgs: seq<Chunk>, s: Stream, t: Track, p: nat)
    requires t.front + |pkgs| == p < |s.chunks| && InPlace(pkgs, s, t.front, t.got)
    ensures InPlace(pkgs + [Chunk(s.Num(p), s.chunks[p])], s, t.front, t.got + {p})
  {
    hide Stream.Num;
  }

  lemma DropInPlace(pkgs: seq<Chunk>, s: Stream, front: nat, got: set<nat>, rest: set<nat>, d: nat)
    requires d <= |pkgs| && front + |pkgs| <= |s.chunks| && InPlace(pkgs, s, front, got)
    requires forall q :: front + d <= q ==> (q in got <==> q in rest)
    ensures InPlace(pkgs[d..], s, front + d, rest)
  {
    hide Stream.Num;
    forall i | 0 <= i < |pkgs| - d
      ensures pkgs[d..][i] ==
              Chunk(s.Num(front + d + i), if front + d + i in rest then s.chunks[front + d + i] else [])
    {
      assert pkgs[d..][i] == pkgs[d + i];
    }
  }

  /** Blanks behind the window continue its places, all of them still to come. */
  lemma ExtendedNums(v: View, s: Stream, t: Track, k: nat, max: nat)
    requires t.front < t.end && t.end + k <= |s.chunks| && Follows(v, s, t, max)
    ensures v.pkgs != [] && |Extended(v, s.len, k)| == t.end - t.front + k
    ensures InPlace(Extended(v, s.len, k), s, t.front, t.got)
  {
    hide Exact;
    FollowsShape(v, s, t, max);
    forall i | 0 <= i < k ensures v.Back() + s.len + i * s.len == s.Num(t.end + i) {
      Distribute(t.end, i, s.len);
      Distribute(t.end - 1, 1, s.len);
    }
    hide WellFormed;
  }

  // ---- A turn of the printer

  lemma PrintFollows(r: Receiver, s: Stream, t: Track, max: nat)
    requires t.front < t.end && Follows(r.window, s, t, max)
    ensures r.window.pkgs != [] && Follows(Print(r).window, s, t.Popped(), max) && t.front < |s.chunks|
    ensures Print(r).skipped == 0
    ensures Print(r).output == r.output + if t.front in t.got
                                          then [Printed(s.Num(t.front), s.chunks[t.front], r.begins, r.skipped)] else []
  {
    assert Exact(Print(r).window) by {
      FollowsShape(r.window, s, t, max);
      hide Exact, WellFormed;
      PrintKeepsWellFormed(r, s.len, max);
    }
    hide Exact, Stream.Num;
  }

  // ---- Runs

  /** A package of the stream gets past the session filter, or the printer takes a turn. */
  datatype Event = Arrives(p: nat) | Prints

  function After(r: Receiver, s: Stream, e: Event, max: nat): Receiver {
    match e
    case Arrives(p) => if p < |s.chunks| && s.chunks[p] != [] then Accept(r, s.Num(p), s.chunks[p], max) else r
    case Prints => if r.window.pkgs == [] then r else Print(r)
  }

  function TrackAfter(t: Track, e: Event, size: nat): Track {
    match e
    case Arrives(p) => t.Arrived(p, size)
    case Prints => t.Popped()
  }

  function AfterAll(r: Receiver, s: Stream, events: seq<Event>, max: nat): Receiver
    decreases |events|
  {
    if events == [] then r else AfterAll(After(r, s, events[0], max), s, events[1..], max)
  }

  function TrackAfterAll(t: Track, events: seq<Event>, size: nat): Track
    decreases |events|
  {
    if events == [] then t else TrackAfterAll(TrackAfter(t, events[0], size), events[1..], size)
  }

  /** No package comes again while it is in a window with room. */
  predicate AllQuiet(s: Stream, t: Track, events: seq<Event>, size: nat)
    decreases |events|
  {
    events == [] ||
    ((events[0].Arrives? ==> Quiet(s, t, events[0].p, size)) && AllQuiet(s, TrackAfter(t, events[0], size), events[1..], size))
  }

  lemma EventFollows(r: Receiver, s: Stream, t: Track, e: Event, max: nat)
    requires s.Even() && (e.Arrives? ==> Quiet(s, t, e.p, max / s.len)) && Follows(r.window, s, t, max)
    ensures Follows(After(r, s, e, max).window, s, TrackAfter(t, e, max / s.len), max)
  {
    hide Add, Evicted, Print, Quiet;
    match e
    case Arrives(p) =>
      QuietInside(s, t, p, max / s.len);
      ArrivalFollows(r.window, s, t, p, max);
    case Prints => if t.front < t.end { PrintFollows(r, s, t, max); }
  }

  lemma QuietInside(s: Stream, t: Track, p: nat, size: nat)
    requires Quiet(s, t, p, size)
    ensures p < |s.chunks|
  {
  }

  /** However arrivals are reordered, lost or late, however far the window slides and whenever the printer takes its
      turns: the window is what the account of the places says. */
  lemma {:induction false} WindowFollowsTrack(r: Receiver, s: Stream, t: Track, events: seq<Event>, max: nat)
    requires s.Even() && AllQuiet(s, t, events, max / s.len) && Follows(r.window, s, t, max)
    ensures Follows(AfterAll(r, s, events, max).window, s, TrackAfterAll(t, events, max / s.len), max)
    decreases |events|
  {
    hide Follows, After, TrackAfter, Quiet;
    if events != [] {
      EventFollows(r, s, t, events[0], max);
      WindowFollowsTrack(After(r, s, events[0], max), s, TrackAfter(t, events[0], max / s.len), events[1..], max);
    }
  }

  // ---- Runs in which everything comes in time

  /** The package is less than a window ahead of the front, or the very next one; the printer finds no hole. */
  predicate InTime(s: Stream, t: Track, e: Event, size: nat) {
    match e
    case Arrives(p) => Quiet(s, t, p, size) && if t.front >= t.end then p == t.front else p < t.front + size
    case Prints => t.front < t.end ==> t.front in t.got
  }

  predicate AllInTime(s: Stream, t: Track, events: seq<Event>, size: nat)
    decreases |events|
  {
    events == [] || (InTime(s, t, events[0], size) && AllInTime(s, TrackAfter(t, events[0], size), events[1..], size))
  }

  /** Since `t`, the places up to the front of `t'` were printed, each once and in order, and none was evicted. */
  ghost predicate PrintedAll(r: Receiver, s: Stream, t: Track, r': Receiver, t': Track) {
    && t.front <= t'.front <= |s.chunks|
    && |r'.output| == |r.output| + (t'.front - t.front)
    && r'.output[..|r.output|] == r.output
    && (forall i :: |r.output| <= i < |r'.output| ==> IsPrinted(r'.output[i], s, t.front + i - |r.output|))
    && r'.skipped == 0
  }

  predicate IsPrinted(o: Printed, s: Stream, q: nat)
    requires q < |s.chunks|
  {
    o.num == s.Num(q) && o.data == s.chunks[q] && o.skipped == 0
  }

  ghost predicate Starting(r: Receiver, s: Stream, t: Track, max: nat) {
    s.Even() && r.skipped == 0 && Follows(r.window, s, t, max)
  }

  lemma OneInTime(r: Receiver, s: Stream, t: Track, e: Event, max: nat)
    requires Starting(r, s, t, max) && InTime(s, t, e, max / s.len)
    ensures PrintedAll(r, s, t, After(r, s, e, max), TrackAfter(t, e, max / s.len))
    ensures Starting(After(r, s, e, max), s, TrackAfter(t, e, max / s.len), max)
  {
    hide Add, Evicted, Print, Follows, Stream.Num;
    EventFollows(r, s, t, e, max);
    FollowsMeans(r.window, s, t, max);
    FollowsMeans(After(r, s, e, max).window, s, TrackAfter(t, e, max / s.len), max);
    match e
    case Arrives(p) => ArrivalFollows(r.window, s, t, p, max);
    case Prints => if t.front < t.end { PrintFollows(r, s, t, max); }
  }

  lemma PrintedAllJoins(r: Receiver, s: Stream, t: Track, r1: Receiver, t1: Track, r2: Receiver, t2: Track)
    requires PrintedAll(r, s, t, r1, t1) && PrintedAll(r1, s, t1, r2, t2)
    ensures PrintedAll(r, s, t, r2, t2)
  {
    hide IsPrinted;
    assert r2.output[..|r.output|] == r1.output[..|r.output|];
    forall i | |r.output| <= i < |r2.output| ensures IsPrinted(r2.output[i], s, t.front + i - |r.output|) {
      if i < |r1.output| { assert r2.output[..|r1.output|][i] == r1.output[i]; }
    }
  }

  /** When everything comes in time, in whatever order, the stream is printed from the front on without a gap. */
  lemma {:induction false} ReorderingIsUndone(r: Receiver, s: Stream, t: Track, events: seq<Event>, max: nat)
    requires Starting(r, s, t, max) && AllInTime(s, t, events, max / s.len)
    ensures PrintedAll(r, s, t, AfterAll(r, s, events, max), TrackAfterAll(t, events, max / s.len))
    ensures Starting(AfterAll(r, s, events, max), s, TrackAfterAll(t, events, max / s.len), max)
    decreases |events|
  {
    hide Follows, After, TrackAfter, InTime, PrintedAll;
    if events == [] {
      NothingPrinted(r, s, t, max);
    } else {
      var r1, t1 := After(r, s, events[0], max), TrackAfter(t, events[0], max / s.len);
      OneInTime(r, s, t, events[0], max);
      ReorderingIsUndone(r1, s, t1, events[1..], max);
      PrintedAllJoins(r, s, t, r1, t1, AfterAll(r, s, events, max), TrackAfterAll(t, events, max / s.len));
    }
  }

  lemma NothingPrinted(r: Receiver, s: Stream, t: Track, max: nat)
    requires Starting(r, s, t, max)
    ensures PrintedAll(r, s, t, r, t)
  {
  }

  // ---- The order of arrival

  ghost function Places(events: seq<Event>): set<nat> {
    set e | e in events && e.Arrives? :: e.p
  }

  /** The account in terms of what has arrived: everything from the front on, up to the last place. */
  ghost predicate Accounts(t: Track, places: set<nat>, t': Track) {
    && t.front <= t'.front && t.end <= t'.end
    && t'.got == (set q | q in t.got + places && t'.front <= q)
    && (forall p :: p in places ==> p < t'.end)
    && (t'.end == t.end || t'.end - 1 in places)
  }

  lemma OneAccounted(s: Stream, t: Track, e: Event, size: nat)
    requires t.Ok() && InTime(s, t, e, size)
    ensures TrackAfter(t, e, size).Ok() && Accounts(t, if e.Arrives? then {e.p} else {}, TrackAfter(t, e, size))
  {
  }

  lemma AccountsJoin(t: Track, a: set<nat>, t1: Track, b: set<nat>, t2: Track)
    requires Accounts(t, a, t1) && Accounts(t1, b, t2)
    ensures Accounts(t, a + b, t2)
  {
  }

  lemma {:induction false} RunAccounted(s: Stream, t: Track, events: seq<Event>, size: nat)
    requires t.Ok() && AllInTime(s, t, events, size)
    ensures Accounts(t, Places(events), TrackAfterAll(t, events, size))
    decreases |events|
  {
    hide InTime, TrackAfter, Accounts, Track.Ok;
    if events == [] {
      NothingAccounted(t);
      assert Places(events) == {};
    } else {
      var a := if events[0].Arrives? then {events[0].p} else {};
      OneAccounted(s, t, events[0], size);
      RunAccounted(s, TrackAfter(t, events[0], size), events[1..], size);
      AccountsJoin(t, a, TrackAfter(t, events[0], size), Places(events[1..]), TrackAfterAll(t, events, size));
      assert events == [events[0]] + events[1..];
      assert Places(events) == a + Places(events[1..]);
    }
  }

  lemma NothingAccounted(t: Track)
    requires t.Ok()
    ensures Accounts(t, {}, t)
  {
  }

  lemma AccountsDetermine(t: Track, places: set<nat>, a: Track, b: Track)
    requires Accounts(t, places, a) && Accounts(t, places, b) && a.front == b.front
    ensures a == b
  {
  }

  lemma FollowsDetermines(v: View, w: View, s: Stream, t: Track, max: nat)
    requires Follows(v, s, t, max) && Follows(w, s, t, max)
    ensures v.pkgs == w.pkgs && v.holes == w.holes
  {
    assert v.pkgs == w.pkgs;
  }

  lemma SameOutput(r: Receiver, s: Stream, t: Track, a: Receiver, b: Receiver, t': Track, i: nat)
    requires PrintedAll(r, s, t, a, t') && PrintedAll(r, s, t, b, t') && i < |a.output|
    ensures |b.output| == |a.output| && a.output[i].num == b.output[i].num && a.output[i].data == b.output[i].data
  {
    if i < |r.output| {
      assert a.output[..|r.output|][i] == b.output[..|r.output|][i];
    } else {
      assert IsPrinted(a.output[i], s, t.front + i - |r.output|) && IsPrinted(b.output[i], s, t.front + i - |r.output|);
    }
  }

  /** Two runs from the same state in which the same packages come in time, in whatever order, and as many are printed,
      end with the same window, the same holes to ask for and the same output. */
  lemma OrderDoesNotMatter(r: Receiver, s: Stream, t: Track, a: seq<Event>, b: seq<Event>, max: nat)
    requires Starting(r, s, t, max) && AllInTime(s, t, a, max / s.len) && AllInTime(s, t, b, max / s.len)
    requires Places(a) == Places(b) && |AfterAll(r, s, a, max).output| == |AfterAll(r, s, b, max).output|
    ensures var x, y := AfterAll(r, s, a, max), AfterAll(r, s, b, max);
            && x.window.pkgs == y.window.pkgs && x.window.holes == y.window.holes
            && forall i :: 0 <= i < |x.output| ==> x.output[i].num == y.output[i].num && x.output[i].data == y.output[i].data
  {
    hide AllInTime, AfterAll, TrackAfterAll, Places, Accounts, Follows, IsPrinted;
    FollowsMeans(r.window, s, t, max);
    var x, y := AfterAll(r, s, a, max), AfterAll(r, s, b, max);
    var ta, tb := TrackAfterAll(t, a, max / s.len), TrackAfterAll(t, b, max / s.len);
    ReorderingIsUndone(r, s, t, a, max);
    ReorderingIsUndone(r, s, t, b, max);
    RunAccounted(s, t, a, max / s.len);
    RunAccounted(s, t, b, max / s.len);
    AccountsDetermine(t, Places(a), ta, tb);
    FollowsDetermines(x.window, y.window, s, ta, max);
    forall i | 0 <= i < |x.output| ensures x.output[i].num == y.output[i].num && x.output[i].data == y.output[i].data {
      SameOutput(r, s, t, x, y, ta, i);
    }
  }
}
