/** What holds of the receiver whatever arrives: nothing is invented, and the output stays in order. */
module ReceiverFacts {
  import opened Bytes
  import opened Window
  import opened WindowFacts
  import opened Receivers
  import opened Wire
  import opened Fifos

  // ---- What each event does

  /**
   * The session filter. With a session adopted, a datagram of an older one changes nothing, and one of a newer one ends
   * the run: no session, nothing in the window, nothing printed. Any other is adopted and added.
   */
  lemma ReceiveFilters(r: Receiver, order: HostOrder, d: seq<u8>, max: nat)
    requires |d| > HEADER
    ensures var sid, q := SessionOf(order, d), Receive(r, order, d, max);
            && (r.session != 0 && sid < r.session ==> q == r)
            && (r.session != 0 && sid > r.session ==> AtStart(q))
            && (r.session == 0 || sid == r.session ==>
                  && q.session == sid && q.output == r.output && q.begins == r.begins
                  && q.window == Add(r.window, NumOf(order, d), DataOf(d), max))
  {
    hide Add, SessionOf, NumOf, DataOf;
  }

  /** The data loop has just begun: no session, nothing in the window or to ask for, nothing printed. */
  predicate AtStart(r: Receiver) {
    && r.session == 0 && r.output == [] && r.begins && r.skipped == 0
    && r.window.pkgs == [] && r.window.holes == {}
  }

  /** A received front package is printed and leaves; a hole at the front empties the window and prints nothing. */
  lemma PrintEffect(r: Receiver)
    requires r.window.pkgs != []
    ensures var front, q := r.window.pkgs[0], Print(r);
            && q.session == r.session
            && if front.data == [] then
                 q.window.pkgs == [] && q.window.holes == {} && q.output == r.output && q.begins
               else
                 && q.window.pkgs == r.window.pkgs[1..] && q.window.holes == r.window.holes
                 && |q.output| == |r.output| + 1 && q.output[..|r.output|] == r.output
                 && q.output[|r.output|] == Printed(front.num, front.data, r.begins, r.skipped)
                 && (q.begins <==> q.window.pkgs == [])
  {
  }

  /** Leaving the data loop, and coming back to it, begins anew. */
  lemma RestartBegins(r: Receiver)
    ensures AtStart(Restart(r)) && AtStart(STARTED)
  {
  }

  /** Every received package in the window was there before, or is the arrival. */
  lemma AddInventsNothing(v: View, num: nat, data: seq<u8>, max: nat)
    requires data != [] && WellFormed(v, |data|, max)
    ensures forall c :: c in Add(v, num, data, max).pkgs && c.data != [] ==> c in v.pkgs || c == Chunk(num, data)
  {
    var len := |data|;
    var w := Add(v, num, data, max);
    if num in v.holes || v.pkgs == [] || Ignored(v, num) {
    } else if Ahead(v, num, len) {
      AppendedFrom(v, num, data);
    } else {
      FlushedElements(v, len, Place(v, num, len));
    }
  }

  lemma AppendedFrom(v: View, num: nat, data: seq<u8>)
    requires data != [] && v.pkgs != [] && Ahead(v, num, |data|)
    ensures forall c :: c in Appended(v, num, data, Gap(v, num, |data|)) && c.data != [] ==> c in v.pkgs || c == Chunk(num, data)
  {
    var k := Gap(v, num, |data|);
    var all := Extended(v, |data|, k - 1) + [Chunk(num, data)];
    assert forall c :: c in Appended(v, num, data, k) ==> c in all;
  }

  /**
   * The order of the output. Within a stretch between two moments when the window is empty, each number exceeds the
   * one before it by the packages in between, all of them evicted; and the front of the window continues the count.
   */
  ghost predicate InOrder(r: Receiver, len: nat) {
    && (forall i :: 0 < i < |r.output| && !r.output[i].first ==>
          r.output[i].num == r.output[i - 1].num + len * (1 + r.output[i].skipped))
    && (r.window.pkgs == [] ==> r.begins)
    && (!r.begins ==>
          && r.output != [] && r.window.pkgs != []
          && r.window.Front() == r.output[|r.output| - 1].num + len * (1 + r.skipped))
  }

  lemma AcceptKeepsOrder(r: Receiver, num: nat, data: seq<u8>, max: nat)
    requires data != [] && WellFormed(r.window, |data|, max) && InOrder(r, |data|)
    ensures InOrder(Accept(r, num, data, max), |data|)
  {
    hide Add, WellFormed, Evicted;
    var len, out := |data|, Evicted(r.window, num, |data|);
    if r.window.pkgs != [] {
      AddMovesFront(r.window, num, data, max);
      assert len * (1 + r.skipped + out) == len * (1 + r.skipped) + out * len;
    }
  }

  lemma PrintKeepsOrder(r: Receiver, len: nat, max: nat)
    requires r.window.pkgs != [] && WellFormed(r.window, len, max) && InOrder(r, len)
    ensures InOrder(Print(r), len)
  {
    var p := Print(r);
    if r.window.pkgs[0].data != [] {
      if !p.begins {
        assert r.window.pkgs[1].num == r.window.pkgs[0].num + 1 * len;
        assert p.window.Front() == r.window.pkgs[1].num;
      }
    }
  }

  lemma PrintKeepsWellFormed(r: Receiver, len: nat, max: nat)
    requires r.window.pkgs != [] && WellFormed(r.window, len, max)
    ensures WellFormed(Print(r).window, len, max)
    ensures Exact(r.window) ==> Exact(Print(r).window)
  {
    PopKeepsWellFormed(r.window, len, max);
  }

  /** Within a stretch, printed numbers strictly increase, by exactly `len` from one to the next unless some were evicted. */
  lemma {:induction false} OutputIncreases(r: Receiver, len: nat, i: nat, j: nat)
    requires len > 0 && InOrder(r, len) && i < j < |r.output|
    requires forall k :: i < k <= j ==> !r.output[k].first
    ensures r.output[i].num + len * (j - i) <= r.output[j].num
    ensures r.output[j].num == r.output[i].num + len * (j - i) <==> forall k :: i < k <= j ==> r.output[k].skipped == 0
    decreases j - i
  {
    hide InOrder;
    var s := r.output[j].skipped;
    OneAfterAnother(r, len, j);
    AtLeastOnce(s, len);
    assert len * (j - i) == len + len * (j - 1 - i);
    if i < j - 1 {
      OutputIncreases(r, len, i, j - 1);
    }
  }

  lemma OneAfterAnother(r: Receiver, len: nat, j: nat)
    requires InOrder(r, len) && 0 < j < |r.output| && !r.output[j].first
    ensures r.output[j].num == r.output[j - 1].num + len * (1 + r.output[j].skipped)
  {
  }

  lemma AtLeastOnce(s: nat, len: nat)
    requires len > 0
    ensures len * (1 + s) == len + len * s && (len * s == 0 <==> s == 0)
  {
    if s > 0 { Positive(s, len); }
  }

  /** What a stretch of the output wrote out. */
  function PrintedBytes(output: seq<Printed>): seq<u8> {
    if output == [] then [] else PrintedBytes(output[..|output| - 1]) + output[|output| - 1].data
  }

  /** Genuine chunks printed one after the other with none evicted in between are one slice of the stream. */
  lemma {:induction false} SliceOfStream(r: Receiver, stream: seq<u8>, len: nat, i: nat, j: nat)
    requires len > 0 && InOrder(r, len) && i <= j < |r.output|
    requires forall k :: i < k <= j ==> !r.output[k].first && r.output[k].skipped == 0
    requires forall k :: i <= k <= j ==> Genuine(stream, len, Chunk(r.output[k].num, r.output[k].data))
    ensures r.output[i].num <= r.output[j].num && r.output[j].num + len <= |stream|
    ensures PrintedBytes(r.output[i..j + 1]) == stream[r.output[i].num..r.output[j].num + len]
    decreases j - i
  {
    hide InOrder, Genuine, PrintedBytes;
    PrintedOneMore(r.output, i, j);
    GenuineIs(stream, len, Chunk(r.output[j].num, r.output[j].data));
    if i < j {
      SliceOfStream(r, stream, len, i, j - 1);
      OneAfterAnother(r, len, j);
      assert r.output[j - 1].num + len == r.output[j].num;
    }
  }

  lemma GenuineIs(stream: seq<u8>, len: nat, c: Chunk)
    requires len > 0 && Genuine(stream, len, c)
    ensures c.num + len <= |stream| && c.data == stream[c.num..c.num + len]
  {
  }

  lemma PrintedOneMore(output: seq<Printed>, i: nat, j: nat)
    requires i <= j < |output|
    ensures PrintedBytes(output[i..j + 1]) == PrintedBytes(output[i..j]) + output[j].data
    ensures i == j ==> PrintedBytes(output[i..j]) == []
  {
    var out := output[i..j + 1];
    assert out[..|out| - 1] == output[i..j];
  }
}
