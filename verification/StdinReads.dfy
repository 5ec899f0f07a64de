/** How the transmitter's byte numbers relate to its standard input (the loop in `main`, big3/nadajnik.cpp). */
module StdinReads {
  import opened Bytes
  import opened Window
  import opened Fifos
  import opened Senders

  /** Everything the successive reads returned: the consumed part of standard input. */
  function Consumed(inputs: seq<seq<u8>>): seq<u8> {
    if inputs == [] then [] else Consumed(inputs[..|inputs| - 1]) + inputs[|inputs| - 1]
  }

  /** The reads that were numbered and multicast: only those of exactly `psize` bytes. */
  function Streamed(inputs: seq<seq<u8>>, psize: nat): seq<u8> {
    if inputs == [] then []
    else Streamed(inputs[..|inputs| - 1], psize) + if |inputs[|inputs| - 1]| == psize then inputs[|inputs| - 1] else []
  }

  /** The transmitter after these reads. */
  function AfterReads(inputs: seq<seq<u8>>, psize: nat, maxCount: nat): Sender {
    if inputs == [] then IDLE
    else
      var s := AfterReads(inputs[..|inputs| - 1], psize, maxCount);
      var r := inputs[|inputs| - 1];
      if |r| == psize then Transmit(s, r, maxCount) else s
  }

  /** Bytes consumed but never sent: those of reads that came back short. */
  function Dropped(inputs: seq<seq<u8>>, psize: nat): nat {
    if inputs == [] then 0
    else Dropped(inputs[..|inputs| - 1], psize) + if |inputs[|inputs| - 1]| == psize then 0 else |inputs[|inputs| - 1]|
  }

  /** After any reads, the stream is what the full ones brought, and the cache its newest `maxCount` chunks. */
  lemma {:induction false} ReadsFillTheCache(inputs: seq<seq<u8>>, psize: nat, maxCount: nat)
    requires psize > 0
    ensures var s := AfterReads(inputs, psize, maxCount);
            && s.stream == Streamed(inputs, psize) && |s.stream| % psize == 0
            && s.list == Last(Cut(s.stream, psize), maxCount)
  {
    if inputs == [] {
      assert Cut([], psize) == [];
    } else {
      var front, r := inputs[..|inputs| - 1], inputs[|inputs| - 1];
      ReadsFillTheCache(front, psize, maxCount);
      if |r| == psize {
        var s := AfterReads(front, psize, maxCount);
        CutGrows(s.stream, r, psize);
        EnqueueKeepsLast(Cut(s.stream, psize), Chunk(|s.stream|, r), maxCount);
      }
    }
  }

  lemma {:induction false} DroppedBytes(inputs: seq<seq<u8>>, psize: nat)
    ensures |Consumed(inputs)| == |Streamed(inputs, psize)| + Dropped(inputs, psize)
  {
    if inputs != [] { DroppedBytes(inputs[..|inputs| - 1], psize); }
  }

  lemma {:induction false} ConsumedSoFar(inputs: seq<seq<u8>>, i: nat)
    requires i < |inputs|
    ensures Consumed(inputs[..i]) + inputs[i] <= Consumed(inputs)
  {
    var front, r := inputs[..|inputs| - 1], inputs[|inputs| - 1];
    if i < |front| {
      assert front[..i] == inputs[..i];
      ConsumedSoFar(front, i);
    }
  }

  /**
   * A chunk's number is the offset of its bytes in standard input if and only if no read before it came back short:
   * each byte of a short read is lost and shifts all later numbers.
   */
  lemma NumberIsOffsetIff(inputs: seq<seq<u8>>, psize: nat, i: nat)
    requires psize > 0 && i < |inputs| && |inputs[i]| == psize
    ensures var num, off := |Streamed(inputs[..i], psize)|, |Consumed(inputs[..i])|;
            && off + psize <= |Consumed(inputs)|
            && Consumed(inputs)[off..off + psize] == inputs[i]
            && off == num + Dropped(inputs[..i], psize)
            && (num == off <==> forall j :: 0 <= j < i ==> |inputs[j]| in {0, psize})
  {
    DroppedBytes(inputs[..i], psize);
    ConsumedSoFar(inputs, i);
    var off, all := |Consumed(inputs[..i])|, Consumed(inputs);
    assert all[..off + psize] == Consumed(inputs[..i]) + inputs[i];
    NothingDroppedIff(inputs[..i], psize);
    assert forall j :: 0 <= j < i ==> inputs[..i][j] == inputs[j];
  }

  lemma {:induction false} NothingDroppedIff(inputs: seq<seq<u8>>, psize: nat)
    ensures Dropped(inputs, psize) == 0 <==> forall j :: 0 <= j < |inputs| ==> |inputs[j]| in {0, psize}
  {
    if inputs != [] {
      var front, r := inputs[..|inputs| - 1], inputs[|inputs| - 1];
      NothingDroppedIff(front, psize);
      assert forall j :: 0 <= j < |front| ==> front[j] == inputs[j];
    }
  }

  /** A read that came back one byte short, then a full one: its number is 0, but its bytes begin at offset 1. */
  lemma ShortReadShifts(a: u8, b: u8, c: u8)
    ensures var inputs := [[a], [b, c]];
            |Streamed(inputs[..1], 2)| == 0 && |Consumed(inputs[..1])| == 1 && Streamed(inputs, 2) == [b, c]
  {
    var inputs := [[a], [b, c]];
    var first := inputs[..1];
    assert first == [[a]] && Consumed(first[..0]) == [];
  }
}
