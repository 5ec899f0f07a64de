/** The echo client: it sends its lines piecemeal and reads back whenever the socket does not take everything. */
module EchoClient {
  import opened Bytes

  /** What `write` did: took some bytes, timed out, or failed. */
  datatype Write = Took(count: nat) | TimedOut | Broken

  /** What `read` did: delivered bytes (none at the end of the stream), or failed. */
  datatype Read = Got(data: seq<u8>) | Failed

  /** How the loop over one line ended: the line is out, the client gave up, or the kernel has answered no further. */
  datatype Outcome = LineSent | GaveUp | Waiting

  /** The bytes `write` took in all these answers; a timeout counts as none. */
  function Total(answers: seq<(Write, Read)>): nat {
    if answers == [] then 0
    else Total(answers[..|answers| - 1]) + if answers[|answers| - 1].0.Took? then answers[|answers| - 1].0.count else 0
  }

  /** The bytes `read` delivered in all these answers. */
  function Data(answers: seq<(Write, Read)>): seq<u8> {
    if answers == [] then []
    else Data(answers[..|answers| - 1]) + if answers[|answers| - 1].1.Got? then answers[|answers| - 1].1.data else []
  }

  lemma NoneYet(answers: seq<(Write, Read)>)
    ensures Total(answers[..0]) == 0 && Data(answers[..0]) == []
  {
  }

  lemma OneMore(answers: seq<(Write, Read)>, i: nat)
    requires i < |answers|
    ensures Total(answers[..i + 1]) == Total(answers[..i]) + if answers[i].0.Took? then answers[i].0.count else 0
    ensures Data(answers[..i + 1]) == Data(answers[..i]) + if answers[i].1.Got? then answers[i].1.data else []
  {
    assert answers[..i + 1][..i] == answers[..i];
  }

  /** `read` fails or finds the connection closed. */
  predicate ReadEnds(r: Read) {
    r == Failed || r == Got([])
  }

  class Client {
    var totalSent: nat
    var totalLen: nat
    ghost var sent: seq<u8>
    ghost var received: seq<u8>

    ghost predicate Valid()
      reads this
    {
      totalSent == |sent| && totalLen == |received|
    }

    constructor ()
      ensures Valid() && sent == [] && received == []
    {
      totalSent, totalLen, sent, received := 0, 0, [], [];
    }

    /** `read_something`; false when it ends the program. */
    method ReadSomething(r: Read) returns (ok: bool)
      requires Valid()
      modifies this`totalLen, this`received
      ensures Valid() && ok == (r.Got? && r.data != [])
      ensures received == old(received) + if r.Got? then r.data else []
    {
      if r.Failed? || |r.data| == 0 {
        return false;
      }
      totalLen := totalLen + |r.data|;
      received := received + r.data;
      return true;
    }

    /**
     * The loop over one line, fed with the kernel's successive answers, of which it takes the first `n`. Whatever is cut
     * short, bytes leave in order, none twice and none skipped: as many as `write` took, never more than the line.
     * The loop ends as soon as the line is out, and before that only if `write` broke or the `read` after it ended; it
     * reads after every `write` that left something to send, timeouts included, and receives those bytes in order.
     */
    method SendLine(line: seq<u8>, answers: seq<(Write, Read)>) returns (out: Outcome, ghost k: nat, ghost n: nat)
      requires Valid()
      modifies this
      ensures Valid() && n <= |answers|
      ensures k == (if Total(answers[..n]) < |line| then Total(answers[..n]) else |line|)
      ensures sent == old(sent) + line[..k]
      ensures out.LineSent? <==> k == |line|
      ensures out.LineSent? && n > 0 ==> Total(answers[..n - 1]) < |line|
      ensures out.GaveUp? <==> n > 0 && (answers[n - 1].0.Broken? || (k < |line| && ReadEnds(answers[n - 1].1)))
      ensures out.Waiting? ==> n == |answers|
      ensures forall i :: 0 <= i < n - 1 ==> !answers[i].0.Broken? && !ReadEnds(answers[i].1)
      ensures received == old(received) + Data(answers[..if n > 0 && (answers[n - 1].0.Broken? || k == |line|) then n - 1 else n])
    {
      hide Total, Data;
      var toSend, sendFrom, i := |line|, 0, 0;
      NoneYet(answers);
      assert line[..0] == [];
      while toSend > 0
        invariant Valid() && 0 <= toSend && 0 <= sendFrom && toSend + sendFrom == |line| && i <= |answers|
        invariant sent == old(sent) + line[..sendFrom]
        invariant sendFrom == if Total(answers[..i]) < |line| then Total(answers[..i]) else |line|
        invariant toSend == 0 && i > 0 ==> Total(answers[..i - 1]) < |line| && !answers[i - 1].0.Broken?
        invariant toSend > 0 && i > 0 ==> !answers[i - 1].0.Broken? && !ReadEnds(answers[i - 1].1)
        invariant forall j :: 0 <= j < i - 1 ==> !answers[j].0.Broken? && !ReadEnds(answers[j].1)
        invariant received == old(received) + Data(answers[..if i > 0 && toSend == 0 then i - 1 else i])
        decreases |answers| - i
      {
        if i == |answers| {
          return Waiting, sendFrom, i;
        }
        var (w, r) := answers[i];
        OneMore(answers, i);
        i := i + 1;
        if w.Broken? {
          return GaveUp, sendFrom, i;
        }
        var lenSent := if w.TimedOut? then 0 else if w.count <= toSend then w.count else toSend;
        assert line[..sendFrom + lenSent] == line[..sendFrom] + line[sendFrom..sendFrom + lenSent];
        sent := sent + line[sendFrom..sendFrom + lenSent];
        toSend := toSend - lenSent;
        sendFrom := sendFrom + lenSent;
        totalSent := totalSent + lenSent;
        if toSend > 0 {
          var ok := ReadSomething(r);
          if !ok {
            return GaveUp, sendFrom, i;
          }
        }
      }
      return LineSent, sendFrom, i;
    }
  }
}
