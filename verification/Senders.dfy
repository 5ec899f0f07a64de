/** The transmitter (big3/nadajnik.cpp): its state and what each of its critical sections does to it. */
module Senders {
  import opened Bytes
  import opened Window
  import opened Fifos
  import opened Ordered
  import opened RequestText
  import opened Wire

  /** What the history records: a control datagram parsed, and a number looked up in the cache. */
  datatype Event = Asked(nums: set<nat>) | Looked(num: nat, sent: bool)

  /**
   * `stream` is everything multicast so far, so its length is `byte_num`; `pending` are the requests not yet picked up,
   * `batch` those being served.
   */
  datatype Sender = Sender(stream: seq<u8>, list: seq<Chunk>, pending: set<nat>, batch: set<nat>, log: seq<Event>)

  const IDLE := Sender([], [], {}, {}, [])

  /** A full read from standard input: numbered, multicast, cached. */
  function Transmit(s: Sender, data: seq<u8>, maxCount: nat): Sender {
    s.(stream := s.stream + data, list := Enqueue(s.list, Chunk(|s.stream|, data), maxCount))
  }

  /** A control datagram: its numbers join the pending requests. */
  function Ask(s: Sender, msg: string): Sender {
    s.(pending := s.pending + Requested(msg), log := s.log + [Asked(Requested(msg))])
  }

  /** The copy-and-clear under `mutex_requests`. */
  function Swap(s: Sender): Sender {
    s.(batch := s.pending, pending := {})
  }

  predicate Hit(list: seq<Chunk>, num: nat, psize: nat) {
    |Retrieve(list, num)| == psize
  }

  function Lookups(list: seq<Chunk>, nums: seq<nat>, psize: nat): (r: seq<Event>)
    ensures |r| == |nums|
    ensures forall i :: 0 <= i < |nums| ==> r[i] == Looked(nums[i], Hit(list, nums[i], psize))
  {
    if nums == [] then [] else [Looked(nums[0], Hit(list, nums[0], psize))] + Lookups(list, nums[1..], psize)
  }

  /** The datagrams multicast for the numbers that the cache still holds. */
  function Replays(order: HostOrder, session: nat, list: seq<Chunk>, nums: seq<nat>, psize: nat): seq<seq<u8>>
    requires session < TWO_64
  {
    if nums == [] then []
    else
      (if nums[0] < TWO_64 && Hit(list, nums[0], psize) then [Encode(order, session, nums[0], Retrieve(list, nums[0]))] else [])
      + Replays(order, session, list, nums[1..], psize)
  }

  /** The `for` loop of `replay_loop` over the copied requests, in ascending order. */
  ghost function Serve(s: Sender, psize: nat): Sender {
    s.(batch := {}, log := s.log + Lookups(s.list, Ascending(s.batch), psize))
  }

  lemma {:induction false} ReplaysAre(order: HostOrder, session: nat, list: seq<Chunk>, nums: seq<nat>, psize: nat, d: seq<u8>)
    requires session < TWO_64
    ensures d in Replays(order, session, list, nums, psize) <==>
            exists n :: n in nums && n < TWO_64 && Hit(list, n, psize) && d == Encode(order, session, n, Retrieve(list, n))
  {
    hide Encode, Retrieve;
    if nums != [] {
      ReplaysAre(order, session, list, nums[1..], psize, d);
      assert nums == [nums[0]] + nums[1..];
    }
  }

  class Transmitter {
    const order: HostOrder
    const session: nat
    const psize: nat
    const fifo: Fifo
    var byteNum: nat
    var requests: set<nat>
    var copied: set<nat>
    ghost var stream: seq<u8>
    ghost var log: seq<Event>

    ghost function Abs(): Sender
      reads this, fifo
    {
      Sender(stream, fifo.list, requests, copied, log)
    }

    ghost predicate Valid()
      reads this
    {
      && session < TWO_64 && psize > 0 && byteNum == |stream|
      && (forall n :: n in requests ==> n < TWO_64)
      && (forall n :: n in copied ==> n < TWO_64)
    }

    constructor (order: HostOrder, session: nat, psize: nat, fsize: nat)
      requires session < TWO_64 && psize > 0
      ensures Valid() && Abs() == IDLE && fresh(fifo)
      ensures this.order == order && this.session == session && this.psize == psize && fifo.maxCount == fsize / psize
    {
      this.order, this.session, this.psize := order, session, psize;
      fifo := new Fifo(fsize, psize);
      byteNum, requests, copied, stream, log := 0, {}, {}, [], [];
    }

    /** One turn of the loop in `main`: only a read of exactly `psize` bytes is numbered and multicast. */
    method Read(bytes: seq<u8>) returns (finish: bool, sent: seq<seq<u8>>)
      requires Valid() && byteNum < TWO_64
      modifies this`byteNum, this`stream, fifo
      ensures Valid() && finish == (bytes == [])
      ensures Abs() == if |bytes| == psize then Transmit(old(Abs()), bytes, fifo.maxCount) else old(Abs())
      ensures sent == if |bytes| == psize then [Encode(order, session, old(byteNum), bytes)] else []
    {
      finish, sent := bytes == [], [];
      if |bytes| == psize {
        sent := [Encode(order, session, byteNum, bytes)];
        fifo.AddToQueue(bytes, byteNum);
        byteNum := byteNum + psize;
        stream := stream + bytes;
      }
    }

    /** One turn of `ctrl_loop`. */
    method Control(msg: string)
      requires Valid()
      modifies this`requests, this`log
      ensures Valid() && Abs() == Ask(old(Abs()), msg)
      ensures (forall i :: !KeywordAt(msg, i)) || msg == LOOKUP ==> requests == old(requests)
    {
      hide ContainsKeyword, Tokens, ParsedNumbers;
      NothingContained(msg);
      if msg != LOOKUP && ContainsKeyword(msg) {
        var ptr := 0;
        while ptr < |msg| && msg[ptr] != ' '
          invariant ptr <= |msg| && AfterSpace(msg[ptr..]) == AfterSpace(msg)
        {
          ptr := ptr + 1;
        }
        RequestedFits(msg);
        assert (if ptr < |msg| then msg[ptr + 1..] else "") == AfterSpace(msg);
        requests := AddToSet(requests, if ptr < |msg| then msg[ptr + 1..] else "");
      }
      log := log + [Asked(Requested(msg))];
    }

    /** The first half of a turn of `replay_loop`. */
    method CopyAndClear()
      requires Valid()
      modifies this`requests, this`copied
      ensures Valid() && Abs() == Swap(old(Abs()))
    {
      copied := requests;
      requests := {};
    }

    /** The second half: each copied number is looked up once, smallest first, and sent if the cache has it. */
    method Replay() returns (sent: seq<seq<u8>>)
      requires Valid()
      modifies this`copied, this`log
      ensures Valid() && Abs() == Serve(old(Abs()), psize)
      ensures sent == Replays(order, session, fifo.list, Ascending(old(copied)), psize)
    {
      hide Ascending, Lookups, Replays, Encode;
      sent := [];
      assert Lookups(fifo.list, [], psize) == [] && Replays(order, session, fifo.list, [], psize) == [] by {
        NothingLooked(order, session, fifo.list, psize);
      }
      ghost var all, done := Ascending(copied), [];
      while copied != {}
        invariant all == done + Ascending(copied) && Valid()
        invariant log == old(log) + Lookups(fifo.list, done, psize)
        invariant sent == Replays(order, session, fifo.list, done, psize)
        decreases copied
      {
        var temp := TakeSmallest(copied);
        AscendingStep(done, copied);
        LookupsAppend(fifo.list, done, temp, psize);
        ReplaysAppend(order, session, fifo.list, done, temp, psize);
        var audioData := fifo.RetrieveData(temp);
        if |audioData| == psize {
          sent := sent + [Encode(order, session, temp, audioData)];
        }
        log := log + [Looked(temp, |audioData| == psize)];
        done := done + [temp];
        copied := copied - {temp};
      }
      assert Ascending({}) == [] by { NothingAscending(); }
      assert done == all;
    }
  }

  lemma NothingContained(msg: string)
    ensures (forall i :: !KeywordAt(msg, i)) ==> !ContainsKeyword(msg)
  {
  }

  lemma NothingLooked(order: HostOrder, session: nat, list: seq<Chunk>, psize: nat)
    requires session < TWO_64
    ensures Lookups(list, [], psize) == [] && Replays(order, session, list, [], psize) == []
  {
  }

  lemma RequestedFits(msg: string)
    ensures forall n :: n in Requested(msg) ==> n < TWO_63
  {
    ParsedFits(Tokens(AfterSpace(msg)));
  }

  lemma {:induction false} ParsedFits(ts: seq<string>)
    ensures forall n :: n in ParsedNumbers(ts) ==> n < TWO_63
  {
    if ts != [] { ParsedFits(ts[1..]); }
  }

  lemma {:induction false} LookupsAppend(list: seq<Chunk>, nums: seq<nat>, n: nat, psize: nat)
    ensures Lookups(list, nums + [n], psize) == Lookups(list, nums, psize) + [Looked(n, Hit(list, n, psize))]
  {
  }

  lemma {:induction false} ReplaysAppend(order: HostOrder, session: nat, list: seq<Chunk>, nums: seq<nat>, n: nat, psize: nat)
    requires session < TWO_64 && n < TWO_64
    ensures Replays(order, session, list, nums + [n], psize) ==
            Replays(order, session, list, nums, psize)
            + (if Hit(list, n, psize) then [Encode(order, session, n, Retrieve(list, n))] else [])
  {
    hide Encode, Retrieve;
    if nums == [] {
      assert ([n])[1..] == [];
    } else {
      assert (nums + [n])[1..] == nums[1..] + [n];
      ReplaysAppend(order, session, list, nums[1..], n, psize);
    }
  }
}
