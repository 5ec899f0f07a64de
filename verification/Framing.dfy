/** Packed numbers over TCP: the record encoder (nums-client.c) and the reassembly of records from a stream (nums-server.c). */
module Framing {
  import opened Bytes

  /** `sizeof(struct DataStructure)` when packed: two bytes of sequence number, four of number. */
  const RECORD: nat := 6

  datatype Report = Report(seqNo: nat, number: nat)

  /** An `int` as the 32-bit unsigned number it is converted to. */
  function Unsigned32(n: int): (r: nat)
    ensures r < TWO_32
    ensures (r - n) % 0x1_0000_0000 == 0
    ensures 0 <= n < TWO_32 ==> r == n
  {
    n % 0x1_0000_0000
  }

  /** The packed record: `htons(seq_no)` and `htonl(number)` copied from memory. */
  function Encode(order: HostOrder, seqNo: nat, number: int): (r: seq<u8>)
    ensures |r| == RECORD
  {
    Store(order, Hton(order, seqNo % 0x1_0000, 2), 2) + Store(order, Hton(order, Unsigned32(number), 4), 4)
  }

  /** What the server prints for a whole record: `ntohs` and `ntohl` of its fields. */
  function Decode(order: HostOrder, r: seq<u8>): Report
    requires |r| == RECORD
  {
    Report(Hton(order, Load(order, r[..2]), 2), Hton(order, Load(order, r[2..]), 4))
  }

  /** The record on the wire: sequence number, then number, each with its most significant byte first. */
  lemma RecordLayout(order: HostOrder, seqNo: nat, number: int)
    requires seqNo < TWO_16 && 0 <= number < TWO_32
    ensures var r := Encode(order, seqNo, number);
            && r[0] == seqNo / 0x100 && r[1] == seqNo % 0x100
            && r[2] == number / 0x100_0000 && r[3] == number / 0x1_0000 % 0x100
            && r[4] == number / 0x100 % 0x100 && r[5] == number % 0x100
  {
    hide Hton, Store, Unsigned32, Network;
    Powers();
    HtonStores(order, seqNo, 2);
    HtonStores(order, number, 4);
    NetworkBytes(seqNo, 2);
    NetworkBytes(number, 4);
    assert Pow256(1) == 256 && Pow256(3) == 0x100_0000 && Pow256(0) == 1;
    var r := Encode(order, seqNo, number);
    assert r == Network(seqNo, 2) + Network(number, 4);
  }

  /** What arrives of a record: its sequence number mod 2^16, and its number - itself if it fits in 32 bits without a
      sign, otherwise the one in that range congruent to it mod 2^32. */
  ghost predicate Arrives(report: Report, seqNo: nat, number: int) {
    && 0 <= report.seqNo < TWO_16 && (report.seqNo - seqNo) % 0x1_0000 == 0 && (seqNo < TWO_16 ==> report.seqNo == seqNo)
    && 0 <= report.number < TWO_32 && (report.number - number) % 0x1_0000_0000 == 0
    && (0 <= number < TWO_32 ==> report.number == number)
  }

  lemma RecordArrives(tx: HostOrder, rx: HostOrder, seqNo: nat, number: int)
    ensures Arrives(Decode(rx, Encode(tx, seqNo, number)), seqNo, number)
  {
    hide Encode, Decode, Unsigned32, Arrives;
    RecordRoundTrip(tx, rx, seqNo, number);
    ReportArrives(seqNo, number);
  }

  lemma RecordRoundTrip(tx: HostOrder, rx: HostOrder, seqNo: nat, number: int)
    ensures Decode(rx, Encode(tx, seqNo, number)) == Report(seqNo % 0x1_0000, Unsigned32(number))
  {
    hide Hton, Store, Load, Network, Unsigned32;
    Powers();
    var r := Encode(tx, seqNo, number);
    HtonStores(tx, seqNo % 0x1_0000, 2);
    HtonStores(tx, Unsigned32(number), 4);
    assert r[..2] == Network(seqNo % 0x1_0000, 2) && r[2..] == Network(Unsigned32(number), 4);
    NtohLoads(rx, seqNo % 0x1_0000, 2);
    NtohLoads(rx, Unsigned32(number), 4);
  }

  /** The bytes the client writes for its numbers, the first of them numbered `seqNo`. */
  function EncodeAll(order: HostOrder, nums: seq<int>, seqNo: nat): seq<u8> {
    if nums == [] then [] else Encode(order, seqNo, nums[0]) + EncodeAll(order, nums[1..], seqNo + 1)
  }

  /** The reports of all whole records in a stream; an incomplete one at the end is not reported. */
  function DecodeAll(order: HostOrder, stream: seq<u8>): seq<Report> {
    if |stream| < RECORD then [] else [Decode(order, stream[..RECORD])] + DecodeAll(order, stream[RECORD..])
  }

  function Concat(segments: seq<seq<u8>>): seq<u8> {
    if segments == [] then [] else segments[0] + Concat(segments[1..])
  }

  /** The client's loop over its input. */
  method SendNumbers(order: HostOrder, nums: seq<int>) returns (written: seq<u8>)
    ensures written == EncodeAll(order, nums, 0)
  {
    hide Encode;
    written := [];
    var seqNo := 0;
    while seqNo < |nums|
      invariant seqNo <= |nums|
      invariant written + EncodeAll(order, nums[seqNo..], seqNo) == EncodeAll(order, nums, 0)
    {
      assert nums[seqNo..][1..] == nums[seqNo + 1..];
      Assoc(written, Encode(order, seqNo, nums[seqNo]), EncodeAll(order, nums[seqNo + 1..], seqNo + 1));
      written := written + Encode(order, seqNo, nums[seqNo]);
      seqNo := seqNo + 1;
    }
  }

  /**
   * The server's loop over one connection. The stream arrives in the given segments; each `read` returns as much of the
   * first of them as the record still needs, so every way the stream can be cut into reads is one of these.
   */
  method Serve(order: HostOrder, segments: seq<seq<u8>>) returns (reports: seq<Report>)
    ensures reports == DecodeAll(order, Concat(segments))
  {
    hide Decode, DecodeAll, Concat;
    reports := [];
    var dataRead := new u8[RECORD];
    var prevLen: nat := 0;
    var pending := segments;
    assert dataRead[..0] + Concat(pending) == Concat(segments);
    while pending != []
      invariant prevLen < RECORD == dataRead.Length
      invariant reports + DecodeAll(order, dataRead[..prevLen] + Concat(pending)) == DecodeAll(order, Concat(segments))
      decreases |Concat(pending)|, |pending|
    {
      var arrived := pending[0];
      if arrived == [] {
        Take(pending, 0);
        pending := pending[1..];
      } else {
        ghost var before, still := dataRead[..prevLen], Concat(pending);
        var remains := RECORD - prevLen;
        var len := if |arrived| < remains then |arrived| else remains;
        ReadInto(dataRead, prevLen, arrived[..len]);
        Take(pending, len);
        pending := [arrived[len..]] + pending[1..];
        prevLen := prevLen + len;
        Assoc(before, arrived[..len], Concat(pending));
        if prevLen == RECORD {
          WholeRecord(order, dataRead[..], Concat(pending));
          assert dataRead[..prevLen] == dataRead[..];
          Assoc(reports, [Decode(order, dataRead[..])], DecodeAll(order, Concat(pending)));
          reports := reports + [Decode(order, dataRead[..])];
          prevLen := 0;
          assert dataRead[..prevLen] + Concat(pending) == Concat(pending);
        }
      }
    }
    NothingLeft(order, dataRead[..prevLen]);
  }

  /** `read` copies the bytes behind those already in the record. */
  method ReadInto(dataRead: array<u8>, prevLen: nat, bytes: seq<u8>)
    requires prevLen + |bytes| <= dataRead.Length
    modifies dataRead
    ensures dataRead[..prevLen + |bytes|] == old(dataRead[..prevLen]) + bytes
  {
    forall k | 0 <= k < |bytes| {
      dataRead[prevLen + k] := bytes[k];
    }
  }

  lemma NothingLeft(order: HostOrder, part: seq<u8>)
    requires |part| < RECORD
    ensures DecodeAll(order, part + Concat([])) == []
  {
  }

  lemma Take(segments: seq<seq<u8>>, len: nat)
    requires segments != [] && len <= |segments[0]|
    ensures Concat(segments) == segments[0][..len] + Concat([segments[0][len..]] + segments[1..])
    ensures segments[0] == [] ==> Concat(segments) == Concat(segments[1..])
  {
    var rest := [segments[0][len..]] + segments[1..];
    var tail := Concat(segments[1..]);
    assert rest[1..] == segments[1..];
    assert segments[0] == segments[0][..len] + segments[0][len..];
    Assoc(segments[0][..len], segments[0][len..], tail);
    if segments[0] == [] { assert [] + tail == tail; }
  }

  lemma WholeRecord(order: HostOrder, r: seq<u8>, rest: seq<u8>)
    requires |r| == RECORD
    ensures DecodeAll(order, r + rest) == [Decode(order, r)] + DecodeAll(order, rest)
  {
    assert (r + rest)[..RECORD] == r && (r + rest)[RECORD..] == rest;
  }

  // ---- What the server reports

  /** The numbers as the server should report them. */
  function Expected(nums: seq<int>, seqNo: nat): (r: seq<Report>)
    ensures |r| == |nums|
    ensures forall i :: 0 <= i < |nums| ==> r[i] == Report((seqNo + i) % 0x1_0000, Unsigned32(nums[i]))
  {
    if nums == [] then [] else [Report(seqNo % 0x1_0000, Unsigned32(nums[0]))] + Expected(nums[1..], seqNo + 1)
  }

  lemma {:induction false} StreamRoundTrip(tx: HostOrder, rx: HostOrder, nums: seq<int>, seqNo: nat)
    ensures DecodeAll(rx, EncodeAll(tx, nums, seqNo)) == Expected(nums, seqNo)
  {
    hide Encode, Decode;
    if nums != [] {
      RecordRoundTrip(tx, rx, seqNo, nums[0]);
      WholeRecord(rx, Encode(tx, seqNo, nums[0]), EncodeAll(tx, nums[1..], seqNo + 1));
      StreamRoundTrip(tx, rx, nums[1..], seqNo + 1);
    }
  }

  /** A stream cut short yields the reports of its whole records. */
  lemma {:induction false} DecodePrefix(order: HostOrder, stream: seq<u8>, m: nat)
    requires m <= |stream|
    ensures |DecodeAll(order, stream)| >= m / RECORD
    ensures DecodeAll(order, stream[..m]) == DecodeAll(order, stream)[..m / RECORD]
    decreases |stream|
  {
    hide Decode;
    if m >= RECORD {
      var r, rest := stream[..RECORD], stream[RECORD..];
      assert stream == r + rest && stream[..m] == r + rest[..m - RECORD];
      WholeRecord(order, r, rest);
      WholeRecord(order, r, rest[..m - RECORD]);
      DecodePrefix(order, rest, m - RECORD);
    }
  }

  /**
   * However TCP cuts the client's bytes into reads, and wherever the connection ends, the server reports the numbers
   * sent, with their sequence numbers, in order - one for every record that arrived whole, and nothing else.
   */
  lemma NumbersArrive(tx: HostOrder, rx: HostOrder, nums: seq<int>, segments: seq<seq<u8>>)
    requires Concat(segments) <= EncodeAll(tx, nums, 0)
    ensures var reports := DecodeAll(rx, Concat(segments));
            && |reports| == |Concat(segments)| / RECORD <= |nums|
            && forall i :: 0 <= i < |reports| ==> Arrives(reports[i], i, nums[i])
  {
    hide DecodeAll, EncodeAll, Concat, Unsigned32, Arrives;
    var all, n := EncodeAll(tx, nums, 0), |Concat(segments)|;
    StreamRoundTrip(tx, rx, nums, 0);
    EncodedLength(tx, nums, 0);
    DecodePrefix(rx, all, n);
    assert all[..n] == Concat(segments);
    forall i | 0 <= i < n / RECORD ensures Arrives(DecodeAll(rx, Concat(segments))[i], i, nums[i]) {
      ReportArrives(i, nums[i]);
    }
  }

  lemma {:induction false} EncodedLength(order: HostOrder, nums: seq<int>, seqNo: nat)
    ensures |EncodeAll(order, nums, seqNo)| == RECORD * |nums|
  {
    hide Encode;
    if nums != [] { EncodedLength(order, nums[1..], seqNo + 1); }
  }

  lemma ReportArrives(seqNo: nat, number: int)
    ensures Arrives(Report(seqNo % 0x1_0000, Unsigned32(number)), seqNo, number)
  {
  }
}
