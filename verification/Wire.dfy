/** The audio datagram: session, number of the first byte, data (big3/nadajnik.cpp, `send_Mcast`; big3/odbiornik.cpp, `data_loop`). */
module Wire {
  import opened Bytes

  const HEADER: nat := 16

  /** `send_Mcast`: two `htonll` words copied from memory, then the audio bytes. */
  function Encode(order: HostOrder, session: nat, num: nat, data: seq<u8>): (d: seq<u8>)
    requires session < TWO_64 && num < TWO_64
    ensures |d| == HEADER + |data|
  {
    HtonllStores(order, session);
    HtonllStores(order, num);
    Store(order, Htonll(order, session), 8) + Store(order, Htonll(order, num), 8) + data
  }

  /** `ntohll` of an eight-byte field read in place. */
  function Field(order: HostOrder, b: seq<u8>): nat
    requires |b| == 8
  {
    LoadFits(order, b);
    Htonll(order, Load(order, b))
  }

  function SessionOf(order: HostOrder, d: seq<u8>): nat
    requires |d| >= HEADER
  {
    Field(order, d[..8])
  }

  function NumOf(order: HostOrder, d: seq<u8>): nat
    requires |d| >= HEADER
  {
    Field(order, d[8..16])
  }

  function DataOf(d: seq<u8>): seq<u8>
    requires |d| >= HEADER
  {
    d[16..]
  }

  lemma LoadFits(order: HostOrder, b: seq<u8>)
    requires |b| == 8
    ensures Load(order, b) < TWO_64
  {
    Powers();
    BytesRoundTrip(b);
    BytesRoundTrip(Reverse(b));
  }

  /** What a receiver of any byte order reads is what a transmitter of any byte order wrote. */
  lemma DatagramRoundTrip(tx: HostOrder, rx: HostOrder, session: nat, num: nat, data: seq<u8>)
    requires session < TWO_64 && num < TWO_64
    ensures var d := Encode(tx, session, num, data);
            SessionOf(rx, d) == session && NumOf(rx, d) == num && DataOf(d) == data
  {
    hide Htonll, Store, Load, Network;
    var d := Encode(tx, session, num, data);
    HtonllStores(tx, session);
    HtonllStores(tx, num);
    assert d[..8] == Network(session, 8) && d[8..16] == Network(num, 8);
    NtohllLoads(rx, session);
    NtohllLoads(rx, num);
  }

  /** The datagram on the wire, whatever the host: eight bytes of session and eight of number, each with its most
      significant byte first, then the data. */
  lemma DatagramLayout(order: HostOrder, session: nat, num: nat, data: seq<u8>)
    requires session < TWO_64 && num < TWO_64
    ensures var d := Encode(order, session, num, data);
            && d[16..] == data
            && (forall i :: 0 <= i < 8 ==> d[i] == session / Pow256(7 - i) % 256)
            && (forall i :: 0 <= i < 8 ==> d[8..16][i] == num / Pow256(7 - i) % 256)
  {
    hide Htonll, Store, Network;
    HtonllStores(order, session);
    HtonllStores(order, num);
    NetworkBytes(session, 8);
    NetworkBytes(num, 8);
    assert Encode(order, session, num, data) == Network(session, 8) + Network(num, 8) + data;
  }
}
