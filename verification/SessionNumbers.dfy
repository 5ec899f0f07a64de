/** Session numbers: `htonl` of the start time, which the receiver compares to tell a newer session from an older one. */
module SessionNumbers {
  import opened Bytes

  /** `session_id = htonl((uint64_t) time(NULL))` on a host of the given order. */
  function SessionId(order: HostOrder, time: nat): nat {
    Hton(order, time % 0x1_0000_0000, 4)
  }

  lemma SessionFits(order: HostOrder, time: nat)
    ensures SessionId(order, time) < TWO_32
    ensures Store(order, SessionId(order, time), 4) == Network(time % 0x1_0000_0000, 4)
  {
    Powers();
    HtonStores(order, time % 0x1_0000_0000, 4);
  }

  lemma SessionsInjective(order: HostOrder, t: nat, u: nat)
    requires t < TWO_32 && u < TWO_32 && SessionId(order, t) == SessionId(order, u)
    ensures t == u
  {
    hide Hton, Store, Load, Network, SessionId;
    Powers();
    SessionFits(order, t);
    SessionFits(order, u);
    NtohLoads(order, t, 4);
    NtohLoads(order, u, 4);
  }

  /** Session numbers of different seconds differ, and only second 0 (mod 2^32) gets the reserved number 0. */
  lemma SessionsDiffer(order: HostOrder, t: nat, u: nat)
    requires t < TWO_32 && u < TWO_32
    ensures SessionId(order, t) == SessionId(order, u) <==> t == u
    ensures SessionId(order, t) == 0 <==> t == 0
  {
    hide SessionId;
    if SessionId(order, t) == SessionId(order, u) { SessionsInjective(order, t, u); }
    ZeroSession(order);
    if SessionId(order, t) == 0 { SessionsInjective(order, t, 0); }
  }

  /** The second in which a host of order `p` gets the session that a host of order `o` gets in second `t`. */
  function SeenAs(t: nat, o: HostOrder, p: HostOrder): nat {
    if o == p then t else SessionId(LittleEndian, t)
  }

  /** Hosts of one byte order get the same session exactly in the same second, those of different order exactly in
      seconds with each other's bytes reversed. */
  lemma SameSessionIff(o: HostOrder, t: nat, p: HostOrder, u: nat)
    requires t < TWO_32 && u < TWO_32
    ensures SessionId(o, t) == SessionId(p, u) <==> t == SeenAs(u, p, o)
  {
    hide SessionId;
    if o == p {
      SessionsDiffer(o, t, u);
    } else {
      SwappedTwice(t);
      SwappedTwice(u);
      BigEndianSession(t);
      BigEndianSession(u);
    }
  }

  lemma BigEndianSession(t: nat)
    requires t < TWO_32
    ensures SessionId(BigEndian, t) == t
  {
  }

  lemma SwappedTwice(t: nat)
    requires t < TWO_32
    ensures SessionId(LittleEndian, SessionId(LittleEndian, t)) == t
  {
    hide Hton, Load, Store, Network;
    Powers();
    HtonlStores(LittleEndian, t);
    LoadStore(LittleEndian, Hton(LittleEndian, t, 4), 4);
  }

  lemma ZeroSession(order: HostOrder)
    ensures SessionId(order, 0) == 0
  {
    if order.LittleEndian? { SwappedValue(0, 0, 0, 0, 0); }
  }

  /** A transmitter started later has the larger session number only on a big-endian host: elsewhere the bytes of the
      time are compared in reverse, and the receiver may take a newer session for an older one. */
  lemma NewerIsLargerIff(order: HostOrder)
    ensures (forall t: nat, u: nat :: t < u < TWO_32 ==> SessionId(order, t) < SessionId(order, u)) <==> order.BigEndian?
  {
    if order.LittleEndian? {
      SwappedValue(255, 255, 0, 0, 0);
      SwappedValue(256, 0, 1, 0, 0);
      assert SessionId(order, 255) > SessionId(order, 256);
    }
  }

  lemma SwappedValue(t: nat, b0: int, b1: int, b2: int, b3: int)
    requires t < TWO_32 && Digit(t, 0) == b0 && Digit(t, 1) == b1 && Digit(t, 2) == b2 && Digit(t, 3) == b3
    ensures SessionId(LittleEndian, t) == b3 + 256 * (b2 + 256 * (b1 + 256 * b0))
  {
    hide Digit, FromLittle;
    assert t % 0x1_0000_0000 == t;
    var b := ToLittle(t, 4);
    assert b == [Digit(t, 0), Digit(t, 1), Digit(t, 2), Digit(t, 3)];
    var r := Reverse(b);
    assert r == [Digit(t, 3), Digit(t, 2), Digit(t, 1), Digit(t, 0)];
    FourDigits(r);
  }

  lemma FourDigits(r: seq<u8>)
    requires |r| == 4
    ensures FromLittle(r) == r[0] as int + 256 * (r[1] as int + 256 * (r[2] as int + 256 * r[3] as int))
  {
    assert r[1..][1..] == r[2..] && r[2..][1..] == r[3..] && r[3..][1..] == [];
    assert FromLittle(r[3..]) == r[3];
    assert FromLittle(r[2..]) == r[2] + 256 * FromLittle(r[3..]);
    assert FromLittle(r[1..]) == r[1] + 256 * FromLittle(r[2..]);
  }
}
