/** Bytes, machine words and the byte order in which a host keeps them. */
module Bytes {
  type u8 = x: int | 0 <= x < 256

  const TWO_16: nat := 0x1_0000
  const TWO_32: nat := 0x1_0000_0000
  const TWO_63: nat := 0x8000_0000_0000_0000
  const TWO_64: nat := 0x1_0000_0000_0000_0000

  /** Subtraction of two `uint64_t` values: it wraps below zero. */
  function Sub64(a: nat, b: nat): nat
    requires a < TWO_64 && b < TWO_64
  {
    if b <= a then a - b else a + TWO_64 - b
  }

  /** Addition of two `uint64_t` values: it wraps at 2^64. */
  function Add64(a: nat, b: nat): nat
    requires a < TWO_64 && b < TWO_64
  {
    if a + b < TWO_64 then a + b else a + b - TWO_64
  }

  datatype HostOrder = LittleEndian | BigEndian

  function Pow256(n: nat): (p: nat)
    ensures p > 0
  {
    if n == 0 then 1 else 256 * Pow256(n - 1)
  }

  /** The `i`-th byte of `x`, counted from the least significant one. */
  function Digit(x: nat, i: nat): u8 {
    if i == 0 then x % 256 else Digit(x / 256, i - 1)
  }

  /** The low `n` bytes of `x`, least significant first. */
  function ToLittle(x: nat, n: nat): (b: seq<u8>)
    ensures |b| == n
  {
    seq(n, i requires i >= 0 => Digit(x, i))
  }

  function FromLittle(b: seq<u8>): nat {
    if b == [] then 0 else b[0] + 256 * FromLittle(b[1..])
  }

  function Reverse<T>(s: seq<T>): (r: seq<T>)
    ensures |r| == |s|
    ensures forall i :: 0 <= i < |s| ==> r[i] == s[|s| - 1 - i]
  {
    if s == [] then [] else Reverse(s[1..]) + [s[0]]
  }

  /** What `memcpy` of an `n`-byte integer variable writes to memory on a host of the given order. */
  function Store(order: HostOrder, x: nat, n: nat): (b: seq<u8>)
    ensures |b| == n
  {
    if order.LittleEndian? then ToLittle(x, n) else Reverse(ToLittle(x, n))
  }

  /** What a host of the given order reads when it treats `b` as an integer variable. */
  function Load(order: HostOrder, b: seq<u8>): nat {
    if order.LittleEndian? then FromLittle(b) else FromLittle(Reverse(b))
  }

  /** Network byte order: the most significant byte first. */
  function Network(x: nat, n: nat): (b: seq<u8>)
    ensures |b| == n
  {
    Store(BigEndian, x, n)
  }

  /** `htons` and `htonl` (`n` is 2 or 4); the same functions serve as `ntohs` and `ntohl`. */
  function Hton(order: HostOrder, x: nat, n: nat): nat {
    if order.BigEndian? then x else Load(BigEndian, Store(LittleEndian, x, n))
  }

  /** The macro `htonll`, built on two `htonl` calls that swap places on a little-endian host. */
  function Htonll(order: HostOrder, x: nat): nat
    requires x < TWO_64
  {
    if Hton(order, 1, 4) == 1 then x
    else Hton(order, x % 0x1_0000_0000, 4) * 0x1_0000_0000 + Hton(order, x / 0x1_0000_0000, 4)
  }

  lemma {:induction false} LittleRoundTrip(x: nat, n: nat)
    ensures FromLittle(ToLittle(x, n)) == x % Pow256(n)
  {
    if n > 0 {
      LittleRoundTrip(x / 256, n - 1);
      var p := Pow256(n - 1);
      assert ToLittle(x, n)[1..] == ToLittle(x / 256, n - 1);
      ModSplit(x, p);
    }
  }

  lemma ModSplit(x: nat, p: nat)
    requires p > 0
    ensures x % (256 * p) == x % 256 + 256 * ((x / 256) % p)
  {
    var h, l := x / 256, x % 256;
    var q, m := h / p, h % p;
    assert x == (256 * p) * q + (256 * m + l) by {
      assert h == p * q + m;
      assert 256 * (p * q) == (256 * p) * q;
    }
    assert 256 * m + l < 256 * p;
    ModUnique(x, 256 * p, q, 256 * m + l);
  }

  lemma ModUnique(x: nat, d: nat, q: nat, r: nat)
    requires d > 0 && x == d * q + r && r < d
    ensures x / d == q && x % d == r
  {
    var q', r' := x / d, x % d;
    if q < q' {
      MulGap(d, q, q');
    } else if q' < q {
      MulGap(d, q', q);
    }
  }

  lemma MulGap(d: nat, q: nat, q': nat)
    requires q < q'
    ensures d * q + d <= d * q'
  {
    assert d * q' == d * q + d * (q' - q);
    assert d * (q' - q) == d + d * (q' - q - 1);
  }

  lemma MulMono(d: nat, q: nat, q': nat)
    requires q <= q'
    ensures d * q <= d * q'
  {
    assert d * q' == d * q + d * (q' - q);
  }

  lemma {:induction false} BytesRoundTrip(b: seq<u8>)
    ensures FromLittle(b) < Pow256(|b|)
    ensures ToLittle(FromLittle(b), |b|) == b
  {
    if b != [] {
      BytesRoundTrip(b[1..]);
      var r := FromLittle(b[1..]);
      assert FromLittle(b) % 256 == b[0] && FromLittle(b) / 256 == r;
    }
  }

  lemma Assoc<T>(a: seq<T>, b: seq<T>, c: seq<T>)
    ensures a + (b + c) == (a + b) + c
  {
  }

  lemma ReverseTwice<T>(s: seq<T>)
    ensures Reverse(Reverse(s)) == s
  {
  }

  lemma Powers()
    ensures Pow256(2) == TWO_16 && Pow256(4) == TWO_32 && Pow256(8) == TWO_64
  {
    assert Pow256(1) == 256 * Pow256(0);
    assert Pow256(3) == 256 * Pow256(2);
    assert Pow256(5) == 256 * Pow256(4);
    assert Pow256(6) == 256 * Pow256(5);
    assert Pow256(7) == 256 * Pow256(6);
  }

  lemma {:induction false} DigitIs(x: nat, i: nat)
    ensures Digit(x, i) == x / Pow256(i) % 256
  {
    if i > 0 {
      DigitIs(x / 256, i - 1);
      DivTwice(x, Pow256(i - 1));
    }
  }

  lemma DivTwice(x: nat, p: nat)
    requires p > 0
    ensures x / (256 * p) == x / 256 / p
  {
    var y, q := x / 256, x / 256 / p;
    var r := y % p;
    assert y == p * q + r;
    assert x == 256 * y + x % 256;
    MulAssoc(256, p, q);
    ModUnique(x, 256 * p, q, 256 * r + x % 256);
  }

  /** In network order the `i`-th byte is the `i`-th most significant one. */
  lemma NetworkBytes(x: nat, n: nat)
    ensures forall i :: 0 <= i < n ==> Network(x, n)[i] == x / Pow256(n - 1 - i) % 256
  {
    forall i | 0 <= i < n ensures Network(x, n)[i] == x / Pow256(n - 1 - i) % 256 {
      DigitIs(x, n - 1 - i);
    }
  }

  /** A host reads back what it stored. */
  lemma LoadStore(order: HostOrder, x: nat, n: nat)
    ensures Load(order, Store(order, x, n)) == x % Pow256(n)
  {
    LittleRoundTrip(x, n);
    ReverseTwice(ToLittle(x, n));
  }

  /** `htons`/`htonl` put the number in network order, whatever the host order. */
  lemma HtonStores(order: HostOrder, x: nat, n: nat)
    requires x < Pow256(n)
    ensures Hton(order, x, n) < Pow256(n)
    ensures Store(order, Hton(order, x, n), n) == Network(x, n)
  {
    if order.LittleEndian? {
      BytesRoundTrip(Reverse(ToLittle(x, n)));
    }
  }

  /** `ntohs`/`ntohl` undo `htons`/`htonl` even between hosts of different order. */
  lemma NtohLoads(order: HostOrder, x: nat, n: nat)
    requires x < Pow256(n)
    ensures Hton(order, Load(order, Network(x, n)), n) == x
  {
    var l := ToLittle(x, n);
    ReverseTwice(l);
    assert FromLittle(l) == x by {
      LittleRoundTrip(x, n);
      ModUnique(x, Pow256(n), 0, x);
    }
    if order.LittleEndian? {
      BytesRoundTrip(Reverse(l));
    }
  }

  lemma {:induction false} DigitSplit(x: nat, y: nat, m: nat, i: nat)
    requires x < Pow256(m)
    ensures Digit(x + Pow256(m) * y, i) == if i < m then Digit(x, i) else Digit(y, i - m)
  {
    if m > 0 {
      var p := Pow256(m - 1);
      var z := x + Pow256(m) * y;
      MulAssoc(256, p, y);
      assert z % 256 == x % 256 && z / 256 == x / 256 + p * y;
      if i > 0 {
        DigitSplit(x / 256, y, m - 1, i - 1);
      }
    }
  }

  lemma ToLittleSplit(x: nat, y: nat, m: nat, n: nat)
    requires x < Pow256(m)
    ensures ToLittle(x + Pow256(m) * y, m + n) == ToLittle(x, m) + ToLittle(y, n)
  {
    forall i | 0 <= i < m + n
      ensures ToLittle(x + Pow256(m) * y, m + n)[i] == (ToLittle(x, m) + ToLittle(y, n))[i]
    {
      DigitSplit(x, y, m, i);
    }
  }

  lemma ReverseConcat<T>(a: seq<T>, b: seq<T>)
    ensures Reverse(a + b) == Reverse(b) + Reverse(a)
  {
  }

  lemma HtonOfOne(order: HostOrder)
    ensures Hton(order, 1, 4) == 1 <==> order.BigEndian?
  {
    if order.LittleEndian? {
      var b := ToLittle(1, 4);
      assert ToLittle(1, 4) == [1] + ToLittle(0, 3);
      assert ToLittle(0, 3) == [0] + ToLittle(0, 2);
      assert ToLittle(0, 2) == [0] + ToLittle(0, 1);
      assert ToLittle(0, 1) == [0];
      var r := Reverse(b);
      assert r == [0, 0, 0, 1];
      assert FromLittle(r) == 0 + 256 * FromLittle([0, 0, 1]) by { assert r[1..] == [0, 0, 1]; }
      assert FromLittle([0, 0, 1]) == 256 * FromLittle([0, 1]) by { assert [0, 0, 1][1..] == [0, 1]; }
      assert FromLittle([0, 1]) == 256 * FromLittle([1]) by { assert [0, 1][1..] == [1]; }
      assert FromLittle([1]) == 1;
    }
  }

  lemma JoinHalves(lo: nat, hi: nat)
    requires lo < TWO_32 && hi < TWO_32
    ensures lo + 0x1_0000_0000 * hi < TWO_64
    ensures ToLittle(lo + 0x1_0000_0000 * hi, 8) == ToLittle(lo, 4) + ToLittle(hi, 4)
  {
    Powers();
    ToLittleSplit(lo, hi, 4, 4);
  }

  lemma NetworkSplit(lo: nat, hi: nat)
    requires lo < TWO_32 && hi < TWO_32
    ensures Network(lo + 0x1_0000_0000 * hi, 8) == Network(hi, 4) + Network(lo, 4)
  {
    JoinHalves(lo, hi);
    ReverseConcat(ToLittle(lo, 4), ToLittle(hi, 4));
  }

  lemma HtonlStores(order: HostOrder, x: nat)
    requires x < TWO_32
    ensures Hton(order, x, 4) < TWO_32
    ensures Store(order, Hton(order, x, 4), 4) == Network(x, 4)
    ensures FromLittle(Network(x, 4)) < TWO_32
    ensures Hton(order, Load(order, Network(x, 4)), 4) == x
  {
    Powers();
    HtonStores(order, x, 4);
    NtohLoads(order, x, 4);
    BytesRoundTrip(Network(x, 4));
  }

  /** The macro stores the number in network order on a host of either order. */
  lemma HtonllStores(order: HostOrder, x: nat)
    requires x < TWO_64
    ensures Htonll(order, x) < TWO_64
    ensures Store(order, Htonll(order, x), 8) == Network(x, 8)
  {
    hide Digit, FromLittle;
    HtonOfOne(order);
    if order.LittleEndian? {
      var lo, hi := x % 0x1_0000_0000, x / 0x1_0000_0000;
      HtonlStores(order, lo);
      HtonlStores(order, hi);
      JoinHalves(Hton(order, hi, 4), Hton(order, lo, 4));
      NetworkSplit(lo, hi);
    }
  }

  /** `ntohll` at a receiver of any order recovers what `htonll` sent from a host of any order. */
  lemma NtohllLoads(order: HostOrder, x: nat)
    requires x < TWO_64
    ensures Load(order, Network(x, 8)) < TWO_64
    ensures Htonll(order, Load(order, Network(x, 8))) == x
  {
    hide Digit, FromLittle, Network;
    if order.BigEndian? {
      LoadNetwork(x);
      HtonOfOne(order);
    } else {
      SwappedLoad(x % 0x1_0000_0000, x / 0x1_0000_0000);
      SwapsBack(x % 0x1_0000_0000, x / 0x1_0000_0000);
    }
  }

  lemma LoadNetwork(x: nat)
    requires x < TWO_64
    ensures Load(BigEndian, Network(x, 8)) == x
  {
    Powers();
    LoadStore(BigEndian, x, 8);
    ModUnique(x, TWO_64, 0, x);
  }

  lemma SwapsBack(lo: nat, hi: nat)
    requires lo < TWO_32 && hi < TWO_32
    ensures var y := FromLittle(Network(hi, 4)) + 0x1_0000_0000 * FromLittle(Network(lo, 4));
            y < TWO_64 && Htonll(LittleEndian, y) == lo + 0x1_0000_0000 * hi
  {
    hide FromLittle, Network, Hton, Htonll;
    HtonlStores(LittleEndian, hi);
    HtonlStores(LittleEndian, lo);
    HtonllOfHalves(FromLittle(Network(hi, 4)), FromLittle(Network(lo, 4)));
  }

  lemma HtonllOfHalves(a: nat, b: nat)
    requires a < TWO_32 && b < TWO_32
    ensures a + 0x1_0000_0000 * b < TWO_64
    ensures Htonll(LittleEndian, a + 0x1_0000_0000 * b) ==
            Hton(LittleEndian, a, 4) * 0x1_0000_0000 + Hton(LittleEndian, b, 4)
  {
    var x := a + 0x1_0000_0000 * b;
    assert x % 0x1_0000_0000 == a && x / 0x1_0000_0000 == b;
    HtonOfOne(LittleEndian);
  }

  lemma SwappedLoad(lo: nat, hi: nat)
    requires lo < TWO_32 && hi < TWO_32
    ensures FromLittle(Network(lo + 0x1_0000_0000 * hi, 8)) ==
            FromLittle(Network(hi, 4)) + 0x1_0000_0000 * FromLittle(Network(lo, 4))
  {
    Powers();
    NetworkSplit(lo, hi);
    FromLittleSplit(Network(hi, 4), Network(lo, 4));
  }

  lemma {:induction false} FromLittleSplit(a: seq<u8>, b: seq<u8>)
    ensures FromLittle(a + b) == FromLittle(a) + Pow256(|a|) * FromLittle(b)
  {
    if a == [] {
      assert a + b == b;
    } else {
      assert (a + b)[1..] == a[1..] + b;
      FromLittleSplit(a[1..], b);
      MulAssoc(256, Pow256(|a| - 1), FromLittle(b));
    }
  }

  lemma MulAssoc(a: int, b: int, c: int)
    ensures a * b * c == a * (b * c)
  {
  }
}
