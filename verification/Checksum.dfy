/** The Internet checksum (`in_cksum`, RFC 1071) in a signed 32-bit accumulator, on hosts of either byte order. */
module Checksum {
  import opened Bytes

  const INT_MAX: int := 0x7fff_ffff

  /** A 16-bit word as the host reads it from memory. */
  function Word(order: HostOrder, b0: u8, b1: u8): (w: nat)
    ensures w < 0x1_0000
  {
    if order.LittleEndian? then b0 + 256 * b1 else 256 * b0 + b1
  }

  /** The two bytes a host writes when it stores a 16-bit word. */
  function WordBytes(order: HostOrder, w: nat): (b: seq<u8>)
    requires w < 0x1_0000
    ensures |b| == 2
  {
    if order.LittleEndian? then [w % 256, w / 256] else [w / 256, w % 256]
  }

  /** The sum of the words of a packet; an odd byte at the end counts as a word whose other byte is zero. */
  function Sum(order: HostOrder, p: seq<u8>): nat {
    if p == [] then 0
    else if |p| == 1 then Word(order, p[0], 0)
    else Word(order, p[0], p[1]) + Sum(order, p[2..])
  }

  /** The ones' complement sum: 0 for the zero sum, otherwise the residue mod 65535 in 1..65535. */
  function Ones(s: nat): (r: nat)
    ensures r < 0x1_0000
  {
    if s == 0 then 0 else (s - 1) % 65535 + 1
  }

  /** What `in_cksum` is meant to return: the complement of the ones' complement sum. */
  function Cksum(order: HostOrder, p: seq<u8>): (r: nat)
    ensures r < 0x1_0000
  {
    0xffff - Ones(Sum(order, p))
  }

  // ---- The loop and the folds

  /**
   * `in_cksum`. As long as the sum of the words is an `int` - always so for up to 65536 bytes, see `SumBound` - no
   * addition overflows, the two folds suffice, and the sixteen bits kept are the complement of the ones' complement sum.
   */
  method InCksum(order: HostOrder, addr: seq<u8>) returns (answer: nat)
    requires Sum(order, addr) <= INT_MAX
    ensures answer == Cksum(order, addr)
  {
    var nleft, sum, w := |addr|, 0, 0;
    while nleft > 1
      invariant 0 <= nleft && w + nleft == |addr|
      invariant 0 <= sum && sum + Sum(order, addr[w..]) == Sum(order, addr)
    {
      sum := Plus32(sum, Word(order, addr[w], addr[w + 1]));
      assert addr[w..][2..] == addr[w + 2..];
      w := w + 2;
      nleft := nleft - 2;
    }
    if nleft == 1 {
      sum := Plus32(sum, Word(order, addr[w], 0));
    }
    assert sum == Sum(order, addr);
    FoldsSuffice(sum);
    sum := Plus32(sum / 0x1_0000, sum % 0x1_0000);
    sum := Plus32(sum, sum / 0x1_0000);
    answer := (0xffff - sum) % 0x1_0000;
  }

  /** Addition of two non-negative `int`s: defined only without overflow. */
  function Plus32(a: int, b: int): (r: int)
    requires 0 <= a && 0 <= b && a + b <= INT_MAX
    ensures r == a + b
  {
    a + b
  }

  lemma {:induction false} SumBound(order: HostOrder, p: seq<u8>)
    ensures Sum(order, p) <= (|p| + 1) / 2 * 0xffff
    ensures |p| <= 0x1_0000 ==> Sum(order, p) <= INT_MAX
  {
    if |p| >= 2 {
      SumBound(order, p[2..]);
      assert (|p| + 1) / 2 == (|p[2..]| + 1) / 2 + 1;
    }
  }

  /** The bound is tight: two bytes more and the accumulator can overflow. */
  lemma {:induction false} AllOnes(order: HostOrder, n: nat)
    ensures Sum(order, seq(2 * n, i => 0xff)) == n * 0xffff
  {
    if n > 0 {
      var p: seq<u8> := seq(2 * n, i => 0xff);
      assert p[2..] == seq(2 * (n - 1), i => 0xff);
      AllOnes(order, n - 1);
    }
  }

  lemma OverflowAboveBound(order: HostOrder)
    ensures Sum(order, seq(0x1_0000, i => 0xff)) <= INT_MAX < Sum(order, seq(0x1_0002, i => 0xff))
  {
    AllOnes(order, 0x8000);
    AllOnes(order, 0x8001);
  }

  /** Two folds leave the ones' complement sum in the low sixteen bits, whatever a 31-bit sum was. */
  lemma FoldsSuffice(sum: nat)
    requires sum <= INT_MAX
    ensures var s1 := sum / 0x1_0000 + sum % 0x1_0000;
            var s2 := s1 + s1 / 0x1_0000;
            && s2 <= INT_MAX
            && (0xffff - s2) % 0x1_0000 == 0xffff - Ones(sum)
  {
    var h, l := sum / 0x1_0000, sum % 0x1_0000;
    var s1 := h + l;
    assert sum == 65535 * h + s1;
    OnesUnique(sum, h, s1);
  }

  /** Adding a multiple of 65535 to a positive number does not change its ones' complement sum. */
  lemma OnesUnique(s: nat, h: nat, t: nat)
    requires s == 65535 * h + t && (t > 0 || h == 0)
    ensures Ones(s) == Ones(t)
  {
    if t > 0 {
      var q, r := (t - 1) / 65535, (t - 1) % 65535;
      ModUnique(s - 1, 65535, h + q, r);
    }
  }

  // ---- Section 1 of RFC 1071: a checksummed packet verifies

  /** Zero exactly for a positive sum that is a multiple of 65535. */
  lemma OnesFull(s: nat)
    ensures Ones(s) == 0xffff <==> s > 0 && s % 65535 == 0
    ensures Ones(s) == 0 <==> s == 0
    ensures Ones(s) % 65535 == s % 65535
  {
    if s > 0 {
      var q, r := (s - 1) / 65535, (s - 1) % 65535;
      assert s == 65535 * q + r + 1;
      if r == 65534 {
        ModUnique(s, 65535, q + 1, 0);
      } else {
        ModUnique(s, 65535, q, r + 1);
      }
    }
  }

  /** The packet with the two bytes at offset `f` replaced. */
  function Write(p: seq<u8>, f: nat, b: seq<u8>): (r: seq<u8>)
    requires |b| == 2 && f + 2 <= |p|
    ensures |r| == |p|
  {
    p[..f] + b + p[f + 2..]
  }

  /** Writing an aligned word changes the sum by the difference of the words. */
  lemma {:induction false} SumWrite(order: HostOrder, p: seq<u8>, f: nat, b: seq<u8>)
    requires |b| == 2 && f + 2 <= |p| && f % 2 == 0
    ensures Sum(order, Write(p, f, b)) + Word(order, p[f], p[f + 1]) == Sum(order, p) + Word(order, b[0], b[1])
  {
    var r := Write(p, f, b);
    if f == 0 {
      assert r[2..] == p[2..];
    } else {
      assert r[2..] == Write(p[2..], f - 2, b);
      SumWrite(order, p[2..], f - 2, b);
    }
  }

  lemma WordRoundTrip(order: HostOrder, w: nat)
    requires w < 0x1_0000
    ensures Word(order, WordBytes(order, w)[0], WordBytes(order, w)[1]) == w
  {
  }

  /** A packet checks out - its own checksum is 0 - exactly when its sum is a positive multiple of 65535. */
  lemma VerifiesIff(order: HostOrder, p: seq<u8>)
    ensures Cksum(order, p) == 0 <==> Sum(order, p) > 0 && Sum(order, p) % 65535 == 0
  {
    OnesFull(Sum(order, p));
  }

  /** Writing the checksum of a packet with a zeroed, aligned checksum field into that field makes the packet check out. */
  lemma ChecksummedVerifies(order: HostOrder, p: seq<u8>, f: nat)
    requires f % 2 == 0 && f + 2 <= |p|
    ensures var zeroed := Write(p, f, [0, 0]);
            Cksum(order, Write(zeroed, f, WordBytes(order, Cksum(order, zeroed)))) == 0
  {
    var z := Write(p, f, [0, 0]);
    var c := Cksum(order, z);
    var q := Write(z, f, WordBytes(order, c));
    SumWrite(order, z, f, WordBytes(order, c));
    WordRoundTrip(order, c);
    assert Sum(order, q) == Sum(order, z) + c;
    OnesFull(Sum(order, z));
    SumsToMultiple(Sum(order, z));
    VerifiesIff(order, q);
  }

  lemma SumsToMultiple(s: nat)
    ensures var t := s + 0xffff - Ones(s); t > 0 && t % 65535 == 0
  {
    OnesFull(s);
    var q, r := s / 65535, s % 65535;
    var o := Ones(s);
    var q', r' := o / 65535, o % 65535;
    assert s == 65535 * q + r && o == 65535 * q' + r';
    ModUnique(s + 0xffff - o, 65535, q + 1 - q', 0);
  }

  /** The two words that ones' complement arithmetic cannot tell apart. */
  predicate BothZero(a: nat, b: nat) {
    (a == 0 && b == 0xffff) || (a == 0xffff && b == 0)
  }

  /** Changing one aligned word of a packet that checks out goes unnoticed exactly if it exchanges 0 and 0xffff
      (and does not leave the packet all zero). */
  lemma WordChangeUnnoticedIff(order: HostOrder, p: seq<u8>, f: nat, b: seq<u8>)
    requires f % 2 == 0 && f + 2 <= |p| && |b| == 2 && Cksum(order, p) == 0
    ensures var was, w, q := Word(order, p[f], p[f + 1]), Word(order, b[0], b[1]), Write(p, f, b);
            Cksum(order, q) == 0 <==> w == was || (BothZero(w, was) && Sum(order, q) > 0)
  {
    hide Sum, Word, Cksum, Write, BothZero;
    SumWrite(order, p, f, b);
    VerifiesIff(order, p);
    VerifiesIff(order, Write(p, f, b));
    SameResidue(Sum(order, p), Word(order, p[f], p[f + 1]), Word(order, b[0], b[1]), Sum(order, Write(p, f, b)));
  }

  lemma SameResidue(s: nat, was: nat, w: nat, t: nat)
    requires s % 65535 == 0 && t + was == s + w && was < 0x1_0000 && w < 0x1_0000
    ensures t % 65535 == 0 <==> (w == was || BothZero(w, was))
  {
    var q := s / 65535;
    assert s == 65535 * q;
    if w == was {
    } else if was == 0 && w == 0xffff {
      ModUnique(t, 65535, q + 1, 0);
    } else if was == 0xffff && w == 0 {
      ModUnique(t, 65535, q - 1, 0);
    } else if w > was {
      ModUnique(t, 65535, q, w - was);
    } else {
      ModUnique(t, 65535, q - 1, 65535 + w - was);
    }
  }

  // ---- Section 2(B) of RFC 1071: byte-order independence

  function SwapPairs(p: seq<u8>): (r: seq<u8>)
    ensures |r| == (|p| + 1) / 2 * 2
  {
    if p == [] then [] else if |p| == 1 then [0, p[0]] else [p[1], p[0]] + SwapPairs(p[2..])
  }

  function SwapWord(w: nat): (r: nat)
    requires w < 0x1_0000
    ensures r < 0x1_0000
  {
    w % 256 * 256 + w / 256
  }

  /** Swapping the bytes of a word multiplies it by 256, mod 65535. */
  lemma SwapIsTimes256(w: nat)
    requires w < 0x1_0000
    ensures 256 * w == 65535 * (w / 256) + SwapWord(w)
    ensures SwapWord(w) == 0 <==> w == 0
  {
  }

  function First(order: HostOrder, p: seq<u8>): (w: nat)
    requires p != []
    ensures w < 0x1_0000
  {
    Word(order, p[0], if |p| > 1 then p[1] else 0)
  }

  function Rest(p: seq<u8>): (r: seq<u8>)
    requires p != []
    ensures |r| < |p|
  {
    if |p| > 1 then p[2..] else []
  }

  lemma SumStep(order: HostOrder, p: seq<u8>)
    requires p != []
    ensures Sum(order, p) == First(order, p) + Sum(order, Rest(p))
  {
  }

  lemma SwapPairsStep(order: HostOrder, p: seq<u8>)
    requires p != []
    ensures SwapPairs(p) != [] && Rest(SwapPairs(p)) == SwapPairs(Rest(p))
    ensures First(order, SwapPairs(p)) == SwapWord(First(order, p))
  {
    if |p| > 1 {
      assert SwapPairs(p)[2..] == SwapPairs(p[2..]);
    }
    SwappedWord(order, p[0], if |p| > 1 then p[1] else 0);
  }

  lemma SwappedWord(order: HostOrder, b0: u8, b1: u8)
    ensures Word(order, b1, b0) == SwapWord(Word(order, b0, b1))
  {
  }

  lemma OtherOrderStep(p: seq<u8>)
    requires p != []
    ensures First(BigEndian, p) == SwapWord(First(LittleEndian, p))
  {
  }

  /** Swapping every word makes the sum 256 times as large, but for a multiple of 65535. */
  lemma {:induction false} SwapPairsSum(order: HostOrder, p: seq<u8>) returns (k: nat)
    ensures 256 * Sum(order, p) == 65535 * k + Sum(order, SwapPairs(p))
    ensures Sum(order, p) == 0 <==> Sum(order, SwapPairs(p)) == 0
    decreases |p|
  {
    k := 0;
    if p != [] {
      hide Sum, SwapPairs, First, Rest, SwapWord;
      k := SwapPairsSum(order, Rest(p));
      SwapPairsStep(order, p);
      SumStep(order, p);
      SumStep(order, SwapPairs(p));
      SwapIsTimes256(First(order, p));
      k := k + First(order, p) / 256;
    }
  }

  /** A host of the other order reads every word swapped. */
  lemma {:induction false} OtherOrderSum(p: seq<u8>) returns (k: nat)
    ensures 256 * Sum(LittleEndian, p) == 65535 * k + Sum(BigEndian, p)
    ensures Sum(LittleEndian, p) == 0 <==> Sum(BigEndian, p) == 0
    decreases |p|
  {
    k := 0;
    if p != [] {
      hide Sum, First, Rest, SwapWord;
      k := OtherOrderSum(Rest(p));
      OtherOrderStep(p);
      SumStep(LittleEndian, p);
      SumStep(BigEndian, p);
      SwapIsTimes256(First(LittleEndian, p));
      k := k + First(LittleEndian, p) / 256;
    }
  }

  /** If the sums are related that way, the checksums are each other's byte swap. */
  lemma SwappedOnes(s: nat, t: nat, k: nat)
    requires 256 * s == 65535 * k + t && (s == 0 <==> t == 0)
    ensures Ones(t) == SwapWord(Ones(s))
  {
    if s > 0 {
      var o := Ones(s);
      var q := (s - 1) / 65535;
      assert s == 65535 * q + o;
      SwapIsTimes256(o);
      var u := SwapWord(o);
      assert u > 0;
      OnesOfSame(t, u, 256 * q + o / 256, k);
      OnesUnique(u, 0, u);
    }
  }

  lemma OnesOfSame(t: nat, u: nat, a: nat, k: nat)
    requires 65535 * k + t == 65535 * a + u && t > 0 && u > 0
    ensures Ones(t) == Ones(u)
  {
    OnesUnique(65535 * k + t, k, t);
    OnesUnique(65535 * a + u, a, u);
  }

  lemma SwapComplement(o: nat)
    requires o < 0x1_0000
    ensures SwapWord(0xffff - o) == 0xffff - SwapWord(o)
  {
  }

  /** Swapping the bytes of every word of a packet, odd tail included, swaps the bytes of its checksum. */
  lemma SwappedPacket(order: HostOrder, p: seq<u8>)
    ensures Cksum(order, SwapPairs(p)) == SwapWord(Cksum(order, p))
  {
    var k := SwapPairsSum(order, p);
    SwappedOnes(Sum(order, p), Sum(order, SwapPairs(p)), k);
    SwapComplement(Ones(Sum(order, p)));
  }

  /** Hosts of either byte order put the same two bytes into the checksum field. */
  lemma HostsAgree(p: seq<u8>)
    ensures WordBytes(LittleEndian, Cksum(LittleEndian, p)) == WordBytes(BigEndian, Cksum(BigEndian, p))
  {
    hide Sum, Ones, SwapWord, WordBytes;
    var k := OtherOrderSum(p);
    SwappedOnes(Sum(LittleEndian, p), Sum(BigEndian, p), k);
    SwapComplement(Ones(Sum(LittleEndian, p)));
    SwappedBytes(Cksum(LittleEndian, p));
  }

  /** What one host stores is what the other stores of the swapped word. */
  lemma SwappedBytes(x: nat)
    requires x < 0x1_0000
    ensures SwapWord(x) < 0x1_0000 && WordBytes(LittleEndian, x) == WordBytes(BigEndian, SwapWord(x))
  {
  }

  /** An odd byte at the end is summed as if a zero byte followed it. */
  lemma {:induction false} OddTailIsPadded(order: HostOrder, p: seq<u8>)
    requires |p| % 2 == 1
    ensures Cksum(order, p + [0]) == Cksum(order, p)
  {
    OddTailSum(order, p);
  }

  lemma {:induction false} OddTailSum(order: HostOrder, p: seq<u8>)
    requires |p| % 2 == 1
    ensures Sum(order, p + [0]) == Sum(order, p)
  {
    var r := p + [0];
    if |p| == 1 {
      assert r[2..] == [];
    } else {
      assert r[2..] == p[2..] + [0];
      OddTailSum(order, p[2..]);
    }
  }

  /** The worked example of section 3 of RFC 1071: the words 0001, f203, f4f5 and f6f7 sum to ddf2. */
  lemma WorkedExample()
    ensures Cksum(BigEndian, [0x00, 0x01, 0xf2, 0x03, 0xf4, 0xf5, 0xf6, 0xf7]) == 0xffff - 0xddf2
  {
    var p: seq<u8> := [0x00, 0x01, 0xf2, 0x03, 0xf4, 0xf5, 0xf6, 0xf7];
    assert p[2..] == [0xf2, 0x03, 0xf4, 0xf5, 0xf6, 0xf7] && p[2..][2..] == [0xf4, 0xf5, 0xf6, 0xf7];
    assert p[2..][2..][2..] == [0xf6, 0xf7] && p[2..][2..][2..][2..] == [];
  }
}
