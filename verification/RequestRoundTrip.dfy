/** What the receiver asks for is what the transmitter understands. */
module RequestRoundTrip {
  import opened Bytes
  import opened Ordered
  import opened RequestText

  /** What `strtol` makes of a number: it saturates at the largest `long`. */
  function Saturated(n: nat): (r: nat)
    ensures r < TWO_63
    ensures r == n <==> n < TWO_63
  {
    if n < TWO_63 then n else TWO_63 - 1
  }

  /** All the numbers asked for in a list of datagrams. */
  function RequestedIn(msgs: seq<string>): set<nat> {
    if msgs == [] then {} else Requested(msgs[0]) + RequestedIn(msgs[1..])
  }

  lemma {:induction false} DigitsAppend(s: string, c: char, acc: nat)
    requires IsDigit(c) && forall d :: d in s ==> IsDigit(d)
    ensures Digits(s + [c], acc) == 10 * Digits(s, acc) + (c as int - '0' as int)
  {
    if s == [] {
      assert [c][1..] == [];
    } else {
      assert s[0] in s && forall d :: d in s[1..] ==> d in s;
      assert (s + [c])[1..] == s[1..] + [c];
      DigitsAppend(s[1..], c, 10 * acc + (s[0] as int - '0' as int));
    }
  }

  lemma {:induction false} ReadsBack(n: nat)
    ensures Digits(ToString(n), 0) == n
  {
    if n < 10 {
      assert [DigitChar(n)][1..] == [];
    } else {
      ReadsBack(n / 10);
      DigitsAppend(ToString(n / 10), DigitChar(n % 10), 0);
    }
  }

  /** A printed number reads back as itself, or as the largest `long` if it is too large. */
  lemma StrtolReadsBack(n: nat)
    ensures Strtol(ToString(n)) == Saturated(n)
  {
    var s := ToString(n);
    assert s[0] in s;
    assert SkipSpaces(s) == s;
    ReadsBack(n);
  }

  /** The comma-separated list a datagram carries after the keyword. */
  function Csv(nums: seq<nat>): string
    requires nums != []
  {
    if |nums| == 1 then ToString(nums[0]) else ToString(nums[0]) + "," + Csv(nums[1..])
  }

  lemma {:induction false} JoinIsCsv(nums: seq<nat>)
    requires nums != []
    ensures Join(nums) == Csv(nums) + ","
  {
    if |nums| == 1 {
      assert nums[1..] == [];
    } else {
      JoinIsCsv(nums[1..]);
    }
  }

  lemma {:induction false} TokenOfDigits(d: string, tail: string)
    requires forall c :: c in d ==> c != ','
    requires tail == [] || tail[0] == ','
    ensures TokenLength(d + tail) == |d|
  {
    if d != [] {
      assert d[0] in d && forall c :: c in d[1..] ==> c in d;
      assert (d + tail)[1..] == d[1..] + tail;
      TokenOfDigits(d[1..], tail);
    } else {
      assert d + tail == tail;
    }
  }

  lemma FirstToken(n: nat, tail: string)
    requires tail == [] || tail[0] == ','
    ensures Tokens(ToString(n) + tail) == [ToString(n)] + Tokens(tail)
  {
    var d := ToString(n);
    var s := d + tail;
    assert s[0] == d[0] && d[0] in d;
    assert SkipCommas(s) == s;
    TokenOfDigits(d, tail);
    assert s[..|d|] == d && s[|d|..] == tail;
  }

  lemma CommaSkipped(s: string)
    ensures Tokens("," + s) == Tokens(s)
  {
    assert ("," + s)[1..] == s;
    TokensSkip(s);
    assert SkipCommas("," + s) == SkipCommas(s);
    TokensSkip("," + s);
  }

  lemma {:induction false} CsvParses(nums: seq<nat>)
    requires nums != []
    ensures ParsedNumbers(Tokens(Csv(nums))) == set n | n in nums :: Saturated(n)
  {
    var n := nums[0];
    StrtolReadsBack(n);
    if |nums| == 1 {
      FirstToken(n, "");
      assert ToString(n) + "" == ToString(n);
      assert Tokens("") == [];
      OneParsed(ToString(n), []);
      assert nums == [n];
    } else {
      FirstToken(n, "," + Csv(nums[1..]));
      assert ToString(n) + ("," + Csv(nums[1..])) == Csv(nums);
      CommaSkipped(Csv(nums[1..]));
      OneParsed(ToString(n), Tokens(Csv(nums[1..])));
      CsvParses(nums[1..]);
      assert nums == [n] + nums[1..];
    }
  }

  lemma OneParsed(t: string, ts: seq<string>)
    requires Strtol(t) >= 0
    ensures ParsedNumbers([t] + ts) == {Strtol(t) as nat} + ParsedNumbers(ts)
  {
    assert ([t] + ts)[1..] == ts;
  }

  lemma AfterKeyword(x: string)
    ensures AfterSpace(REXMIT + x) == x
    ensures ContainsKeyword(REXMIT + x) && REXMIT + x != LOOKUP
  {
    var msg := REXMIT + x;
    assert KeywordAt(msg, 0) by { assert msg[0..13] == KEYWORD; }
    assert msg[0] != LOOKUP[0];
    SkipsWord(KEYWORD, x);
    assert KEYWORD + " " + x == msg;
  }

  lemma {:induction false} SkipsWord(w: string, x: string)
    requires forall i :: 0 <= i < |w| ==> w[i] != ' '
    ensures AfterSpace(w + " " + x) == x
  {
    var s := w + " " + x;
    if w == [] {
      assert s[1..] == x;
    } else {
      assert s[1..] == w[1..] + " " + x;
      SkipsWord(w[1..], x);
    }
  }

  /** The text of a datagram: keyword, space, and the numbers separated by commas, with none behind the last. */
  lemma DatagramText(nums: seq<nat>)
    ensures Render(nums) == if nums == [] then KEYWORD else KEYWORD + " " + Csv(nums)
  {
    if nums == [] {
      BareKeyword();
    } else {
      JoinIsCsv(nums);
      assert REXMIT + Join(nums) == (REXMIT + Csv(nums)) + ",";
      assert REXMIT == KEYWORD + " ";
    }
  }

  /** One datagram: its numbers come out as they went in, but for saturation. */
  lemma RequestDatagramRoundTrip(nums: seq<nat>)
    ensures Requested(Render(nums)) == set n | n in nums :: Saturated(n)
  {
    DatagramText(nums);
    if nums == [] {
      BareKeyword();
    } else {
      assert REXMIT == KEYWORD + " ";
      AfterKeyword(Csv(nums));
      CsvParses(nums);
    }
  }

  /** The datagram left over when the number of holes is a multiple of ten is the bare keyword: it asks for nothing. */
  lemma BareKeyword()
    ensures Render([]) == KEYWORD && Requested(KEYWORD) == {}
  {
    assert REXMIT + Join([]) == REXMIT;
    assert Render([]) == KEYWORD;
    NoSpace(KEYWORD);
    assert Tokens("") == [];
  }

  lemma {:induction false} NoSpace(w: string)
    requires forall i :: 0 <= i < |w| ==> w[i] != ' '
    ensures AfterSpace(w) == []
  {
    if w != [] {
      NoSpace(w[1..]);
    }
  }

  lemma {:induction false} BatchesRoundTrip(nums: seq<nat>)
    ensures RequestedIn(RenderAll(Batches(nums))) == set n | n in nums :: Saturated(n)
    ensures forall b :: b in Batches(nums) ==> |b| <= 10
    ensures |Batches(nums)| == |nums| / 10 + 1
  {
    if |nums| < 10 {
      RequestDatagramRoundTrip(nums);
      OneRequested(Render(nums), []);
      assert [nums][1..] == [];
      assert RenderAll([nums]) == [Render(nums)] + [];
    } else {
      var b, rest := nums[..10], nums[10..];
      RequestDatagramRoundTrip(b);
      BatchesRoundTrip(rest);
      assert b + rest == nums;
      FullBatch(b, rest);
      OneRequested(Render(b), RenderAll(Batches(rest)));
    }
  }

  lemma OneRequested(msg: string, msgs: seq<string>)
    ensures RequestedIn([msg] + msgs) == Requested(msg) + RequestedIn(msgs)
  {
    assert ([msg] + msgs)[1..] == msgs;
  }

  lemma RequestsAskFor(holes: set<nat>)
    ensures RequestedIn(Requests(holes)) == set n | n in holes :: Saturated(n)
    ensures |Requests(holes)| == if holes == {} then 0 else |holes| / 10 + 1
  {
    hide RequestedIn, RenderAll, Batches, Ascending;
    if holes == {} {
      NothingRequested();
    } else {
      var nums := Ascending(holes);
      AscendingSorts(holes);
      BatchesRoundTrip(nums);
      RenderAllLength(Batches(nums));
      assert (set n | n in nums :: Saturated(n)) == set n | n in holes :: Saturated(n);
    }
  }

  lemma NothingRequested()
    ensures RequestedIn([]) == {}
  {
  }

  /** Parsing every datagram of a round gives back exactly the holes if and only if each fits a 64-bit `long`. */
  lemma RequestsRoundTripIff(holes: set<nat>)
    ensures RequestedIn(Requests(holes)) == holes <==> forall n :: n in holes ==> n < TWO_63
    ensures |Requests(holes)| == if holes == {} then 0 else |holes| / 10 + 1
  {
    hide RequestedIn, Requests;
    RequestsAskFor(holes);
    var r := RequestedIn(Requests(holes));
    if r == holes {
      forall n | n in holes ensures n < TWO_63 { assert n in r; }
    }
  }

  /** The hole 2^63 is asked for in full, but read as the largest `long`. */
  lemma LargeHoleMisread()
    ensures RequestedIn(Requests({TWO_63})) == {TWO_63 - 1}
  {
    hide RequestedIn, Requests;
    RequestsAskFor({TWO_63});
    assert Saturated(TWO_63) == TWO_63 - 1;
    assert TWO_63 in {TWO_63};
  }

  lemma RenderAllLength(bs: seq<seq<nat>>)
    ensures |RenderAll(bs)| == |bs|
  {
  }

  /** Every hole is in one of the datagrams, and that datagram alone makes the transmitter look it up. */
  lemma {:induction false} SomeDatagramAsks(msgs: seq<string>, n: nat) returns (i: nat)
    requires n in RequestedIn(msgs)
    ensures i < |msgs| && n in Requested(msgs[i])
  {
    if n in Requested(msgs[0]) {
      i := 0;
    } else {
      var j := SomeDatagramAsks(msgs[1..], n);
      i := j + 1;
    }
  }
}
