/** What the transmitter makes of any control datagram, not only of the ones the receiver prints. */
module RequestLaws {
  import opened Bytes
  import opened RequestText
  import opened RequestRoundTrip

  // ---- Which datagrams ask for anything

  /** A datagram in which the keyword stands nowhere asks for nothing, and neither does the lookup message. */
  lemma NoKeywordNoRequest(msg: string)
    ensures (forall i :: !KeywordAt(msg, i)) || msg == LOOKUP ==> Requested(msg) == {}
  {
    hide Tokens, ParsedNumbers, AfterSpace;
  }

  /** The keyword may stand anywhere; what counts is the list behind the first space, whatever stands before it. */
  lemma ListBehindFirstSpace(word: string, list: string, i: nat)
    requires ' ' !in word && KeywordAt(word + " " + list, i) && word + " " + list != LOOKUP
    ensures Requested(word + " " + list) == ParsedNumbers(Tokens(list))
  {
    hide Tokens, ParsedNumbers;
    var msg := word + " " + list;
    assert forall k :: 0 <= k < |word| ==> word[k] in word;
    SkipsWord(word, list);
    assert ContainsKeyword(msg);
  }

  /** So other text in front of the keyword does not matter. */
  lemma TextBeforeKeyword(before: string, nums: seq<nat>)
    requires ' ' !in before && nums != []
    ensures Requested(before + KEYWORD + " " + Csv(nums)) == set n | n in nums :: Saturated(n)
  {
    hide Requested, Csv, Tokens, ParsedNumbers;
    var word := before + KEYWORD;
    var msg := word + " " + Csv(nums);
    assert msg[|before|..|before| + |KEYWORD|] == KEYWORD;
    assert msg != LOOKUP by {
      assert msg[|word|] == ' ';
      assert ' ' !in LOOKUP;
    }
    ListBehindFirstSpace(word, Csv(nums), |before|);
    CsvParses(nums);
  }

  /** A datagram without a space asks for nothing. */
  lemma NoSpaceNoRequest(msg: string)
    requires ' ' !in msg
    ensures Requested(msg) == {}
  {
    assert forall k :: 0 <= k < |msg| ==> msg[k] in msg;
    NoSpace(msg);
    assert Tokens("") == [];
  }

  // ---- How a list falls into tokens

  /** A comma separates: the tokens of two lists joined by one are those of the first, then those of the second. */
  lemma {:induction false} TokensJoin(a: string, b: string)
    ensures Tokens(a + "," + b) == Tokens(a) + Tokens(b)
    decreases |a|
  {
    var s := a + "," + b;
    if a == [] {
      assert s == "," + b && Tokens(a) == [];
      CommaSkipped(b);
    } else if a[0] == ',' {
      var rest := a[1..];
      assert s == "," + (rest + "," + b) && a == "," + rest;
      CommaSkipped(rest + "," + b);
      CommaSkipped(rest);
      TokensJoin(rest, b);
    } else {
      var n := TokenLength(a);
      assert s == a + ("," + b);
      TokenInFront(a, "," + b);
      TokenCut(a);
      TokenCut(s);
      assert s[..n] == a[..n] && s[n..] == a[n..] + "," + b;
      TokensJoin(a[n..], b);
    }
  }

  lemma TokenCut(s: string)
    requires s != [] && s[0] != ','
    ensures TokenLength(s) > 0 && Tokens(s) == [s[..TokenLength(s)]] + Tokens(s[TokenLength(s)..])
  {
    assert SkipCommas(s) == s;
  }

  lemma {:induction false} TokenInFront(a: string, tail: string)
    requires tail != [] && tail[0] == ','
    ensures TokenLength(a + tail) == TokenLength(a)
  {
    if a == [] {
      assert a + tail == tail;
    } else if a[0] != ',' {
      assert (a + tail)[1..] == a[1..] + tail;
      TokenInFront(a[1..], tail);
    }
  }

  /** Text without a comma is one token, and no text is none. */
  lemma OneToken(s: string)
    requires ',' !in s
    ensures Tokens(s) == if s == [] then [] else [s]
  {
    if s != [] {
      assert s[0] in s;
      assert forall k :: 0 <= k < |s| ==> s[k] in s;
      TokenOfDigits(s, []);
      assert s + [] == s && s[|s|..] == [] && s[..|s|] == s;
      assert Tokens([]) == [];
      TokenCut(s);
    }
  }

  /** A list adds exactly the numbers of its tokens that are not negative. */
  lemma {:induction false} ParsedAre(tokens: seq<string>, n: nat)
    ensures n in ParsedNumbers(tokens) <==> exists i :: 0 <= i < |tokens| && Strtol(tokens[i]) == n
  {
    hide Strtol;
    if tokens != [] {
      var rest := tokens[1..];
      ParsedAre(rest, n);
      if n in ParsedNumbers(tokens) && n in ParsedNumbers(rest) {
        var i :| 0 <= i < |rest| && Strtol(rest[i]) == n;
        assert tokens[i + 1] == rest[i];
      }
      if i :| 0 <= i < |tokens| && Strtol(tokens[i]) == n {
        if i > 0 { assert rest[i - 1] == tokens[i]; }
      }
    }
  }

  // ---- How a token is read as a number

  /** White space in front does not count. */
  lemma SpaceInFront(c: char, s: string)
    requires c == ' ' || '\t' <= c <= '\r'
    ensures Strtol([c] + s) == Strtol(s)
  {
    assert ([c] + s)[1..] == s;
    assert SkipSpaces([c] + s) == SkipSpaces(s);
  }

  /** A minus sign makes a number negative - so that it is not added, unless it is zero - down to the smallest `long`. */
  lemma MinusInFront(n: nat)
    ensures Strtol("-" + ToString(n)) == -((if n <= TWO_63 then n else TWO_63) as int)
    ensures ParsedNumbers(["-" + ToString(n)]) == if n == 0 then {0} else {}
  {
    var s := "-" + ToString(n);
    assert s[1..] == ToString(n) && SkipSpaces(s) == s;
    ReadsBack(n);
    hide Strtol;
    assert [s][1..] == [];
    assert ParsedNumbers([]) == {};
  }

  lemma PlusInFront(n: nat)
    ensures Strtol("+" + ToString(n)) == Saturated(n)
  {
    var s := "+" + ToString(n);
    assert s[1..] == ToString(n) && SkipSpaces(s) == s;
    ReadsBack(n);
  }

  /** Reading stops at the first character that is no digit. */
  lemma JunkBehind(n: nat, junk: string)
    requires junk != [] && !('0' <= junk[0] <= '9')
    ensures Strtol(ToString(n) + junk) == Saturated(n)
  {
    var d, s := ToString(n), ToString(n) + junk;
    assert d[0] in d && s[0] == d[0];
    assert SkipSpaces(s) == s;
    DigitsStop(d, junk, 0);
    ReadsBack(n);
  }

  lemma {:induction false} DigitsStop(d: string, junk: string, acc: nat)
    requires junk != [] && !IsDigit(junk[0]) && forall c :: c in d ==> IsDigit(c)
    ensures Digits(d + junk, acc) == Digits(d, acc)
  {
    if d == [] {
      assert d + junk == junk;
    } else {
      assert d[0] in d && (d + junk)[1..] == d[1..] + junk;
      DigitsStop(d[1..], junk, 10 * acc + (d[0] as int - '0' as int));
    }
  }

  /** A token that begins with anything else reads as zero: it asks for chunk 0. */
  lemma JunkInFront(s: string)
    requires s != [] && !('0' <= s[0] <= '9') && s[0] !in "+-" && s[0] != ' ' && !('\t' <= s[0] <= '\r')
    ensures Strtol(s) == 0
  {
    assert "+-"[0] in "+-" && "+-"[1] in "+-";
  }

  /** Numbers are printed without leading zeros. */
  lemma {:induction false} NoLeadingZero(n: nat)
    ensures if n == 0 then ToString(n) == "0" else ToString(n)[0] != '0'
  {
    if n >= 10 { NoLeadingZero(n / 10); }
  }

  /** The request for chunks 7 and 512, letter by letter. */
  lemma SampleRequest()
    ensures Render([7, 512]) == "LOUDER_PLEASE 7,512" && Requested("LOUDER_PLEASE 7,512") == {7, 512}
    ensures Requested("HELLO 7,512") == {}
  {
    var nums := [7, 512];
    assert ToString(512) == "512" by {
      assert ToString(51) == ToString(5) + "1";
    }
    assert nums[1..] == [512];
    assert Csv(nums) == "7,512";
    DatagramText(nums);
    RequestDatagramRoundTrip(nums);
    assert (set n | n in nums :: Saturated(n)) == {7, 512} by {
      assert nums[0] in nums && nums[1] in nums;
      assert Saturated(7) == 7 && Saturated(512) == 512;
    }
    NoKeywordNoRequest("HELLO 7,512");
  }
}
