/** Retransmission requests as text: the receiver's printer (big3/odbiornik.cpp) and the transmitter's parser (big3/set.cpp). */
module RequestText {
  import opened Bytes
  import opened Ordered

  /** The receiver's keyword carries the separating space; the transmitter looks for the bare word. */
  const REXMIT := "LOUDER_PLEASE "
  const KEYWORD := "LOUDER_PLEASE"
  const LOOKUP := "ZERO_SEVEN_COME_IN"

  // ---- Printing

  function DigitChar(d: nat): char
    requires d < 10
  {
    '0' + d as char
  }

  /** `std::to_string` of an unsigned number. */
  function ToString(n: nat): (s: string)
    ensures s != []
    ensures forall c :: c in s ==> '0' <= c <= '9'
  {
    if n < 10 then [DigitChar(n)] else ToString(n / 10) + [DigitChar(n % 10)]
  }

  /** The numbers in decimal, each followed by a comma. */
  function Join(nums: seq<nat>): string {
    if nums == [] then "" else ToString(nums[0]) + "," + Join(nums[1..])
  }

  /** One request datagram: keyword and numbers, without the last character. */
  function Render(nums: seq<nat>): string {
    var msg := REXMIT + Join(nums);
    msg[..|msg| - 1]
  }

  /** The datagrams of one round: full batches of ten, then whatever is left - possibly nothing. */
  function Batches(nums: seq<nat>): seq<seq<nat>> {
    if |nums| < 10 then [nums] else [nums[..10]] + Batches(nums[10..])
  }

  function RenderAll(batches: seq<seq<nat>>): seq<string> {
    if batches == [] then [] else [Render(batches[0])] + RenderAll(batches[1..])
  }

  /** The datagrams the receiver sends for a set of holes. */
  ghost function Requests(holes: set<nat>): seq<string> {
    if holes == {} then [] else RenderAll(Batches(Ascending(holes)))
  }

  // ---- Parsing

  predicate IsSpace(c: char) {
    c == ' ' || '\t' <= c <= '\r'
  }

  predicate IsDigit(c: char) {
    '0' <= c <= '9'
  }

  /** The value of the longest run of digits at the start of `s`, continuing from `acc`. */
  function Digits(s: string, acc: nat): nat {
    if s == [] || !IsDigit(s[0]) then acc else Digits(s[1..], 10 * acc + (s[0] as int - '0' as int))
  }

  function SkipSpaces(s: string): string {
    if s != [] && IsSpace(s[0]) then SkipSpaces(s[1..]) else s
  }

  /** `strtol(s, nullptr, 10)` with a 64-bit `long`: out-of-range values saturate, junk counts as zero. */
  function Strtol(s: string): int {
    var t := SkipSpaces(s);
    if t != [] && t[0] == '-' then
      var v: int := Digits(t[1..], 0);
      if v > TWO_63 then -(TWO_63 as int) else -v
    else
      var v: int := Digits(if t != [] && t[0] == '+' then t[1..] else t, 0);
      if v >= TWO_63 then TWO_63 - 1 else v
  }

  function SkipCommas(s: string): (r: string)
    ensures |r| <= |s| && (r == [] || r[0] != ',')
  {
    if s != [] && s[0] == ',' then SkipCommas(s[1..]) else s
  }

  /** The length of the token `strtok` would cut off the front of `s`. */
  function TokenLength(s: string): (n: nat)
    ensures n <= |s|
    ensures forall i :: 0 <= i < n ==> s[i] != ','
    ensures n < |s| ==> s[n] == ','
  {
    if s == [] || s[0] == ',' then 0 else 1 + TokenLength(s[1..])
  }

  /** The tokens of a comma-separated list, as `strtok` delivers them: empty ones are skipped. */
  function Tokens(s: string): seq<string>
    decreases |s|
  {
    var t := SkipCommas(s);
    if t == [] then [] else
      var n := TokenLength(t);
      [t[..n]] + Tokens(t[n..])
  }

  /** The numbers a comma-separated list adds to a set: those that are not negative. */
  function ParsedNumbers(tokens: seq<string>): set<nat> {
    if tokens == [] then {}
    else (if Strtol(tokens[0]) >= 0 then {Strtol(tokens[0])} else {}) + ParsedNumbers(tokens[1..])
  }

  predicate KeywordAt(msg: string, i: int) {
    0 <= i <= |msg| - |KEYWORD| && msg[i..i + |KEYWORD|] == KEYWORD
  }

  predicate ContainsKeyword(msg: string) {
    exists i | 0 <= i <= |msg| :: KeywordAt(msg, i)
  }

  function AfterSpace(msg: string): string {
    if msg == [] then [] else if msg[0] == ' ' then msg[1..] else AfterSpace(msg[1..])
  }

  /** The numbers a control datagram asks for. */
  function Requested(msg: string): set<nat> {
    if msg == LOOKUP || !ContainsKeyword(msg) then {} else ParsedNumbers(Tokens(AfterSpace(msg)))
  }

  // ---- The two programs' loops

  /** `add_to_set`: the `strtok` loop inserting into the set passed to it. */
  method AddToSet(collection: set<nat>, commaDelimited: string) returns (r: set<nat>)
    ensures r == collection + ParsedNumbers(Tokens(commaDelimited))
  {
    r := collection;
    var rest := SkipCommas(commaDelimited);
    while rest != []
      invariant rest == [] || rest[0] != ','
      invariant r + ParsedNumbers(Tokens(rest)) == collection + ParsedNumbers(Tokens(commaDelimited))
      decreases |rest|
    {
      var n := TokenLength(rest);
      var num := Strtol(rest[..n]);
      TokensStep(rest);
      if num >= 0 {
        r := r + {num};
      }
      TokensSkip(rest[n..]);
      rest := SkipCommas(rest[n..]);
    }
  }

  /** The request round of `requesting_loop`: one pass over the holes, a datagram for every tenth and one at the end. */
  method PrintRequests(holes: set<nat>) returns (sent: seq<string>)
    ensures sent == Requests(holes)
  {
    hide ToString, Join, RenderAll, Batches, Ascending;
    sent := [];
    if holes != {} {
      var i, msg, rest := 0, REXMIT, holes;
      ghost var batch: seq<nat> := [];
      JoinNone();
      assert batch + Ascending(rest) == Ascending(holes);
      while rest != {}
        invariant i == |batch| < 10 && msg == REXMIT + Join(batch)
        invariant sent + RenderAll(Batches(batch + Ascending(rest))) == RenderAll(Batches(Ascending(holes)))
        decreases rest
      {
        var num := TakeSmallest(rest);
        AscendingStep(batch, rest);
        msg := msg + ToString(num);
        msg := msg + ",";
        JoinAppend(batch, num);
        batch := batch + [num];
        assert msg == REXMIT + Join(batch);
        i := i + 1;
        rest := rest - {num};
        if i == 10 {
          FullBatch(batch, Ascending(rest));
          Assoc(sent, [Render(batch)], RenderAll(Batches(Ascending(rest))));
          sent := sent + [msg[..|msg| - 1]];
          msg := REXMIT;
          i := 0;
          batch := [];
          assert batch + Ascending(rest) == Ascending(rest);
        }
      }
      LastBatch(batch);
      sent := sent + [msg[..|msg| - 1]];
    }
  }

  lemma JoinNone()
    ensures REXMIT + Join([]) == REXMIT
  {
  }

  lemma LastBatch(batch: seq<nat>)
    requires |batch| < 10
    ensures RenderAll(Batches(batch + Ascending({}))) == [Render(batch)]
  {
    assert batch + Ascending({}) == batch;
  }

  lemma FullBatch(batch: seq<nat>, tail: seq<nat>)
    requires |batch| == 10
    ensures RenderAll(Batches(batch + tail)) == [Render(batch)] + RenderAll(Batches(tail))
  {
    var all := batch + tail;
    assert all[..10] == batch && all[10..] == tail;
    assert ([batch] + Batches(tail))[1..] == Batches(tail);
  }

  lemma {:induction false} JoinAppend(nums: seq<nat>, n: nat)
    ensures Join(nums + [n]) == Join(nums) + ToString(n) + ","
  {
    if nums == [] {
      assert [n][1..] == [];
    } else {
      assert (nums + [n])[1..] == nums[1..] + [n];
      JoinAppend(nums[1..], n);
    }
  }

  lemma TokensSkip(s: string)
    ensures Tokens(SkipCommas(s)) == Tokens(s)
  {
    SkipTwice(s);
  }

  lemma SkipTwice(s: string)
    ensures SkipCommas(SkipCommas(s)) == SkipCommas(s)
  {
  }

  lemma TokensStep(s: string)
    requires s != [] && s[0] != ','
    ensures TokenLength(s) > 0
    ensures ParsedNumbers(Tokens(s)) ==
            (if Strtol(s[..TokenLength(s)]) >= 0 then {Strtol(s[..TokenLength(s)])} else {}) +
            ParsedNumbers(Tokens(s[TokenLength(s)..]))
  {
    assert SkipCommas(s) == s;
    var n := TokenLength(s);
    assert Tokens(s) == [s[..n]] + Tokens(s[n..]);
  }
}
