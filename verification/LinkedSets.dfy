/** The request set of the C transmitter: a linked list without repetitions (big/set.c). */
module LinkedSets {
  import opened RequestText

  /** A list that grows at its end by numbers it does not hold yet. */
  function Added(c: seq<nat>, n: nat): seq<nat> {
    if n in c then c else c + [n]
  }

  /** The numbers a list of tokens asks for, in order, repetitions included. */
  function Numbers(tokens: seq<string>): seq<nat> {
    if tokens == [] then []
    else (if Strtol(tokens[0]) >= 0 then [Strtol(tokens[0]) as nat] else []) + Numbers(tokens[1..])
  }

  function AddedAll(c: seq<nat>, nums: seq<nat>): seq<nat>
    decreases |nums|
  {
    if nums == [] then c else AddedAll(Added(c, nums[0]), nums[1..])
  }

  predicate Distinct(c: seq<nat>) {
    forall i, j :: 0 <= i < j < |c| ==> c[i] != c[j]
  }

  class Node {
    var next: Node?
    const data_num: nat

    constructor (n: nat)
      ensures next == null && data_num == n
    {
      next, data_num := null, n;
    }
  }

  /** The node behind the `i`-th of a list. */
  ghost function NextOf(spine: seq<Node>, i: nat): Node? {
    if i + 1 < |spine| then spine[i + 1] else null
  }

  /** Each node links to the next, and none stands twice. */
  ghost predicate Chained(spine: seq<Node>)
    reads spine
  {
    && (forall i :: 0 <= i < |spine| ==> spine[i].next == NextOf(spine, i))
    && (forall i, j :: 0 <= i < j < |spine| ==> spine[i] != spine[j])
  }

  lemma TailChained(spine: seq<Node>)
    requires spine != [] && Chained(spine)
    ensures spine[0].next == (if |spine| == 1 then null else spine[1]) && Chained(spine[1..])
  {
    assert spine[0].next == NextOf(spine, 0);
    var rest := spine[1..];
    forall i | 0 <= i < |rest| ensures rest[i].next == NextOf(rest, i) {
      assert spine[i + 1].next == NextOf(spine, i + 1);
    }
  }

  class LinkedSet {
    var first: Node?
    ghost var spine: seq<Node>

    ghost predicate Valid()
      reads this, spine
    {
      && first == (if spine == [] then null else spine[0])
      && Chained(spine)
      && Distinct(Contents())
    }

    /** The numbers in the list, first to last. */
    ghost function Contents(): (c: seq<nat>)
      reads this
      ensures |c| == |spine|
      ensures forall i :: 0 <= i < |spine| ==> c[i] == spine[i].data_num
    {
      seq(|spine|, i requires 0 <= i < |spine| reads this => spine[i].data_num)
    }

    constructor ()
      ensures Valid() && Contents() == [] && spine == []
    {
      first, spine := null, [];
    }

    /** One number: the list is walked to its end, and the number linked in behind unless it was met on the way. */
    method AddNumber(num: nat)
      requires Valid()
      modifies this, set n | n in spine
      ensures Valid() && Contents() == Added(old(Contents()), num)
      ensures forall n :: n in spine ==> n in old(spine) || fresh(n)
    {
      if first == null {
        first := new Node(num);
        spine := [first];
        assert Contents() == [num];
        return;
      }
      var ele := first;
      var found := ele.data_num == num;
      ghost var k := 0;
      while ele.next != null && !found
        invariant Valid() && spine == old(spine) && 0 <= k < |spine| && ele == spine[k]
        invariant found == (spine[k].data_num == num)
        invariant forall i :: 0 <= i < k ==> spine[i].data_num != num
        decreases |spine| - k
      {
        ele := ele.next;
        k := k + 1;
        found := ele.data_num == num;
      }
      if found {
        assert Contents()[k] == num;
      } else {
        assert k == |spine| - 1 && num !in Contents();
        var node := new Node(num);
        ele.next := node;
        spine := spine + [node];
        assert forall i :: 0 <= i < |old(spine)| ==> spine[i] == old(spine)[i];
        assert Contents() == old(Contents()) + [num];
      }
    }

    /** `add_to_set`: the `strtok` loop. */
    method AddToSet(commaDelimited: string)
      requires Valid()
      modifies this, set n | n in spine
      ensures Valid() && Contents() == AddedAll(old(Contents()), Numbers(Tokens(commaDelimited)))
      ensures forall n :: n in spine ==> n in old(spine) || fresh(n)
    {
      hide Strtol, Distinct, Added, Tokens, Numbers, AddedAll, Valid;
      var rest := SkipCommas(commaDelimited);
      TokensSkip(commaDelimited);
      while rest != []
        invariant Valid() && (rest == [] || rest[0] != ',')
        invariant forall n :: n in spine ==> n in old(spine) || fresh(n)
        invariant AddedAll(Contents(), Numbers(Tokens(rest))) == AddedAll(old(Contents()), Numbers(Tokens(commaDelimited)))
        decreases |rest|
      {
        var n := TokenLength(rest);
        var num := Strtol(rest[..n]);
        NumbersStep(rest);
        if num >= 0 {
          AddNumber(num);
        }
        TokensSkip(rest[n..]);
        rest := SkipCommas(rest[n..]);
      }
      NothingToAdd(Contents());
    }

    method Empty() returns (b: bool)
      requires Valid()
      ensures b <==> Contents() == []
    {
      b := first == null;
    }

    /** `pop_set`, on a set that is not empty (the original ends the program otherwise). */
    method Pop() returns (a: nat)
      requires Valid() && Contents() != []
      modifies this
      ensures Valid() && a == old(Contents())[0] && Contents() == old(Contents())[1..]
    {
      TailDistinct(Contents());
      TailChained(spine);
      hide Distinct, Chained;
      a := first.data_num;
      first := first.next;
      spine := spine[1..];
      assert Contents() == old(Contents())[1..];
    }

    lemma ValidIsDistinct()
      requires Valid()
      ensures Distinct(Contents())
    {
    }

    /** The draining loop of the transmitter: it ends, and yields each number of the set once, in list order. */
    method Drain() returns (out: seq<nat>)
      requires Valid()
      modifies this
      ensures Valid() && Contents() == [] && out == old(Contents()) && Distinct(out)
    {
      hide Distinct, Valid;
      out := [];
      assert Distinct(Contents()) by { ValidIsDistinct(); }
      var done := Empty();
      while !done
        invariant Valid() && done == (Contents() == [])
        invariant out + Contents() == old(Contents())
        decreases |Contents()|
      {
        Rejoin(out, Contents());
        var temp := Pop();
        out := out + [temp];
        done := Empty();
      }
    }
  }

  lemma NothingToAdd(c: seq<nat>)
    ensures AddedAll(c, Numbers(Tokens(""))) == c
  {
    assert Tokens("") == [];
  }

  lemma TailDistinct(c: seq<nat>)
    requires Distinct(c) && c != []
    ensures Distinct(c[1..])
  {
  }

  lemma Rejoin<T>(a: seq<T>, c: seq<T>)
    ensures c != [] ==> a + c == (a + [c[0]]) + c[1..]
  {
  }

  lemma NumbersStep(s: string)
    requires s != [] && s[0] != ','
    ensures TokenLength(s) > 0
    ensures Numbers(Tokens(s)) ==
            (if Strtol(s[..TokenLength(s)]) >= 0 then [Strtol(s[..TokenLength(s)]) as nat] else [])
            + Numbers(Tokens(s[TokenLength(s)..]))
    ensures forall c ::
              AddedAll(c, Numbers(Tokens(s))) ==
              AddedAll(if Strtol(s[..TokenLength(s)]) >= 0 then Added(c, Strtol(s[..TokenLength(s)])) else c,
                       Numbers(Tokens(s[TokenLength(s)..])))
  {
    hide Strtol;
    var n := TokenLength(s);
    assert SkipCommas(s) == s;
    assert Tokens(s) == [s[..n]] + Tokens(s[n..]);
    var rest := Numbers(Tokens(s[n..]));
    if Strtol(s[..n]) >= 0 {
      assert ([Strtol(s[..n]) as nat] + rest)[1..] == rest;
    } else {
      assert [] + rest == rest;
    }
  }

  // ---- What the list is, as a set

  lemma {:induction false} AddedAllIsUnion(c: seq<nat>, nums: seq<nat>)
    requires Distinct(c)
    ensures Distinct(AddedAll(c, nums))
    ensures c <= AddedAll(c, nums)
    ensures forall n :: n in AddedAll(c, nums) <==> n in c || n in nums
    decreases |nums|
  {
    hide Distinct;
    if nums != [] {
      AddedDistinct(c, nums[0]);
      AddedAllIsUnion(Added(c, nums[0]), nums[1..]);
      assert nums == [nums[0]] + nums[1..];
    }
  }

  lemma {:induction false} NumbersAreParsed(ts: seq<string>)
    ensures forall n :: n in Numbers(ts) <==> n in ParsedNumbers(ts)
  {
    hide Strtol;
    if ts != [] {
      NumbersAreParsed(ts[1..]);
    }
  }

  /** The list after `add_to_set` was called for each of these texts in turn. */
  function ListAfter(texts: seq<string>): seq<nat> {
    if texts == [] then []
    else AddedAll(ListAfter(texts[..|texts| - 1]), Numbers(Tokens(texts[|texts| - 1])))
  }

  /** The `std::set` of the C++ transmitter after the same calls. */
  ghost function SetAfter(texts: seq<string>): set<nat> {
    if texts == [] then {} else SetAfter(texts[..|texts| - 1]) + ParsedNumbers(Tokens(texts[|texts| - 1]))
  }

  /** Every number asked for, in the order of asking, repetitions included. */
  function AllNumbers(texts: seq<string>): seq<nat> {
    if texts == [] then [] else AllNumbers(texts[..|texts| - 1]) + Numbers(Tokens(texts[|texts| - 1]))
  }

  /** The C set stays without repetitions and holds, after any calls, exactly the numbers the C++ set would: it is a
      drop-in for the `std::set` it was replaced by. */
  lemma {:induction false} ListRefinesSet(texts: seq<string>)
    ensures Distinct(ListAfter(texts)) && (set n | n in ListAfter(texts)) == SetAfter(texts)
  {
    hide Distinct, Tokens, Numbers, ParsedNumbers, AddedAll;
    if texts == [] {
      assert Distinct([]) by { NothingDistinct(); }
    } else {
      var front, ts := texts[..|texts| - 1], Tokens(texts[|texts| - 1]);
      ListRefinesSet(front);
      AddedAllIsUnion(ListAfter(front), Numbers(ts));
      NumbersAreParsed(ts);
    }
  }

  lemma NothingDistinct()
    ensures Distinct([])
  {
  }

  /** Adding in two goes is adding one after the other. */
  lemma {:induction false} AddedInTwo(c: seq<nat>, a: seq<nat>, b: seq<nat>)
    ensures AddedAll(AddedAll(c, a), b) == AddedAll(c, a + b)
    decreases |a|
  {
    if a == [] {
      assert a + b == b;
    } else {
      assert (a + b)[1..] == a[1..] + b;
      AddedInTwo(Added(c, a[0]), a[1..], b);
    }
  }

  lemma {:induction false} ListIsAddedAll(texts: seq<string>)
    ensures ListAfter(texts) == AddedAll([], AllNumbers(texts))
  {
    hide Tokens, Numbers;
    if texts != [] {
      var front, nums := texts[..|texts| - 1], Numbers(Tokens(texts[|texts| - 1]));
      ListIsAddedAll(front);
      AddedInTwo([], AllNumbers(front), nums);
    }
  }

  /** Where a number is first asked for. */
  function FirstIndex(nums: seq<nat>, n: nat): (i: nat)
    requires n in nums
    ensures i < |nums| && nums[i] == n && n !in nums[..i]
  {
    if nums[0] == n then 0 else
      assert nums == [nums[0]] + nums[1..];
      var i := FirstIndex(nums[1..], n);
      assert nums[..i + 1] == [nums[0]] + nums[1..][..i];
      i + 1
  }

  /** The first of two numbers to be asked for is the one that comes first. */
  ghost predicate AskedBefore(nums: seq<nat>, a: nat, b: nat) {
    a in nums && b in nums && FirstIndex(nums, a) < FirstIndex(nums, b)
  }

  /** After any calls, the numbers stand in the order in which they were first asked for. */
  lemma FirstRequestOrder(texts: seq<string>, i: nat, j: nat)
    requires i < j < |ListAfter(texts)|
    ensures AskedBefore(AllNumbers(texts), ListAfter(texts)[i], ListAfter(texts)[j])
  {
    hide AskedBefore, AddedAll, AllNumbers, ListAfter;
    ListIsAddedAll(texts);
    AddedInOrder([], AllNumbers(texts), i, j);
    assert [] + AllNumbers(texts) == AllNumbers(texts);
  }

  lemma {:induction false} AddedInOrder(c: seq<nat>, nums: seq<nat>, i: nat, j: nat)
    requires Distinct(c) && i < j < |AddedAll(c, nums)|
    ensures AskedBefore(c + nums, AddedAll(c, nums)[i], AddedAll(c, nums)[j])
    decreases |nums|
  {
    hide AskedBefore, Distinct;
    var r := AddedAll(c, nums);
    if nums == [] {
      assert c + nums == c;
      PlacesInOrder(c, i, j);
    } else {
      var d := Added(c, nums[0]);
      AddedDistinct(c, nums[0]);
      AddedInOrder(d, nums[1..], i, j);
      SameOrder(c, nums, r[i], r[j]);
    }
  }

  lemma AddedDistinct(c: seq<nat>, n: nat)
    requires Distinct(c)
    ensures Distinct(Added(c, n))
  {
  }

  lemma PlacesInOrder(c: seq<nat>, i: nat, j: nat)
    requires Distinct(c) && i < j < |c|
    ensures AskedBefore(c, c[i], c[j])
  {
    FirstIs(c, c[i], i);
    FirstIs(c, c[j], j);
  }

  lemma SameOrder(c: seq<nat>, nums: seq<nat>, a: nat, b: nat)
    requires nums != [] && AskedBefore(Added(c, nums[0]) + nums[1..], a, b)
    ensures AskedBefore(c + nums, a, b)
  {
    var x, rest := nums[0], nums[1..];
    assert c + nums == c + [x] + rest;
    if x in c {
      DropRepeated(c, x, rest, a, b);
    }
  }

  lemma {:induction false} FirstIs(nums: seq<nat>, n: nat, k: nat)
    requires k < |nums| && nums[k] == n && forall p :: 0 <= p < k ==> nums[p] != n
    ensures n in nums && FirstIndex(nums, n) == k
  {
    if k > 0 {
      FirstIs(nums[1..], n, k - 1);
    }
  }

  /** Leaving out a repetition does not change which of two numbers comes first. */
  lemma DropRepeated(c: seq<nat>, x: nat, rest: seq<nat>, a: nat, b: nat)
    requires x in c && a in c + rest && b in c + rest
    ensures a in c + [x] + rest && b in c + [x] + rest
    ensures FirstIndex(c + rest, a) < FirstIndex(c + rest, b) ==>
              FirstIndex(c + [x] + rest, a) < FirstIndex(c + [x] + rest, b)
  {
    FirstInserted(c, x, rest, a);
    FirstInserted(c, x, rest, b);
  }

  lemma FirstInserted(c: seq<nat>, x: nat, rest: seq<nat>, a: nat)
    requires x in c && a in c + rest
    ensures a in c + [x] + rest
    ensures var i := FirstIndex(c + rest, a);
            FirstIndex(c + [x] + rest, a) == if i < |c| then i else i + 1
  {
    var s, t := c + rest, c + [x] + rest;
    var i := FirstIndex(s, a);
    var k := if i < |c| then i else i + 1;
    assert forall p :: 0 <= p < i ==> s[p] != a by {
      assert forall p :: 0 <= p < i ==> s[..i][p] == s[p];
    }
    assert t[k] == a;
    forall p | 0 <= p < k ensures t[p] != a {
      if p < |c| {
        assert t[p] == s[p];
      } else if p == |c| {
        var q :| 0 <= q < |c| && c[q] == x;
        assert s[q] == x;
      } else {
        assert t[p] == s[p - 1];
      }
    }
    FirstIs(t, a, k);
  }
}
