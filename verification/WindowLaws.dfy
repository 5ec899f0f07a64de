/** What an arrival does to the window, case by case and place by place, whatever its number. */
module WindowLaws {
  import opened Bytes
  import opened Window
  import opened WindowFacts
  import opened WindowSteps

  /** A number that is asked for: its package receives the data, everything else stays, and it is asked for no more. */
  lemma HoleIsFilled(v: View, num: nat, data: seq<u8>, max: nat)
    requires data != [] && num in v.holes
    ensures var w := Add(v, num, data, max);
            && |w.pkgs| == |v.pkgs| && w.size == v.size && w.holes == v.holes - {num}
            && forall i :: 0 <= i < |v.pkgs| ==>
                 w.pkgs[i].num == v.pkgs[i].num && w.pkgs[i].data == if v.pkgs[i].num == num then data else v.pkgs[i].data
  {
  }

  /** The first package of an empty window is taken whatever its number, and fixes the capacity. */
  lemma FirstIsTaken(v: View, num: nat, data: seq<u8>, max: nat)
    requires data != [] && num !in v.holes && v.pkgs == []
    ensures var w := Add(v, num, data, max); w.pkgs == [Chunk(num, data)] && w.holes == v.holes && w.size == max / |data|
  {
  }

  /** A number in front of the window, or any number when there is no room, changes nothing. */
  lemma LateOrFullIsDropped(v: View, num: nat, data: seq<u8>, max: nat)
    requires data != [] && num !in v.holes && v.pkgs != [] && (num < v.pkgs[0].num || |v.pkgs| >= v.size)
    ensures Add(v, num, data, max) == v
  {
  }

  /** There is room for an arrival numbered at or behind the front, and it is not asked for. */
  predicate Enters(v: View, num: nat) {
    num !in v.holes && v.pkgs != [] && v.pkgs[0].num <= num && |v.pkgs| < v.size
  }

  /** The arrival is the `k`-th package behind the last. */
  predicate Follows(v: View, num: nat, data: seq<u8>, k: nat) {
    data != [] && Enters(v, num) && k >= 1 && num == v.pkgs[|v.pkgs| - 1].num + k * |data|
  }

  /** Place by place: old packages, then `k - 1` blanks, then the arrival, with `e` packages gone from the front. */
  ghost predicate Placed(v: View, pkgs: seq<Chunk>, num: nat, data: seq<u8>, k: nat, e: nat)
    requires v.pkgs != []
  {
    var n, back := |v.pkgs|, v.pkgs[|v.pkgs| - 1].num;
    && e <= n + k - 1 && |pkgs| == n + k - e
    && pkgs[n + k - e - 1] == Chunk(num, data)
    && (forall j :: e <= j < n ==> pkgs[j - e] == v.pkgs[j])
    && (forall i :: 1 <= i < k && e <= n - 1 + i ==> pkgs[n - 1 + i - e] == Chunk(back + i * |data|, []))
  }

  /** Then the window ends with it, having lost from the front just as many packages as do not fit. */
  lemma AheadIsPlaced(v: View, num: nat, data: seq<u8>, max: nat, k: nat)
    requires Follows(v, num, data, k)
    ensures var w := Add(v, num, data, max);
            && w.size == v.size
            && Placed(v, w.pkgs, num, data, k, if |v.pkgs| + k <= v.size then 0 else |v.pkgs| + k - v.size)
  {
    hide Blanks;
    var len, n, back := |data|, |v.pkgs|, v.pkgs[|v.pkgs| - 1].num;
    AheadBy(v, num, len, k);
    var b := Blanks(back + len, len, k - 1);
    var all := v.pkgs + b + [Chunk(num, data)];
    var e := if n + k <= v.size then 0 else n + k - v.size;
    assert Extended(v, len, k - 1) + [Chunk(num, data)] == all;
    assert Add(v, num, data, max).pkgs == all[e..] && Add(v, num, data, max).size == v.size;
    hide Add, Placed;
    PlacedFrom(v, b, num, data, k, e);
  }

  lemma PlacedFrom(v: View, b: seq<Chunk>, num: nat, data: seq<u8>, k: nat, e: nat)
    requires v.pkgs != [] && k >= 1 && e <= |v.pkgs| + k - 1
    requires b == Blanks(v.Back() + |data|, |data|, k - 1)
    ensures Placed(v, (v.pkgs + b + [Chunk(num, data)])[e..], num, data, k, e)
  {
    var all := v.pkgs + b + [Chunk(num, data)];
    var n, back := |v.pkgs|, v.pkgs[|v.pkgs| - 1].num;
    forall i | 1 <= i < k && e <= n - 1 + i ensures all[e..][n - 1 + i - e] == Chunk(back + i * |data|, []) {
      assert all[n - 1 + i] == b[i - 1];
      Distribute(i - 1, 1, |data|);
    }
  }

  /** And the numbers asked for are the old ones and those of the blanks, as far as they are still in the window. */
  lemma AheadHoles(v: View, num: nat, data: seq<u8>, max: nat, k: nat)
    requires Follows(v, num, data, k)
    ensures var back, w := v.pkgs[|v.pkgs| - 1].num, Add(v, num, data, max);
            w.pkgs != [] &&
            forall h :: h in w.holes <==>
              w.pkgs[0].num <= h && (h in v.holes || exists i: nat :: 1 <= i < k && h == back + i * |data|)
  {
    hide Appended, Last;
    AheadBy(v, num, |data|, k);
    assert Appended(v, num, data, k) != [] by { AppendedOpen(v, num, data, k); }
  }

  lemma AppendedOpen(v: View, num: nat, data: seq<u8>, k: nat)
    requires v.pkgs != [] && k >= 1 && v.size > 0
    ensures Appended(v, num, data, k) != []
  {
  }

  /**
   * Any other number - of a package received already, or of none: everything up to it leaves, the packages behind it
   * move to the front, blanks fill all places but one, and only the last of them is asked for.
   */
  lemma OutOfPlaceFlushes(v: View, num: nat, data: seq<u8>, max: nat)
    requires data != [] && Enters(v, num) && WellFormed(v, |data|, max)
    requires num > v.pkgs[|v.pkgs| - 1].num ==> (num - v.pkgs[|v.pkgs| - 1].num) % |data| != 0
    ensures var w := Add(v, num, data, max);
            && |w.pkgs| == v.size - 1 >= 1 && w.size == v.size && w.holes == {w.pkgs[|w.pkgs| - 1].num}
            && Contiguous(w.pkgs, |data|) && w.pkgs[0].num - |data| <= num < w.pkgs[0].num
            && (forall i :: 0 <= i < |v.pkgs| && v.pkgs[i].num > num ==> v.pkgs[i] in w.pkgs)
            && (forall c :: c in w.pkgs && c.data != [] ==> c in v.pkgs)
  {
    var len, n := |data|, |v.pkgs|;
    assert v.Back() == v.pkgs[n - 1].num;
    assert !Ahead(v, num, len);
    var q := Place(v, num, len);
    var r := Flushed(v, len, q);
    var all := Extended(v, len, q + v.size - n);
    FlushedShape(v, num, len, max);
    FlushedElements(v, len, q);
    FlushedFront(v, num, len, max);
    forall i | 0 <= i < n && v.pkgs[i].num > num ensures v.pkgs[i] in r {
      assert i > q by { if i <= q { PlaceBelow(v, num, len, i); } }
      assert r[i - q - 1] == v.pkgs[i];
    }
    assert Add(v, num, data, max).pkgs == r;
  }

  lemma PlaceBelow(v: View, num: nat, len: nat, i: nat)
    requires len > 0 && Contiguous(v.pkgs, len) && i < |v.pkgs| && v.Front() <= num && i <= Place(v, num, len)
    ensures v.pkgs[i].num <= num
  {
    var q := Place(v, num, len);
    assert num - v.Front() == len * q + (num - v.Front()) % len;
    Distribute(i, q - i, len);
    assert (q - i) * len >= 0;
  }

  lemma FlushedFront(v: View, num: nat, len: nat, max: nat)
    requires WellFormed(v, len, max) && v.pkgs != [] && !Ignored(v, num)
    ensures var r := Flushed(v, len, Place(v, num, len)); r != [] && r[0].num - len <= num < r[0].num
  {
    var q := Place(v, num, len);
    var all := Extended(v, len, q + v.size - |v.pkgs|);
    FlushedShape(v, num, len, max);
    assert Flushed(v, len, q)[0] == all[q + 1];
    assert all[0] == v.pkgs[0] && all[q + 1].num == v.Front() + (q + 1) * len;
    Distribute(q, 1, len);
    assert num - v.Front() == len * q + (num - v.Front()) % len;
  }
}
