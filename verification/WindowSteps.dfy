/**
 * The loop of `add_to_buffor`, one iteration at a time: each iteration leaves the closed form unchanged,
 * whether the index forgets evicted holes eagerly (as the code does) or lazily.
 */
module WindowSteps {
  import opened Bytes
  import opened Window
  import opened WindowFacts

  /** The guard of the loop together with its two return tests: the iteration reaches the `else` branch. */
  predicate Loops(v: View, num: nat, len: nat)
    requires v.pkgs != []
  {
    !Ignored(v, num) && v.Back() + len != num
  }

  /** Any step that pushes one blank and, when the window is full, drops its front. */
  ghost predicate Pushes(v: View, w: View, len: nat)
    requires v.pkgs != []
  {
    && w.size == v.size
    && w.pkgs == (v.pkgs + [Chunk(v.Back() + len, [])])[if |v.pkgs| + 1 == v.size then 1 else 0..]
  }

  lemma PushShape(v: View, w: View, len: nat)
    requires v.pkgs != [] && len > 0 && Contiguous(v.pkgs, len) && |v.pkgs| < v.size && Pushes(v, w, len)
    ensures w.pkgs != [] && |w.pkgs| < w.size && Contiguous(w.pkgs, len)
    ensures w.Back() == v.Back() + len
    ensures w.Front() == if |v.pkgs| + 1 == v.size then v.Front() + len else v.Front()
  {
    AppendContiguous(v.pkgs, len, Chunk(v.Back() + len, []));
    var g := v.pkgs + [Chunk(v.Back() + len, [])];
    if |v.pkgs| + 1 == v.size {
      DropContiguous(g, len, 1);
      NumsIncrease(g, len, 0, 1);
    }
  }

  lemma BlanksSplit(from: nat, len: nat, k: nat)
    ensures Blanks(from, len, k + 1) == [Chunk(from, [])] + Blanks(from + len, len, k)
  {
    var a, b := Blanks(from, len, k + 1), [Chunk(from, [])] + Blanks(from + len, len, k);
    forall i | 0 <= i < k + 1 ensures a[i] == b[i] {
      if i > 0 { Distribute(i - 1, 1, len); }
    }
  }

  lemma PushExtended(v: View, w: View, len: nat, k: nat)
    requires v.pkgs != [] && len > 0 && Contiguous(v.pkgs, len) && |v.pkgs| < v.size && Pushes(v, w, len)
    ensures w.pkgs != []
    ensures Extended(w, len, k) == Extended(v, len, k + 1)[if |v.pkgs| + 1 == v.size then 1 else 0..]
  {
    PushShape(v, w, len);
    BlanksSplit(v.Back() + len, len, k);
    assert Extended(v, len, k + 1) == (v.pkgs + [Chunk(v.Back() + len, [])]) + Blanks(w.Back() + len, len, k);
  }

  /** Pushing a blank brings an arrival that is ahead one place nearer, and leaves its closed form. */
  lemma PushTowardsAhead(v: View, w: View, num: nat, data: seq<u8>)
    requires data != [] && v.pkgs != [] && Contiguous(v.pkgs, |data|) && Loops(v, num, |data|)
    requires Pushes(v, w, |data|) && Ahead(v, num, |data|)
    ensures w.pkgs != [] && !Ignored(w, num) && Ahead(w, num, |data|)
    ensures Gap(w, num, |data|) == Gap(v, num, |data|) - 1
    ensures Appended(w, num, data, Gap(w, num, |data|)) == Appended(v, num, data, Gap(v, num, |data|))
  {
    var len, k := |data|, Gap(v, num, |data|);
    PushShape(v, w, len);
    assert k >= 2;
    Distribute(k - 1, 1, len);
    AheadBy(w, num, len, k - 1);
    PushExtended(v, w, len, k - 2);
    if |w.pkgs| > 1 { NumsIncrease(w.pkgs, len, 0, |w.pkgs| - 1); }
  }

  /** Pushing a blank on any other arrival: either the front has passed it, and the window is the closed form, or it goes on. */
  lemma PushPastOther(v: View, w: View, num: nat, len: nat)
    requires len > 0 && v.pkgs != [] && Contiguous(v.pkgs, len) && Loops(v, num, len)
    requires Pushes(v, w, len) && !Ahead(v, num, len)
    ensures w.pkgs != [] && |w.pkgs| < w.size && !Ahead(w, num, len) && w.Back() + len != num
    ensures num < w.Front() ==> w.pkgs == Flushed(v, len, Place(v, num, len))
    ensures num >= w.Front() ==> Flushed(w, len, Place(w, num, len)) == Flushed(v, len, Place(v, num, len))
  {
    PushShape(v, w, len);
    StaysOffGrid(v, w, num, len);
    if num < w.Front() {
      PlaceBeforeFront(v, num, len);
      BlanksSplit(v.Back() + len, len, 0);
    } else {
      PushFlushed(v, w, num, len);
    }
  }

  lemma PlaceBeforeFront(v: View, num: nat, len: nat)
    requires len > 0 && v.pkgs != [] && v.Front() <= num < v.Front() + len
    ensures Place(v, num, len) == 0
  {
    ModUnique(num - v.Front(), len, 0, num - v.Front());
  }

  lemma PlaceStep(v: View, w: View, num: nat, len: nat)
    requires len > 0 && v.pkgs != [] && w.pkgs != [] && w.Front() == v.Front() + len <= num
    ensures Place(w, num, len) == Place(v, num, len) - 1
  {
    var q' := Place(w, num, len);
    var r := (num - w.Front()) % len;
    assert num - w.Front() == len * q' + r;
    Distribute(q', 1, len);
    ModUnique(num - v.Front(), len, q' + 1, r);
  }

  lemma PushFlushed(v: View, w: View, num: nat, len: nat)
    requires len > 0 && v.pkgs != [] && Contiguous(v.pkgs, len) && |v.pkgs| < v.size && v.Front() <= num
    requires Pushes(v, w, len) && w.pkgs != [] && w.Front() <= num
    ensures |w.pkgs| < w.size
    ensures Flushed(w, len, Place(w, num, len)) == Flushed(v, len, Place(v, num, len))
  {
    PushShape(v, w, len);
    var q, q', d := Place(v, num, len), Place(w, num, len), if |v.pkgs| + 1 == v.size then 1 else 0;
    if d == 1 {
      PlaceStep(v, w, num, len);
    }
    var k := q' + v.size - |w.pkgs|;
    PushExtended(v, w, len, k);
    assert k + 1 == q + v.size - |v.pkgs|;
    DropTwice(Extended(v, len, k + 1), d, q' + 1);
  }

  lemma DropTwice<T>(s: seq<T>, a: nat, b: nat)
    requires a + b <= |s|
    ensures s[a..][b..] == s[a + b..]
  {
  }

  lemma AheadBy(v: View, num: nat, len: nat, k: nat)
    requires len > 0 && v.pkgs != [] && k >= 1 && num == v.Back() + k * len
    ensures Ahead(v, num, len)
    ensures Gap(v, num, len) == k
  {
    Positive(k, len);
    ModUnique(num - v.Back(), len, k, 0);
  }

  lemma StaysOffGrid(v: View, w: View, num: nat, len: nat)
    requires len > 0 && v.pkgs != [] && w.pkgs != [] && w.Back() == v.Back() + len
    requires !Ahead(v, num, len)
    ensures !Ahead(w, num, len) && v.Back() + len != num && w.Back() + len != num
  {
    AheadBy(v, v.Back() + len, len, 1);
    AheadBy(v, v.Back() + 2 * len, len, 2);
    if Ahead(w, num, len) {
      var k := Gap(w, num, len);
      Distribute(k, 1, len);
      AheadBy(v, num, len, k + 1);
    }
  }

  /** The numbers skipped from the next place on are the blank just pushed and the numbers skipped after it. */
  lemma BlankNumsStep(v: View, w: View, len: nat, k: nat)
    requires v.pkgs != [] && w.pkgs != [] && w.Back() == v.Back() + len && k >= 2
    ensures BlankNums(v, len, k) == {v.Back() + len} + BlankNums(w, len, k - 1)
  {
    forall h | h in BlankNums(v, len, k) ensures h in {v.Back() + len} + BlankNums(w, len, k - 1) {
      var i: nat :| 1 <= i < k && h == v.Back() + i * len;
      Distribute(i - 1, 1, len);
      if i > 1 { assert h == w.Back() + (i - 1) * len; }
    }
    forall h | h in {v.Back() + len} + BlankNums(w, len, k - 1) ensures h in BlankNums(v, len, k) {
      if h == v.Back() + len {
        assert h == v.Back() + 1 * len;
      } else {
        var i: nat :| 1 <= i < k - 1 && h == w.Back() + i * len;
        Distribute(i, 1, len);
        assert h == v.Back() + (i + 1) * len;
      }
    }
  }

  /** What the code may rely on in the window it has just filled: no number leaves the 64-bit range. */
  ghost predicate Fits(v: View, num: nat, len: nat, max: nat)
    requires v.pkgs != []
  {
    && len > 0 && max < TWO_63 && v.size == max / len && num + max < TWO_64
    && v.Back() < TWO_64
  }

  /** The subtraction in `Distance` wraps exactly when the back has passed the number, and the result is then capped. */
  lemma DistanceMeans(w: View, num: nat, len: nat, max: nat)
    requires w.pkgs != [] && Contiguous(w.pkgs, len) && |w.pkgs| == w.size && Fits(w, num, len, max)
    requires w.Front() <= num && num != w.Back()
    ensures w.Back() > num ==> Distance(w, num, len) == w.size - 1
    ensures w.Back() < num ==>
              Distance(w, num, len) ==
              if (num - w.Back()) / len < w.size - 1 then (num - w.Back()) / len else w.size - 1
    ensures Ahead(w, num, len) ==> Gap(w, num, len) == (num - w.Back()) / len
  {
    if w.Back() > num {
      var k := w.size - 1;
      assert w.Back() == w.Front() + k * len;
      assert k * len <= max by { Distribute(k, 1, len); assert len * (max / len) <= max; }
      var d := Sub64(num, w.Back());
      assert d >= k * len;
      QuotientAtLeast(d, len, k);
    }
  }

  lemma QuotientAtLeast(x: nat, d: nat, k: nat)
    requires d > 0 && k * d <= x
    ensures x / d >= k
  {
    var q := x / d;
    assert x < d * q + d;
    if q < k {
      MulGap(d, q, k);
    }
  }

  lemma SizeTimesLen(len: nat, max: nat, i: nat)
    requires len > 0 && i <= max / len
    ensures i * len <= max
  {
    var s := max / len;
    assert max == len * s + max % len;
    Distribute(i, s - i, len);
    assert (s - i) * len >= 0;
  }

  /** While the loop runs, one more package still has a 64-bit number. */
  lemma NextNumberFits(v: View, num: nat, len: nat, max: nat)
    requires v.pkgs != [] && Contiguous(v.pkgs, len) && Fits(v, num, len, max) && !Ignored(v, num)
    ensures v.Back() + len < TWO_64
  {
    var i := |v.pkgs| - 1;
    assert v.Back() == v.Front() + i * len;
    Distribute(i, 1, len);
    SizeTimesLen(len, max, i + 1);
  }

  /** The state of the window between two iterations of the loop. */
  ghost predicate Looping(v: View, num: nat, len: nat, max: nat) {
    && v.pkgs != [] && Contiguous(v.pkgs, len) && |v.pkgs| < v.size && Fits(v, num, len, max)
    && num !in v.holes
    && (forall h :: h in v.holes ==> h <= v.Back())
  }

  lemma EagerStepPushes(v: View, num: nat, len: nat, max: nat)
    requires Looping(v, num, len, max) && Loops(v, num, len)
    ensures v.Back() + len < TWO_64
    ensures Pushes(v, EagerStep(v, num, len), len) && Looping(EagerStep(v, num, len), num, len, max)
  {
    NextNumberFits(v, num, len, max);
    PushShape(v, EagerStep(v, num, len), len);
  }

  /** The eager bound never forgets a hole that stays in the window. */
  lemma EagerBoundIsSafe(v: View, num: nat, data: seq<u8>, max: nat)
    requires data != [] && Looping(v, num, |data|, max) && Loops(v, num, |data|) && Ahead(v, num, |data|)
    requires |v.pkgs| + 1 == v.size
    ensures v.Back() + |data| < TWO_64
    ensures var g := PushBlank(v, |data|);
            var r := Appended(v, num, data, Gap(v, num, |data|));
            r != [] && g.pkgs[Distance(g, num, |data|)].num <= r[0].num
  {
    var len, k := |data|, Gap(v, num, |data|);
    hide Appended;
    NextNumberFits(v, num, len, max);
    var g := PushBlank(v, len);
    DistanceBeforeSlide(v, num, len, max);
    AppendedFront(v, num, data);
    AppendContiguous(v.pkgs, len, Chunk(v.Back() + len, []));
    hide Fits;
    var d := Distance(g, num, len);
    hide Distance;
    assert g.pkgs[d].num == g.pkgs[0].num + d * len;
    Distribute(d, k - 1 - d, len);
  }

  lemma DistanceBeforeSlide(v: View, num: nat, len: nat, max: nat)
    requires len > 0 && Looping(v, num, len, max) && Loops(v, num, len) && Ahead(v, num, len)
    requires |v.pkgs| + 1 == v.size
    ensures v.Back() + len < TWO_64
    ensures Distance(PushBlank(v, len), num, len) <= Gap(v, num, len) - 1
  {
    var k := Gap(v, num, len);
    NextNumberFits(v, num, len, max);
    var g := PushBlank(v, len);
    AppendContiguous(v.pkgs, len, Chunk(v.Back() + len, []));
    Distribute(k - 1, 1, len);
    AheadBy(g, num, len, k - 1);
    DistanceMeans(g, num, len, max);
  }

  lemma AppendedFront(v: View, num: nat, data: seq<u8>)
    requires data != [] && v.pkgs != [] && Contiguous(v.pkgs, |data|) && Ahead(v, num, |data|)
    requires |v.pkgs| + 1 == v.size && Gap(v, num, |data|) >= 2
    ensures var k := Gap(v, num, |data|);
            var r := Appended(v, num, data, k);
            r != [] && r[0].num == v.pkgs[0].num + (k - 1) * |data|
  {
    var len, k := |data|, Gap(v, num, |data|);
    ExtendContiguous(v.pkgs, len, k - 1);
    var ext := Extended(v, len, k - 1);
    var all := ext + [Chunk(num, data)];
    assert |all| - v.size == k - 1;
    assert Appended(v, num, data, k) == all[k - 1..];
    assert all[k - 1] == ext[k - 1];
  }

  lemma EagerStepAhead(v: View, num: nat, data: seq<u8>, max: nat)
    requires data != [] && Looping(v, num, |data|, max) && Loops(v, num, |data|) && Ahead(v, num, |data|)
    ensures v.Back() + |data| < TWO_64
    ensures Add(EagerStep(v, num, |data|), num, data, max) == Add(v, num, data, max)
  {
    var len, k := |data|, Gap(v, num, |data|);
    EagerStepPushes(v, num, len, max);
    var w := EagerStep(v, num, len);
    PushTowardsAhead(v, w, num, data);
    EagerStepHoles(v, num, data, max);
    var r := Appended(v, num, data, k);
    SameAbove(v.holes + BlankNums(v, len, k), w.holes + BlankNums(w, len, k - 1), r[0].num);
  }

  lemma EagerStepHoles(v: View, num: nat, data: seq<u8>, max: nat)
    requires data != [] && Looping(v, num, |data|, max) && Loops(v, num, |data|) && Ahead(v, num, |data|)
    ensures v.Back() + |data| < TWO_64
    ensures var len, k, w := |data|, Gap(v, num, |data|), EagerStep(v, num, |data|);
            var r := Appended(v, num, data, k);
            && w.pkgs != [] && k >= 2 && r != []
            && forall h :: r[0].num <= h ==>
                 (h in v.holes + BlankNums(v, len, k) <==> h in w.holes + BlankNums(w, len, k - 1))
  {
    var len, k := |data|, Gap(v, num, |data|);
    EagerStepPushes(v, num, len, max);
    var w := EagerStep(v, num, len);
    PushShape(v, w, len);
    BlankNumsStep(v, w, len, k);
    EagerStepKeepsAbove(v, num, data, max);
  }

  lemma EagerStepKeepsAbove(v: View, num: nat, data: seq<u8>, max: nat)
    requires data != [] && Looping(v, num, |data|, max) && Loops(v, num, |data|) && Ahead(v, num, |data|)
    ensures v.Back() + |data| < TWO_64
    ensures var w := EagerStep(v, num, |data|);
            var r := Appended(v, num, data, Gap(v, num, |data|));
            && r != []
            && w.holes <= v.holes + {v.Back() + |data|}
            && forall h :: h in v.holes + {v.Back() + |data|} && r[0].num <= h ==> h in w.holes
  {
    NextNumberFits(v, num, |data|, max);
    if |v.pkgs| + 1 == v.size {
      EagerBoundIsSafe(v, num, data, max);
    }
  }

  lemma SameAbove(a: set<nat>, b: set<nat>, bound: nat)
    requires forall h :: bound <= h ==> (h in a <==> h in b)
    ensures (set h | h in a && bound <= h) == (set h | h in b && bound <= h)
  {
  }

  lemma EagerStepOther(v: View, num: nat, data: seq<u8>, max: nat)
    requires data != [] && Looping(v, num, |data|, max) && Loops(v, num, |data|) && !Ahead(v, num, |data|)
    ensures v.Back() + |data| < TWO_64
    ensures Add(EagerStep(v, num, |data|), num, data, max) == Add(v, num, data, max)
  {
    var len := |data|;
    EagerStepPushes(v, num, len, max);
    var w := EagerStep(v, num, len);
    PushShape(v, w, len);
    PushPastOther(v, w, num, len);
    if num < w.Front() {
      var g := PushBlank(v, len);
      AppendContiguous(v.pkgs, len, Chunk(v.Back() + len, []));
      assert g.Back() > num by { if |v.pkgs| > 1 { NumsIncrease(v.pkgs, len, 0, |v.pkgs| - 1); } }
      DistanceMeans(g, num, len, max);
      assert w.holes == {w.Back()};
    }
  }

  /** No hole is numbered below the front. */
  ghost predicate HolesInside(v: View)
    requires v.pkgs != []
  {
    forall h :: h in v.holes ==> v.Front() <= h
  }

  lemma EagerStepHolesInside(v: View, num: nat, len: nat, max: nat)
    requires len > 0 && Looping(v, num, len, max) && Loops(v, num, len) && Ahead(v, num, len) && HolesInside(v)
    ensures v.Back() + len < TWO_64
    ensures EagerStep(v, num, len).pkgs != [] && HolesInside(EagerStep(v, num, len))
  {
    EagerStepPushes(v, num, len, max);
    var g := PushBlank(v, len);
    AppendContiguous(v.pkgs, len, Chunk(v.Back() + len, []));
    PushShape(v, EagerStep(v, num, len), len);
    if |g.pkgs| == g.size {
      var k := Gap(v, num, len);
      Distribute(k - 1, 1, len);
      AheadBy(g, num, len, k - 1);
      DistanceMeans(g, num, len, max);
      var d := Distance(g, num, len);
      if d > 1 { NumsIncrease(g.pkgs, len, 1, d); }
    } else if |v.pkgs| > 1 {
      NumsIncrease(v.pkgs, len, 0, |v.pkgs| - 1);
    }
  }

  /** One iteration of the code's loop does not change where the arrival ends up: packages and hole index alike. */
  lemma EagerStepKeepsAdd(v: View, num: nat, data: seq<u8>, max: nat)
    requires data != [] && Looping(v, num, |data|, max) && Loops(v, num, |data|)
    ensures v.Back() + |data| < TWO_64
    ensures Add(EagerStep(v, num, |data|), num, data, max) == Add(v, num, data, max)
    ensures Looping(EagerStep(v, num, |data|), num, |data|, max)
    ensures (Ahead(v, num, |data|) ==> HolesInside(v)) ==>
              (Ahead(EagerStep(v, num, |data|), num, |data|) ==> HolesInside(EagerStep(v, num, |data|)))
  {
    EagerStepPushes(v, num, |data|, max);
    if Ahead(v, num, |data|) {
      EagerStepAhead(v, num, data, max);
      if HolesInside(v) { EagerStepHolesInside(v, num, |data|, max); }
    } else {
      PushPastOther(v, EagerStep(v, num, |data|), num, |data|);
      EagerStepOther(v, num, data, max);
    }
  }

  /** The loop of `add_to_buffor` with the index kept lazily. */
  ghost function LazyLoop(v: View, num: nat, data: seq<u8>): View
    requires data != [] && v.pkgs != [] && Contiguous(v.pkgs, |data|)
    decreases if v.Front() <= num then num - v.Front() + 1 else 0, if |v.pkgs| < v.size then v.size - |v.pkgs| else 0
  {
    if Ignored(v, num) then v
    else if v.Back() + |data| == num then v.(pkgs := v.pkgs + [Chunk(num, data)])
    else
      PushShape(v, LazyStep(v, |data|), |data|);
      LazyLoop(LazyStep(v, |data|), num, data)
  }

  /** `add_to_buffor` if each pop forgot only the popped package's number. */
  ghost function LazyAdd(v: View, num: nat, data: seq<u8>, max: nat): View
    requires data != [] && Contiguous(v.pkgs, |data|)
  {
    if num in v.holes || v.pkgs == [] then Add(v, num, data, max) else LazyLoop(v, num, data)
  }

  /** The lazy index never misses more than it missed before: here the numbers in `lost`. */
  lemma LazyStepIndex(v: View, len: nat, lost: set<nat>)
    requires len > 0 && v.pkgs != [] && Contiguous(v.pkgs, len) && |v.pkgs| < v.size
    requires v.holes == EmptyNums(v.pkgs) - lost && forall h :: h in lost ==> h <= v.Back()
    ensures LazyStep(v, len).holes == EmptyNums(LazyStep(v, len).pkgs) - lost
  {
    var b := Chunk(v.Back() + len, []);
    var g := v.pkgs + [b];
    ConcatEmptyNums(v.pkgs, [b]);
    assert EmptyNums([b]) == {b.num} by { assert [b][0].num in EmptyNums([b]); }
    if |g| == v.size {
      AppendContiguous(v.pkgs, len, b);
      DropFirstEmptyNums(g, len);
    }
  }

  lemma DropFirstEmptyNums(g: seq<Chunk>, len: nat)
    requires len > 0 && Contiguous(g, len) && |g| > 1
    ensures EmptyNums(g[1..]) == EmptyNums(g) - {g[0].num}
  {
    DropEmptyNums(g, len, 1);
    forall h | h in EmptyNums(g) ensures h == g[0].num <==> h < g[1].num {
      var i :| 0 <= i < |g| && g[i].data == [] && g[i].num == h;
      NumsIncrease(g, len, 0, 1);
      if i > 1 { NumsIncrease(g, len, 1, i); }
    }
  }

  lemma NextIsAppended(v: View, num: nat, data: seq<u8>)
    requires data != [] && v.pkgs != [] && !Ignored(v, num) && v.Back() + |data| == num
    ensures Ahead(v, num, |data|) && Gap(v, num, |data|) == 1
    ensures Appended(v, num, data, 1) == v.pkgs + [Chunk(num, data)]
  {
    AheadBy(v, num, |data|, 1);
    assert Extended(v, |data|, 0) == v.pkgs;
  }

  /** The lazy loop ends with the packages of the closed form. */
  lemma {:induction false} LazyLoopPackages(v: View, num: nat, data: seq<u8>, max: nat)
    requires data != [] && v.pkgs != [] && Contiguous(v.pkgs, |data|) && num !in v.holes
    ensures LazyLoop(v, num, data).pkgs == Add(v, num, data, max).pkgs
    ensures LazyLoop(v, num, data).size == Add(v, num, data, max).size
    decreases if v.Front() <= num then num - v.Front() + 1 else 0, if |v.pkgs| < v.size then v.size - |v.pkgs| else 0
  {
    var len := |data|;
    if Ignored(v, num) {
    } else if v.Back() + len == num {
      NextIsAppended(v, num, data);
    } else {
      var w := LazyStep(v, len);
      PushShape(v, w, len);
      LazyLoopPackages(w, num, data, max);
      if Ahead(v, num, len) {
        PushTowardsAhead(v, w, num, data);
      } else {
        PushPastOther(v, w, num, len);
      }
    }
  }

  /** ... and with an index of all its empty packages but those the index missed from the start. */
  lemma {:induction false} LazyLoopIndex(v: View, num: nat, data: seq<u8>, lost: set<nat>)
    requires data != [] && v.pkgs != [] && Contiguous(v.pkgs, |data|)
    requires v.holes == EmptyNums(v.pkgs) - lost && forall h :: h in lost ==> h <= v.Back()
    ensures LazyLoop(v, num, data).holes == EmptyNums(LazyLoop(v, num, data).pkgs) - lost
    decreases if v.Front() <= num then num - v.Front() + 1 else 0, if |v.pkgs| < v.size then v.size - |v.pkgs| else 0
  {
    hide EmptyNums;
    if Ignored(v, num) {
    } else if v.Back() + |data| == num {
      ConcatEmptyNums(v.pkgs, [Chunk(num, data)]);
      assert EmptyNums([Chunk(num, data)]) == {} by { OneReceived(Chunk(num, data)); }
    } else {
      LazyStepIndex(v, |data|, lost);
      PushShape(v, LazyStep(v, |data|), |data|);
      LazyLoopIndex(LazyStep(v, |data|), num, data, lost);
    }
  }

  lemma OneReceived(c: Chunk)
    requires c.data != []
    ensures EmptyNums([c]) == {}
  {
  }

  /** The `size - 2` places after `q` are all in the window, and the index asks for none of them. */
  predicate NoHoleAfter(v: View, q: nat) {
    v.size <= 2 ||
    (q + v.size - 1 <= |v.pkgs| && forall i :: q < i < q + v.size - 1 ==> v.pkgs[i].num !in v.holes)
  }

  /** The empty packages the index of a window misses. */
  ghost function Lost(v: View): set<nat> {
    EmptyNums(v.pkgs) - v.holes
  }

  /**
   * Forgetting at once all the holes about to be evicted, as the code does, ends in the same window and the same index
   * as forgetting each evicted package as it goes: always for an arrival ahead of the window, a hole, or one there is
   * no room for; and for any other exactly if no hole stood behind its place.
   */
  lemma EagerIsLazyIff(v: View, num: nat, data: seq<u8>, max: nat)
    requires data != [] && WellFormed(v, |data|, max)
    ensures LazyAdd(v, num, data, max).pkgs == Add(v, num, data, max).pkgs
    ensures LazyAdd(v, num, data, max) == Add(v, num, data, max) <==>
            (Disturbs(v, num, |data|) ==> NoHoleAfter(v, Place(v, num, |data|)))
  {
    hide WellFormed;
    if num !in v.holes && v.pkgs != [] {
      assert Contiguous(v.pkgs, |data|) by { WindowShape(v, |data|, max); }
      LazyAddOnLoop(v, num, data, max);
      if Ignored(v, num) {
      } else if Ahead(v, num, |data|) {
        AheadIndex(v, num, data, max);
      } else {
        FlushedIndexIff(v, num, |data|, max);
      }
    }
  }

  lemma LazyAddOnLoop(v: View, num: nat, data: seq<u8>, max: nat)
    requires data != [] && WellFormed(v, |data|, max) && num !in v.holes && v.pkgs != []
    ensures var l, w := LazyLoop(v, num, data), Add(v, num, data, max);
            l == View(w.pkgs, EmptyNums(w.pkgs) - Lost(v), w.size)
  {
    hide LazyLoop, Add, EmptyNums;
    LazyLoopPackages(v, num, data, max);
    WindowShape(v, |data|, max);
    LazyLoopIndex(v, num, data, Lost(v));
  }

  lemma WindowShape(v: View, len: nat, max: nat)
    requires WellFormed(v, len, max)
    ensures Contiguous(v.pkgs, len) && v.holes == EmptyNums(v.pkgs) - Lost(v)
    ensures v.pkgs != [] ==> forall h :: h in EmptyNums(v.pkgs) ==> h <= v.Back()
  {
    if v.pkgs != [] { LastIsLargest(v, len); BackIsLast(v, len); }
  }

  lemma BackIsLast(v: View, len: nat)
    requires len > 0 && v.pkgs != [] && Contiguous(v.pkgs, len)
    ensures forall h :: h in EmptyNums(v.pkgs) ==> h <= v.Back()
  {
    forall h | h in EmptyNums(v.pkgs) ensures h <= v.Back() {
      var i :| 0 <= i < |v.pkgs| && v.pkgs[i].num == h;
      if i < |v.pkgs| - 1 { NumsIncrease(v.pkgs, len, i, |v.pkgs| - 1); }
    }
  }

  lemma AheadIndex(v: View, num: nat, data: seq<u8>, max: nat)
    requires data != [] && WellFormed(v, |data|, max) && v.pkgs != []
    requires num !in v.holes && !Ignored(v, num) && Ahead(v, num, |data|)
    ensures var w := Add(v, num, data, max); w.holes == EmptyNums(w.pkgs) - Lost(v)
  {
    hide WellFormed, EmptyNums;
    AppendedEmptyNums(v, num, data, max);
    WindowShape(v, |data|, max);
    BlankNumsAhead(v, |data|, Gap(v, num, |data|));
  }

  lemma BlankNumsAhead(v: View, len: nat, k: nat)
    requires len > 0 && v.pkgs != []
    ensures forall h :: h in BlankNums(v, len, k) ==> h > v.Back()
  {
    forall h | h in BlankNums(v, len, k) ensures h > v.Back() {
      var i: nat :| 1 <= i < k && h == v.Back() + i * len;
      Positive(i, len);
    }
  }

  /** Of a flushed window, only the last package is asked for; lazily, every empty one not lost before would be. */
  lemma FlushedIndexIff(v: View, num: nat, len: nat, max: nat)
    requires len > 0 && WellFormed(v, len, max) && v.pkgs != [] && !Ignored(v, num)
    ensures var q := Place(v, num, len);
            var r := Flushed(v, len, q);
            r != [] && (EmptyNums(r) - Lost(v) == {r[|r| - 1].num} <==> NoHoleAfter(v, q))
  {
    hide WellFormed, EmptyNums, Contiguous, Blanks;
    var q := Place(v, num, len);
    var r := Flushed(v, len, q);
    assert Contiguous(r, len) by { FlushedShape(v, num, len, max); }
    FlushedElements(v, len, q);
    FlushedAsked(v, num, len, max);
    OnlyLastAskedIff(r, len, Lost(v));
  }

  lemma OnlyLastAskedIff(r: seq<Chunk>, len: nat, lost: set<nat>)
    requires len > 0 && Contiguous(r, len) && r != [] && r[|r| - 1].data == [] && r[|r| - 1].num !in lost
    ensures EmptyNums(r) - lost == {r[|r| - 1].num} <==> forall i :: 0 <= i < |r| - 1 ==> r[i].data != [] || r[i].num in lost
  {
    assert r[|r| - 1].num in EmptyNums(r);
    if EmptyNums(r) - lost == {r[|r| - 1].num} {
      forall i | 0 <= i < |r| - 1 ensures r[i].data != [] || r[i].num in lost {
        NumsIncrease(r, len, i, |r| - 1);
        assert r[i].num !in EmptyNums(r) - lost;
      }
    }
  }

  /** Which packages of a flushed window the lazy index would ask for: the blanks, and the holes it had. */
  lemma FlushedAsked(v: View, num: nat, len: nat, max: nat)
    requires len > 0 && WellFormed(v, len, max) && v.pkgs != [] && !Ignored(v, num)
    ensures var q := Place(v, num, len);
            var r := Flushed(v, len, q);
            && |r| == v.size - 1 && r != [] && r[|r| - 1].num !in Lost(v)
            && (NoHoleAfter(v, q) <==> forall i :: 0 <= i < |r| - 1 ==> r[i].data != [] || r[i].num in Lost(v))
  {
    hide WellFormed, Contiguous, Blanks;
    var q := Place(v, num, len);
    var r := Flushed(v, len, q);
    FlushedElements(v, len, q);
    forall i | 0 <= i < |r|
      ensures r[i].data != [] || r[i].num in Lost(v) <==> q + 1 + i < |v.pkgs| && v.pkgs[q + 1 + i].num !in v.holes
    {
      if q + 1 + i < |v.pkgs| {
        AskedOrLost(v, len, max, q + 1 + i);
      } else {
        FlushedBlankIsNew(v, num, len, max, i);
      }
    }
    AllAfter(v, q, r);
  }

  lemma AllAfter(v: View, q: nat, r: seq<Chunk>)
    requires v.pkgs != [] && |v.pkgs| < v.size && |r| == v.size - 1
    requires forall i :: 0 <= i < |r| ==>
               (r[i].data != [] || r[i].num in Lost(v) <==> q + 1 + i < |v.pkgs| && v.pkgs[q + 1 + i].num !in v.holes)
    ensures NoHoleAfter(v, q) <==> forall i :: 0 <= i < |r| - 1 ==> r[i].data != [] || r[i].num in Lost(v)
  {
    hide Lost;
    if v.size > 2 && forall i :: 0 <= i < |r| - 1 ==> r[i].data != [] || r[i].num in Lost(v) {
      assert r[v.size - 3].data != [] || r[v.size - 3].num in Lost(v);
      forall j | q < j < q + v.size - 1 ensures v.pkgs[j].num !in v.holes {
        assert r[j - q - 1].data != [] || r[j - q - 1].num in Lost(v);
      }
    }
  }

  lemma AskedOrLost(v: View, len: nat, max: nat, i: nat)
    requires WellFormed(v, len, max) && i < |v.pkgs|
    ensures v.pkgs[i].data != [] || v.pkgs[i].num in Lost(v) <==> v.pkgs[i].num !in v.holes
  {
    if v.pkgs[i].num in v.holes {
      var j :| 0 <= j < |v.pkgs| && v.pkgs[j].data == [] && v.pkgs[j].num == v.pkgs[i].num;
      if i < j { NumsIncrease(v.pkgs, len, i, j); } else if j < i { NumsIncrease(v.pkgs, len, j, i); }
    }
  }

  lemma FlushedBlankIsNew(v: View, num: nat, len: nat, max: nat, i: nat)
    requires len > 0 && WellFormed(v, len, max) && v.pkgs != [] && !Ignored(v, num)
    requires Place(v, num, len) + 1 + i >= |v.pkgs| && i < v.size - 1
    ensures var r := Flushed(v, len, Place(v, num, len));
            i < |r| && r[i].data == [] && r[i].num !in Lost(v)
  {
    hide WellFormed, EmptyNums;
    var q := Place(v, num, len);
    var all := Extended(v, len, q + v.size - |v.pkgs|);
    FlushedShape(v, num, len, max);
    FlushedElements(v, len, q);
    assert all[|v.pkgs| - 1] == v.pkgs[|v.pkgs| - 1];
    NumsIncrease(all, len, |v.pkgs| - 1, q + 1 + i);
    WindowShape(v, len, max);
  }

  /** For an exact index, no hole after `q` means that everything after it has been received. */
  lemma NoHoleMeansReceived(v: View, len: nat, max: nat, q: nat)
    requires WellFormed(v, len, max) && Exact(v)
    ensures NoHoleAfter(v, q) <==> ReceivedAfter(v, q)
  {
    hide WellFormed;
    forall i | 0 <= i < |v.pkgs| ensures v.pkgs[i].num !in v.holes <==> v.pkgs[i].data != [] {
      AskedOrLost(v, len, max, i);
    }
  }

  /** Between two iterations of the loop: the arrival still ends up where it would have from the first. */
  ghost predicate MidLoop(v0: View, v: View, num: nat, data: seq<u8>, max: nat)
    requires data != []
  {
    && Looping(v, num, |data|, max)
    && (Ahead(v, num, |data|) ==> HolesInside(v))
    && Add(v, num, data, max) == Add(v0, num, data, max)
  }

  lemma LoopBegins(v: View, num: nat, data: seq<u8>, max: nat)
    requires data != [] && max < TWO_63 && v.pkgs != [] && num !in v.holes && num + max < TWO_64
    requires Admits(v, |data|, max)
    ensures if |v.pkgs| < v.size then MidLoop(v, v, num, data, max) else Add(v, num, data, max) == v
  {
    forall h | h in v.holes ensures v.Front() <= h <= v.Back() {
      var i :| 0 <= i < |v.pkgs| && v.pkgs[i].num == h;
      if i > 0 { NumsIncrease(v.pkgs, |data|, 0, i); }
      if i < |v.pkgs| - 1 { NumsIncrease(v.pkgs, |data|, i, |v.pkgs| - 1); }
    }
  }

  lemma LoopFacts(v0: View, v: View, num: nat, data: seq<u8>, max: nat)
    requires data != [] && MidLoop(v0, v, num, data, max)
    ensures v.pkgs != [] && v.Back() < TWO_64
    ensures num < v.Front() ==> v == Add(v0, num, data, max)
    ensures num >= v.Front() ==> v.Back() + |data| < TWO_64
    ensures num >= v.Front() && v.Back() + |data| == num ==>
              num !in v.holes && v.(pkgs := v.pkgs + [Chunk(num, data)]) == Add(v0, num, data, max)
    ensures num >= v.Front() ==> forall i :: 0 <= i < |v.pkgs| ==> v.pkgs[i].num < v.Back() + |data|
  {
    if num >= v.Front() {
      NextNumberFits(v, num, |data|, max);
      LastIsLargest(v, |data|);
      if v.Back() + |data| == num {
        AppendIsAdd(v, num, data, max);
      }
    }
  }

  lemma LoopAdvances(v0: View, v: View, num: nat, data: seq<u8>, max: nat)
    requires data != [] && MidLoop(v0, v, num, data, max)
    requires v.Front() <= num && v.Back() + |data| != num
    ensures v.Back() + |data| < TWO_64
    ensures var w := EagerStep(v, num, |data|);
            && MidLoop(v0, w, num, data, max) && w.pkgs != []
            && w.size == v.size && |w.pkgs| < w.size
            && if |v.pkgs| + 1 == v.size then w.Front() == v.Front() + |data|
               else w.Front() == v.Front() && |w.pkgs| == |v.pkgs| + 1
  {
    EagerStepKeepsAdd(v, num, data, max);
    PushShape(v, EagerStep(v, num, |data|), |data|);
  }

  /** The very next package is simply appended. */
  lemma AppendIsAdd(v: View, num: nat, data: seq<u8>, max: nat)
    requires data != [] && Looping(v, num, |data|, max) && (Ahead(v, num, |data|) ==> HolesInside(v))
    requires !Ignored(v, num) && v.Back() + |data| == num
    ensures Add(v, num, data, max) == v.(pkgs := v.pkgs + [Chunk(num, data)])
  {
    NextIsAppended(v, num, data);
    assert BlankNums(v, |data|, 1) == {};
  }

  lemma LastIsLargest(v: View, len: nat)
    requires len > 0 && v.pkgs != [] && Contiguous(v.pkgs, len)
    ensures forall i :: 0 <= i < |v.pkgs| ==> v.pkgs[i].num < v.Back() + len
  {
    forall i | 0 <= i < |v.pkgs| ensures v.pkgs[i].num < v.Back() + len {
      if i < |v.pkgs| - 1 { NumsIncrease(v.pkgs, len, i, |v.pkgs| - 1); }
    }
  }

  /** Numbers stay in the 64-bit range. */
  lemma AddStaysBelow(v: View, num: nat, data: seq<u8>, max: nat)
    requires data != [] && WellFormed(v, |data|, max) && v.pkgs != [] && v.Back() < TWO_64 && num + max < TWO_64
    ensures var w := Add(v, num, data, max); w.pkgs != [] && w.Back() < TWO_64
  {
    var len := |data|;
    if num in v.holes {
    } else if Ignored(v, num) {
    } else if Ahead(v, num, len) {
      AppendedShape(v, num, data, max);
    } else {
      FlushedShape(v, num, len, max);
      FlushedBack(v, num, len, max);
    }
  }

  /** An arrival whose window has 64-bit numbers leaves a window the receiver can be in. */
  lemma AddKeepsAdmits(v: View, num: nat, data: seq<u8>, max: nat)
    requires data != [] && num + max < TWO_64 && Admits(v, |data|, max)
    ensures Admits(Add(v, num, data, max), |data|, max)
  {
    AddKeepsWellFormed(v, num, data, max);
    if v.pkgs != [] {
      AddStaysBelow(v, num, data, max);
    }
    AddCases(v, num, data, max);
    hide Add, WellFormed;
  }

  lemma FlushedBack(v: View, num: nat, len: nat, max: nat)
    requires WellFormed(v, len, max) && v.pkgs != [] && !Ignored(v, num)
    ensures var r := Flushed(v, len, Place(v, num, len)); r != [] && r[|r| - 1].num <= num + max
  {
    var q := Place(v, num, len);
    var all := Extended(v, len, q + v.size - |v.pkgs|);
    var r := Flushed(v, len, q);
    assert all[|all| - 1].num == v.Front() + (q + v.size - 1) * len && r[|r| - 1] == all[|all| - 1] by {
      FlushedShape(v, num, len, max);
    }
    LastPlaceBelow(num - v.Front(), len, max, v.size - 1);
  }

  lemma LastPlaceBelow(x: nat, len: nat, max: nat, i: nat)
    requires len > 0 && i <= max / len
    ensures (x / len + i) * len <= x + max
  {
    Distribute(x / len, i, len);
    SizeTimesLen(len, max, i);
    assert x == len * (x / len) + x % len;
  }

  lemma AddCases(v: View, num: nat, data: seq<u8>, max: nat)
    requires data != [] && Admits(v, |data|, max)
    ensures num in v.holes ==>
              num in EmptyNums(v.pkgs) && Add(v, num, data, max) == View(Fill(v.pkgs, num, data), v.holes - {num}, v.size)
    ensures v.pkgs == [] ==> v.holes == {} && Add(v, num, data, max) == View([Chunk(num, data)], {}, max / |data|)
    ensures num in v.holes || v.pkgs == [] ==> Evicted(v, num, |data|) == 0
  {
  }
}
