/** What every arrival does to the window: the invariant it keeps, the hole index it leaves, the order it preserves. */
module WindowFacts {
  import opened Bytes
  import opened Window

  lemma Distribute(i: int, j: int, len: int)
    ensures (i + j) * len == i * len + j * len
  {
  }

  lemma Positive(i: int, len: int)
    requires i >= 1 && len > 0
    ensures i * len >= len
  {
    Distribute(i - 1, 1, len);
    assert (i - 1) * len >= 0;
  }

  /** In a contiguous window a smaller place means a number smaller by at least `len`. */
  lemma NumsIncrease(pkgs: seq<Chunk>, len: nat, i: nat, j: nat)
    requires len > 0 && Contiguous(pkgs, len) && i < j < |pkgs|
    ensures pkgs[j].num == pkgs[i].num + (j - i) * len
    ensures pkgs[i].num + len <= pkgs[j].num
  {
    Distribute(i, j - i, len);
    Positive(j - i, len);
  }

  lemma DropContiguous(pkgs: seq<Chunk>, len: nat, a: nat)
    requires Contiguous(pkgs, len) && a <= |pkgs|
    ensures Contiguous(pkgs[a..], len)
  {
    var r := pkgs[a..];
    forall i | 0 <= i < |r| ensures r[i].num == r[0].num + i * len {
      Distribute(a, i, len);
    }
  }

  /** Blanks continue the numbering of the window they are put behind. */
  lemma ExtendContiguous(pkgs: seq<Chunk>, len: nat, k: nat)
    requires Contiguous(pkgs, len) && pkgs != []
    ensures Contiguous(pkgs + Blanks(pkgs[|pkgs| - 1].num + len, len, k), len)
  {
    var n := |pkgs|;
    var b := Blanks(pkgs[n - 1].num + len, len, k);
    var all := pkgs + b;
    forall i | 0 <= i < |all| ensures all[i].num == all[0].num + i * len {
      if i >= n {
        Distribute(n - 1, i - n + 1, len);
        Distribute(i - n, 1, len);
        assert all[i] == b[i - n];
      }
    }
  }

  lemma AppendContiguous(pkgs: seq<Chunk>, len: nat, c: Chunk)
    requires Contiguous(pkgs, len) && pkgs != [] && c.num == pkgs[|pkgs| - 1].num + len
    ensures Contiguous(pkgs + [c], len)
  {
    var all := pkgs + [c];
    forall i | 0 <= i < |all| ensures all[i].num == all[0].num + i * len {
      if i == |pkgs| { Distribute(i - 1, 1, len); }
    }
  }

  lemma AppendedShape(v: View, num: nat, data: seq<u8>, max: nat)
    requires data != [] && WellFormed(v, |data|, max) && v.pkgs != [] && !Ignored(v, num) && Ahead(v, num, |data|)
    ensures var k := Gap(v, num, |data|);
            var all := Extended(v, |data|, k - 1) + [Chunk(num, data)];
            && Contiguous(all, |data|)
            && Appended(v, num, data, k) == Last(all, if |all| < v.size then |all| else v.size)
            && Contiguous(Appended(v, num, data, k), |data|)
  {
    var len, k := |data|, Gap(v, num, |data|);
    var ext := Extended(v, len, k - 1);
    ExtendContiguous(v.pkgs, len, k - 1);
    assert ext[|ext| - 1].num + len == num by {
      Distribute(k - 1, 1, len);
      if k > 1 { Distribute(k - 2, 1, len); }
    }
    AppendContiguous(ext, len, Chunk(num, data));
    var all := ext + [Chunk(num, data)];
    var m := if |all| < v.size then |all| else v.size;
    DropContiguous(all, len, |all| - m);
  }

  lemma FlushedShape(v: View, num: nat, len: nat, max: nat)
    requires WellFormed(v, len, max) && v.pkgs != [] && !Ignored(v, num)
    ensures var q := Place(v, num, len);
            var all := Extended(v, len, q + v.size - |v.pkgs|);
            && Contiguous(all, len)
            && Flushed(v, len, q) == all[q + 1..]
            && |all| == q + v.size
            && Contiguous(Flushed(v, len, q), len)
  {
    var q := Place(v, num, len);
    ExtendContiguous(v.pkgs, len, q + v.size - |v.pkgs|);
    DropContiguous(Extended(v, len, q + v.size - |v.pkgs|), len, q + 1);
  }

  lemma DropEmptyNums(pkgs: seq<Chunk>, len: nat, a: nat)
    requires len > 0 && Contiguous(pkgs, len) && a < |pkgs|
    ensures EmptyNums(pkgs[a..]) == set h | h in EmptyNums(pkgs) && pkgs[a].num <= h
  {
    var r := pkgs[a..];
    forall h | h in EmptyNums(r) ensures h in EmptyNums(pkgs) && pkgs[a].num <= h {
      var i :| 0 <= i < |r| && r[i].data == [] && r[i].num == h;
      assert pkgs[a + i] == r[i];
      if i > 0 { NumsIncrease(pkgs, len, a, a + i); }
    }
    forall h | h in EmptyNums(pkgs) && pkgs[a].num <= h ensures h in EmptyNums(r) {
      var i :| 0 <= i < |pkgs| && pkgs[i].data == [] && pkgs[i].num == h;
      if i < a { NumsIncrease(pkgs, len, i, a); }
      assert r[i - a] == pkgs[i];
    }
  }

  lemma ConcatEmptyNums(a: seq<Chunk>, b: seq<Chunk>)
    ensures EmptyNums(a + b) == EmptyNums(a) + EmptyNums(b)
  {
    var s := a + b;
    forall h | h in EmptyNums(a) + EmptyNums(b) ensures h in EmptyNums(s) {
      if h in EmptyNums(a) {
        var i :| 0 <= i < |a| && a[i].data == [] && a[i].num == h;
        assert s[i] == a[i];
      } else {
        var i :| 0 <= i < |b| && b[i].data == [] && b[i].num == h;
        assert s[|a| + i] == b[i];
      }
    }
  }

  lemma BlankNumsAreBlanks(v: View, len: nat, k: nat)
    requires v.pkgs != [] && k >= 1
    ensures EmptyNums(Blanks(v.Back() + len, len, k - 1)) == BlankNums(v, len, k)
  {
    var b := Blanks(v.Back() + len, len, k - 1);
    forall h | h in EmptyNums(b) ensures h in BlankNums(v, len, k) {
      var i :| 0 <= i < |b| && b[i].num == h;
      Distribute(i, 1, len);
      assert h == v.Back() + (i + 1) * len;
    }
    forall h | h in BlankNums(v, len, k) ensures h in EmptyNums(b) {
      var i: nat :| 1 <= i < k && h == v.Back() + i * len;
      Distribute(i - 1, 1, len);
      assert b[i - 1].num == h;
    }
  }

  lemma FillEmptyNums(v: View, num: nat, data: seq<u8>)
    requires data != []
    ensures EmptyNums(Fill(v.pkgs, num, data)) == EmptyNums(v.pkgs) - {num}
  {
    var r := Fill(v.pkgs, num, data);
    forall h | h in EmptyNums(v.pkgs) - {num} ensures h in EmptyNums(r) {
      var i :| 0 <= i < |v.pkgs| && v.pkgs[i].data == [] && v.pkgs[i].num == h;
      assert r[i] == v.pkgs[i];
    }
  }

  lemma ExtendedEmptyNums(v: View, len: nat, k: nat, c: Chunk)
    requires v.pkgs != [] && k >= 1 && c.data != []
    ensures EmptyNums(Extended(v, len, k - 1) + [c]) == EmptyNums(v.pkgs) + BlankNums(v, len, k)
  {
    ConcatEmptyNums(v.pkgs, Blanks(v.Back() + len, len, k - 1));
    ConcatEmptyNums(Extended(v, len, k - 1), [c]);
    assert EmptyNums([c]) == {};
    BlankNumsAreBlanks(v, len, k);
  }

  /** The empty packages an arrival ahead leaves: the old ones and the skipped ones that are still in the window. */
  lemma AppendedEmptyNums(v: View, num: nat, data: seq<u8>, max: nat)
    requires data != [] && WellFormed(v, |data|, max) && v.pkgs != [] && !Ignored(v, num) && Ahead(v, num, |data|)
    ensures var k := Gap(v, num, |data|);
            var pkgs := Appended(v, num, data, k);
            && pkgs != []
            && EmptyNums(pkgs) == set h | h in EmptyNums(v.pkgs) + BlankNums(v, |data|, k) && pkgs[0].num <= h
  {
    var len, k := |data|, Gap(v, num, |data|);
    var all := Extended(v, len, k - 1) + [Chunk(num, data)];
    AppendedShape(v, num, data, max);
    ExtendedEmptyNums(v, len, k, Chunk(num, data));
    LastEmptyNums(all, len, if |all| < v.size then |all| else v.size);
  }

  lemma LastEmptyNums(all: seq<Chunk>, len: nat, m: nat)
    requires len > 0 && Contiguous(all, len) && 1 <= m <= |all|
    ensures EmptyNums(Last(all, m)) == set h | h in EmptyNums(all) && Last(all, m)[0].num <= h
  {
    DropEmptyNums(all, len, |all| - m);
    assert Last(all, m)[0] == all[|all| - m];
  }

  /** Every arrival, whatever its number, keeps the window contiguous, in bounds, and its index within the empty packages. */
  lemma AddKeepsWellFormed(v: View, num: nat, data: seq<u8>, max: nat)
    requires data != [] && WellFormed(v, |data|, max)
    ensures WellFormed(Add(v, num, data, max), |data|, max)
  {
    var len := |data|;
    if num in v.holes {
      FillEmptyNums(v, num, data);
    } else if v.pkgs == [] || Ignored(v, num) {
    } else if Ahead(v, num, len) {
      AppendedKeepsWellFormed(v, num, data, max);
    } else {
      FlushedKeepsWellFormed(v, num, len, max);
    }
  }

  lemma AppendedKeepsWellFormed(v: View, num: nat, data: seq<u8>, max: nat)
    requires data != [] && WellFormed(v, |data|, max) && v.pkgs != [] && !Ignored(v, num) && Ahead(v, num, |data|)
    ensures var k := Gap(v, num, |data|);
            var pkgs := Appended(v, num, data, k);
            && pkgs != []
            && WellFormed(View(pkgs, (set h | h in v.holes + BlankNums(v, |data|, k) && pkgs[0].num <= h), v.size),
                          |data|, max)
  {
    AppendedShape(v, num, data, max);
    AppendedEmptyNums(v, num, data, max);
  }

  lemma FlushedKeepsWellFormed(v: View, num: nat, len: nat, max: nat)
    requires WellFormed(v, len, max) && v.pkgs != [] && !Ignored(v, num)
    ensures var r := Flushed(v, len, Place(v, num, len));
            r != [] && WellFormed(View(r, {r[|r| - 1].num}, v.size), len, max)
  {
    FlushedShape(v, num, len, max);
    var q := Place(v, num, len);
    FlushedElements(v, len, q);
    var r := Flushed(v, len, q);
    assert r[|r| - 1].num in EmptyNums(r);
  }

  lemma FlushedElements(v: View, len: nat, q: nat)
    requires v.pkgs != [] && |v.pkgs| < v.size
    ensures var r := Flushed(v, len, q);
            && |r| == v.size - 1
            && r[|r| - 1].data == []
            && forall i :: 0 <= i < |r| ==>
                 if q + 1 + i < |v.pkgs| then r[i] == v.pkgs[q + 1 + i] else r[i].data == []
  {
  }

  /** An arrival the index does not know, with room in the window, that is not ahead of the back. */
  predicate Disturbs(v: View, num: nat, len: nat)
    requires len > 0
  {
    num !in v.holes && v.pkgs != [] && !Ignored(v, num) && !Ahead(v, num, len)
  }

  /** The `size - 2` places after `q` all hold received packages. */
  predicate ReceivedAfter(v: View, q: nat) {
    v.size <= 2 ||
    (q + v.size - 1 <= |v.pkgs| && forall i :: q < i < q + v.size - 1 ==> v.pkgs[i].data != [])
  }

  /**
   * Exactly when an arrival leaves every empty package indexed: it must not be a duplicate of a received package
   * (or misaligned), unless the places behind it are all received.
   */
  lemma AddKeepsExactIff(v: View, num: nat, data: seq<u8>, max: nat)
    requires data != [] && WellFormed(v, |data|, max) && Exact(v)
    ensures Exact(Add(v, num, data, max)) <==>
            (Disturbs(v, num, |data|) ==> ReceivedAfter(v, Place(v, num, |data|)))
  {
    var len := |data|;
    if num in v.holes {
      FillEmptyNums(v, num, data);
    } else if v.pkgs == [] || Ignored(v, num) {
    } else if Ahead(v, num, len) {
      AppendedEmptyNums(v, num, data, max);
    } else {
      FlushedExactIff(v, num, len, max);
    }
  }

  lemma FlushedExactIff(v: View, num: nat, len: nat, max: nat)
    requires WellFormed(v, len, max) && v.pkgs != [] && !Ignored(v, num)
    ensures var q := Place(v, num, len);
            var r := Flushed(v, len, q);
            r != [] && (EmptyNums(r) == {r[|r| - 1].num} <==> ReceivedAfter(v, q))
  {
    var q := Place(v, num, len);
    var r := Flushed(v, len, q);
    FlushedElements(v, len, q);
    assert EmptyNums(r) == {r[|r| - 1].num} <==> forall i :: 0 <= i < |r| - 1 ==> r[i].data != [] by {
      FlushedShape(v, num, len, max);
      OnlyLastEmptyIff(r, len);
    }
    ReceivedAfterMeans(v, len, q);
  }

  lemma ReceivedAfterMeans(v: View, len: nat, q: nat)
    requires v.pkgs != [] && |v.pkgs| < v.size
    ensures var r := Flushed(v, len, q);
            ReceivedAfter(v, q) <==> forall i :: 0 <= i < |r| - 1 ==> r[i].data != []
  {
    var r := Flushed(v, len, q);
    FlushedElements(v, len, q);
    if ReceivedAfter(v, q) {
      forall i | 0 <= i < |r| - 1 ensures r[i].data != [] {
        assert v.pkgs[q + 1 + i].data != [];
      }
    } else if q + v.size - 1 > |v.pkgs| {
      assert r[v.size - 3].data == [];
    } else {
      var i :| q < i < q + v.size - 1 && v.pkgs[i].data == [];
      assert r[i - q - 1].data == [];
    }
  }

  lemma OnlyLastEmptyIff(r: seq<Chunk>, len: nat)
    requires len > 0 && Contiguous(r, len) && r != [] && r[|r| - 1].data == []
    ensures EmptyNums(r) == {r[|r| - 1].num} <==> forall i :: 0 <= i < |r| - 1 ==> r[i].data != []
  {
    assert r[|r| - 1].num in EmptyNums(r);
    if EmptyNums(r) == {r[|r| - 1].num} {
      forall i | 0 <= i < |r| - 1 ensures r[i].data != [] {
        NumsIncrease(r, len, i, |r| - 1);
        assert r[i].num !in EmptyNums(r);
      }
    }
  }

  /** A window of six places holds packages 0, 1 and 3 and waits for 2: package 1 arriving again throws 0 and 1 away. */
  lemma DuplicateDropsReceivedPackages(a: u8, b: u8)
    ensures var v := View([Chunk(0, [a]), Chunk(1, [b]), Chunk(2, []), Chunk(3, [a])], {2}, 6);
            && WellFormed(v, 1, 6) && Exact(v)
            && var w := Add(v, 1, [b], 6);
               && w.pkgs == [Chunk(2, []), Chunk(3, [a]), Chunk(4, []), Chunk(5, []), Chunk(6, [])]
               && w.holes == {6} && !Exact(w)
  {
    var v := View([Chunk(0, [a]), Chunk(1, [b]), Chunk(2, []), Chunk(3, [a])], {2}, 6);
    assert EmptyNums(v.pkgs) == {2} by { assert v.pkgs[2].data == []; }
    assert Place(v, 1, 1) == 1;
    var r := [Chunk(2, []), Chunk(3, [a]), Chunk(4, []), Chunk(5, []), Chunk(6, [])];
    assert Flushed(v, 1, 1) == r by {
      assert Blanks(4, 1, 3) == [Chunk(4, []), Chunk(5, []), Chunk(6, [])];
    }
    assert r[0].num in EmptyNums(r);
  }

  /** Popping a received package keeps the invariant and the exact index. */
  lemma PopKeepsWellFormed(v: View, len: nat, max: nat)
    requires WellFormed(v, len, max) && v.pkgs != [] 
    ensures v.pkgs[0].data != [] ==> WellFormed(Pop(v), len, max) && (Exact(v) ==> Exact(Pop(v)))
  {
    if v.pkgs[0].data != [] {
      DropContiguous(v.pkgs, len, 1);
      if |v.pkgs| > 1 {
        assert EmptyNums(v.pkgs[1..]) == EmptyNums(v.pkgs) by { DropReceived(v.pkgs); }
      } else {
        assert EmptyNums(v.pkgs) == {};
      }
    }
  }

  lemma DropReceived(pkgs: seq<Chunk>)
    requires pkgs != [] && pkgs[0].data != []
    ensures EmptyNums(pkgs[1..]) == EmptyNums(pkgs)
  {
    assert pkgs == [pkgs[0]] + pkgs[1..];
    ConcatEmptyNums([pkgs[0]], pkgs[1..]);
    assert EmptyNums([pkgs[0]]) == {};
  }

  /** The front never moves back, and moves by whole packages: those evicted. */
  lemma AddMovesFront(v: View, num: nat, data: seq<u8>, max: nat)
    requires data != [] && WellFormed(v, |data|, max) && v.pkgs != []
    ensures var w := Add(v, num, data, max);
            w.pkgs != [] && w.Front() == v.Front() + Evicted(v, num, |data|) * |data|
  {
    var len := |data|;
    if num in v.holes || Ignored(v, num) {
    } else if Ahead(v, num, len) {
      AppendedEvicts(v, num, data, max);
    } else {
      var q := Place(v, num, len);
      FlushedShape(v, num, len, max);
      assert Flushed(v, len, q)[0] == Extended(v, len, q + v.size - |v.pkgs|)[q + 1];
    }
  }

  lemma AppendedEvicts(v: View, num: nat, data: seq<u8>, max: nat)
    requires data != [] && WellFormed(v, |data|, max) && v.pkgs != []
    requires num !in v.holes && !Ignored(v, num) && Ahead(v, num, |data|)
    ensures var r := Appended(v, num, data, Gap(v, num, |data|));
            r != [] && r[0].num == v.Front() + Evicted(v, num, |data|) * |data|
  {
    hide WellFormed, Blanks;
    var k, evicted := Gap(v, num, |data|), Evicted(v, num, |data|);
    var all := Extended(v, |data|, k - 1) + [Chunk(num, data)];
    AppendedShape(v, num, data, max);
    assert all[0] == v.pkgs[0] && all[evicted].num == all[0].num + evicted * |data|;
    assert Appended(v, num, data, k)[0] == all[evicted];
  }
}
