/** The receiver's reorder buffer, updated in place as in big3/buffor.cpp. */
module Buffers {
  import opened Bytes
  import opened Window
  import opened WindowFacts
  import opened WindowSteps

  class Package {
    var data: seq<u8>
    const num: nat

    constructor Received(data: seq<u8>, num: nat)
      ensures this.data == data && this.num == num
    {
      this.data := data;
      this.num := num;
    }

    constructor Hole(num: nat)
      ensures this.data == [] && this.num == num
    {
      this.data := [];
      this.num := num;
    }
  }

  ghost function Chunks(ps: seq<Package>): (r: seq<Chunk>)
    reads ps
    ensures |r| == |ps|
    ensures forall i :: 0 <= i < |ps| ==> r[i] == Chunk(ps[i].num, ps[i].data)
  {
    seq(|ps|, i requires 0 <= i < |ps| reads ps => Chunk(ps[i].num, ps[i].data))
  }

  class Buffer {
    /** The window, front to back. */
    var packages: seq<Package>
    /** The holes: each number maps to the package of the window that waits for its data. */
    var index: map<nat, Package>
    /** The capacity in packages, fixed by the first package to enter an empty window. */
    var size: nat
    /** The capacity in bytes. */
    const maxData: nat
    /** How often the loop of `add_to_buffor` has dropped the front package. */
    ghost var evicted: nat

    ghost function Abs(): View
      reads this, packages
    {
      View(Chunks(packages), index.Keys, size)
    }

    /** An index entry for a package of the window is that very package. */
    ghost predicate Linked()
      reads this
    {
      forall i :: 0 <= i < |packages| && packages[i].num in index ==> index[packages[i].num] == packages[i]
    }

    ghost predicate Valid(len: nat)
      reads this, packages
    {
      && maxData < TWO_63
      && Admits(Abs(), len, maxData)
      && Linked()
    }

    constructor (maxData: nat)
      requires maxData < TWO_63
      ensures this.maxData == maxData && Abs() == EMPTY && evicted == 0
      ensures forall len: nat :: len > 0 ==> Valid(len)
    {
      packages, index, size, evicted := [], map[], 0, 0;
      this.maxData := maxData;
    }

    /** `add_to_buffor`. Nothing is asked of `num` but that the window around it has 64-bit numbers. */
    method AddToBuffer(num: nat, data: seq<u8>)
      requires data != [] && Valid(|data|) && num + maxData < TWO_64
      modifies this, packages
      ensures Valid(|data|)
      ensures Abs() == Add(old(Abs()), num, data, maxData)
      ensures evicted == old(evicted) + Evicted(old(Abs()), num, |data|)
      ensures forall p :: p in packages ==> p in old(packages) || fresh(p)
    {
      hide Add, Admits, MidLoop, Evicted, Chunks, EmptyNums;
      ghost var v := Abs();
      AddKeepsAdmits(v, num, data, maxData);
      AddCases(v, num, data, maxData);
      if num in index {
        FillHole(num, data);
      } else if packages == [] {
        StartWindow(num, data);
      } else {
        LoopBegins(v, num, data, maxData);
        SlideInto(num, data);
        CountedByFront(v, num, data, maxData, evicted - old(evicted));
      }
    }

    /** The first package of an empty window fixes the capacity. */
    method StartWindow(num: nat, data: seq<u8>)
      requires data != [] && packages == [] && index == map[] && num < TWO_64
      modifies this`packages, this`size
      ensures Linked() && Abs() == View([Chunk(num, data)], {}, maxData / |data|)
      ensures packages[0].num < TWO_64 && fresh(packages[0])
    {
      size := maxData / |data|;
      var p := new Package.Received(data, num);
      packages := packages + [p];
      assert Chunks(packages) == [Chunk(num, data)];
    }

    /** A package that was asked for arrives: its data fills the hole, which leaves the index. */
    method FillHole(num: nat, data: seq<u8>)
      requires data != [] && Linked() && num in index && num in EmptyNums(Abs().pkgs)
      modifies this`index, packages
      ensures packages == old(packages) && index == old(index) - {num} && Linked()
      ensures Abs() == View(Fill(old(Abs()).pkgs, num, data), old(Abs()).holes - {num}, size)
    {
      ghost var i :| 0 <= i < |packages| && packages[i].num == num;
      var found := index[num];
      assert found == packages[i];
      found.data := data;
      index := index - {num};
      assert Chunks(packages) == Fill(old(Abs()).pkgs, num, data);
    }

    /** The loop: the window grows, and slides once it is full, until the arrival fits or the front has passed it. */
    method SlideInto(num: nat, data: seq<u8>)
      requires data != [] && packages != [] && Linked() && num < TWO_64
      requires if |packages| < size then MidLoop(Abs(), Abs(), num, data, maxData)
               else Add(Abs(), num, data, maxData) == Abs()
      modifies this`packages, this`index, this`evicted
      ensures Linked() && Abs() == Add(old(Abs()), num, data, maxData)
      ensures packages != [] && evicted >= old(evicted)
      ensures Abs().Front() == old(Abs()).Front() + (evicted - old(evicted)) * |data|
      ensures forall p :: p in packages ==> p in old(packages) || fresh(p)
    {
      hide Add, MidLoop, EagerStep;
      ghost var v0, v := Abs(), Abs();
      while |packages| < size
        invariant Abs() == v && Linked()
        invariant if |packages| < size then MidLoop(v0, v, num, data, maxData) else v == v0
        invariant v.pkgs != [] && evicted >= old(evicted)
        invariant v.Front() == v0.Front() + (evicted - old(evicted)) * |data|
        invariant forall p :: p in packages ==> p in old(packages) || fresh(p)
        decreases if v.pkgs != [] && v.Front() <= num then num - v.Front() + 1 else 0, v.size - |v.pkgs|
      {
        LoopFacts(v0, v, num, data, maxData);
        if num < packages[0].num {
          return;
        }
        var next := Add64(packages[|packages| - 1].num, |data|);
        if next == num {
          AppendPackage(num, data);
          return;
        }
        LoopAdvances(v0, v, num, data, maxData);
        Distribute(evicted - old(evicted), 1, |data|);
        PushAndSlide(next, num, |data|);
        v := EagerStep(v, num, |data|);
      }
    }

    /** The rest of an iteration: a hole at the back and, if that fills the window, one package less at the front. */
    method PushAndSlide(next: nat, num: nat, len: nat)
      requires packages != [] && len > 0 && next == packages[|packages| - 1].num + len && next < TWO_64 && num < TWO_64
      requires Linked() && forall i :: 0 <= i < |packages| ==> packages[i].num < next
      modifies this`packages, this`index, this`evicted
      ensures packages != [] ==> packages[|packages| - 1].num < TWO_64
      ensures Linked() && Abs() == EagerStep(old(Abs()), num, len)
      ensures evicted == old(evicted) + if |old(packages)| + 1 == size then 1 else 0
      ensures forall p :: p in packages ==> p in old(packages) || fresh(p)
    {
      PushHole(next);
      if |packages| == size {
        SlideFront(num, len);
      }
    }

    /** A received package at the back. */
    method AppendPackage(num: nat, data: seq<u8>)
      requires num !in index && Linked()
      modifies this`packages
      ensures |packages| == |old(packages)| + 1 && Linked()
      ensures forall p :: p in packages ==> p in old(packages) || fresh(p)
      ensures Abs() == old(Abs()).(pkgs := old(Abs()).pkgs + [Chunk(num, data)])
    {
      var p := new Package.Received(data, num);
      packages := packages + [p];
      assert Chunks(packages) == old(Abs()).pkgs + [Chunk(num, data)];
    }

    /** An empty package at the back, entered in the index. */
    method PushHole(next: nat)
      requires Linked() && forall i :: 0 <= i < |packages| ==> packages[i].num < next
      modifies this`packages, this`index
      ensures |packages| == |old(packages)| + 1 && Linked()
      ensures forall p :: p in packages ==> p in old(packages) || fresh(p)
      ensures Abs() == View(old(Abs()).pkgs + [Chunk(next, [])], old(Abs()).holes + {next}, old(size))
    {
      var p := new Package.Hole(next);
      packages := packages + [p];
      index := index[next := p];
      assert Chunks(packages) == old(Abs()).pkgs + [Chunk(next, [])];
    }

    /** A full window forgets the holes it is about to evict, then drops its front package. */
    method SlideFront(num: nat, len: nat)
      requires |packages| == size > 0 && len > 0 && num < TWO_64 && Linked()
      requires packages[|packages| - 1].num < TWO_64
      modifies this`packages, this`index, this`evicted
      ensures packages == old(packages)[1..] && Linked() && evicted == old(evicted) + 1
      ensures Abs() == Slide(old(Abs()), num, len)
    {
      var d := Sub64(num, packages[|packages| - 1].num) / len;
      var distance := if d < size - 1 then d else size - 1;
      var bound := packages[distance].num;
      index := map k | k in index && bound <= k :: index[k];
      packages := packages[1..];
      evicted := evicted + 1;
      assert Chunks(packages) == Slide(old(Abs()), num, len).pkgs;
    }

    /** Each key of the index maps to its own package of the window, which is still empty. */
    lemma IndexPointsIntoWindow(num: nat, len: nat)
      requires Valid(len) && num in index
      ensures index[num] in packages && index[num].num == num && index[num].data == []
      ensures forall p :: p in packages && p.num == num ==> p == index[num]
    {
      assert num in EmptyNums(Abs().pkgs);
      var i :| 0 <= i < |packages| && packages[i].num == num && packages[i].data == [];
      assert packages[i] in packages;
    }

    /** `pop`, for a window that is not empty. */
    method Pop(len: nat) returns (p: Package)
      requires packages != [] && Valid(len)
      modifies this`packages
      ensures old(Abs()).pkgs[0] == Chunk(p.num, p.data) && p == old(packages)[0]
      ensures Abs() == Window.Pop(old(Abs())) && packages == old(packages)[1..]
      ensures p.data != [] ==> Valid(len)
    {
      p := packages[0];
      packages := packages[1..];
      assert Chunks(packages) == old(Abs()).pkgs[1..];
      PopKeepsWellFormed(old(Abs()), len, maxData);
    }

    /** `reset`. */
    method Reset()
      requires maxData < TWO_63
      modifies this`packages, this`index
      ensures packages == [] && Abs() == Window.Reset(old(Abs()))
      ensures forall len: nat :: len > 0 ==> Valid(len)
    {
      index := map[];
      packages := [];
    }
  }

  /** As many packages were dropped as the front has moved places. */
  lemma CountedByFront(v: View, num: nat, data: seq<u8>, max: nat, dropped: nat)
    requires data != [] && v.pkgs != [] && Admits(v, |data|, max) && Add(v, num, data, max).pkgs != []
    requires Add(v, num, data, max).Front() == v.Front() + dropped * |data|
    ensures dropped == Evicted(v, num, |data|)
  {
    hide Add, WellFormed, Evicted;
    AddMovesFront(v, num, data, max);
    var evicted := Evicted(v, num, |data|);
    if dropped < evicted {
      MulGap(|data|, dropped, evicted);
    } else if evicted < dropped {
      MulGap(|data|, evicted, dropped);
    }
  }
}
