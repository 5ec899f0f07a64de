/** The receiver's reorder window as a value: what `Buffer` in big3/buffor.cpp holds and what an arrival does to it. */
module Window {
  import opened Bytes

  /** A package: the number of its first byte, and its bytes (none yet for a hole). */
  datatype Chunk = Chunk(num: nat, data: seq<u8>)

  /** The packages front to back, the numbers in the hole index, and the capacity in packages. */
  datatype View = View(pkgs: seq<Chunk>, holes: set<nat>, size: nat) {
    function Front(): nat
      requires pkgs != []
    {
      pkgs[0].num
    }

    function Back(): nat
      requires pkgs != []
    {
      pkgs[|pkgs| - 1].num
    }
  }

  const EMPTY := View([], {}, 0)

  ghost predicate Contiguous(pkgs: seq<Chunk>, len: nat) {
    forall i :: 0 <= i < |pkgs| ==> pkgs[i].num == pkgs[0].num + i * len
  }

  ghost function EmptyNums(pkgs: seq<Chunk>): set<nat> {
    set i | 0 <= i < |pkgs| && pkgs[i].data == [] :: pkgs[i].num
  }

  /** The invariant every arrival keeps: numbers are contiguous and only packages still empty are indexed. */
  ghost predicate WellFormed(v: View, len: nat, max: nat) {
    && len > 0
    && Contiguous(v.pkgs, len)
    && v.holes <= EmptyNums(v.pkgs)
    && (v.pkgs != [] ==> v.size == max / len && (|v.pkgs| <= v.size || |v.pkgs| == 1))
    && (forall i :: 0 <= i < |v.pkgs| ==> |v.pkgs[i].data| in {0, len})
  }

  /** A window the receiver can be in: it satisfies the invariant, and its numbers are 64-bit. */
  ghost predicate Admits(v: View, len: nat, max: nat) {
    WellFormed(v, len, max) && (v.pkgs != [] ==> v.Back() < TWO_64)
  }

  /** The stronger agreement: every package still empty can be asked for and filled. */
  ghost predicate Exact(v: View) {
    v.holes == EmptyNums(v.pkgs)
  }

  /** `k` packages without data, the first of them numbered `from`. */
  function Blanks(from: nat, len: nat, k: nat): (b: seq<Chunk>)
    ensures |b| == k
    ensures forall i :: 0 <= i < k ==> b[i] == Chunk(from + i * len, [])
  {
    if k == 0 then [] else Blanks(from, len, k - 1) + [Chunk(from + (k - 1) * len, [])]
  }

  function Last<T>(s: seq<T>, k: nat): seq<T> {
    if k <= |s| then s[|s| - k..] else s
  }

  function Fill(pkgs: seq<Chunk>, num: nat, data: seq<u8>): (r: seq<Chunk>)
    ensures |r| == |pkgs|
    ensures forall i :: 0 <= i < |pkgs| ==> r[i] == if pkgs[i].num == num then Chunk(num, data) else pkgs[i]
  {
    if pkgs == [] then []
    else [if pkgs[0].num == num then Chunk(num, data) else pkgs[0]] + Fill(pkgs[1..], num, data)
  }

  /** Which place, counted from the front in steps of `len`, byte `num` falls into. */
  function Place(v: View, num: nat, len: nat): nat
    requires v.pkgs != [] && v.Front() <= num && len > 0
  {
    (num - v.Front()) / len
  }

  /** The arrival is the `k`-th package after the back, for some k >= 1. */
  predicate Ahead(v: View, num: nat, len: nat)
    requires v.pkgs != [] && len > 0
  {
    v.Back() < num && (num - v.Back()) % len == 0
  }

  /** How many places past the back that is. */
  function Gap(v: View, num: nat, len: nat): (k: nat)
    requires v.pkgs != [] && len > 0 && Ahead(v, num, len)
    ensures k >= 1 && num == v.Back() + k * len
  {
    var k := (num - v.Back()) / len;
    assert num - v.Back() == len * k + (num - v.Back()) % len;
    k
  }

  /** The packages the window would hold if it had room for `k` blanks more. */
  function Extended(v: View, len: nat, k: nat): seq<Chunk>
    requires v.pkgs != []
  {
    v.pkgs + Blanks(v.Back() + len, len, k)
  }

  /** There is no room, or the number has already left the window: `add_to_buffor` changes nothing. */
  predicate Ignored(v: View, num: nat)
    requires v.pkgs != []
  {
    |v.pkgs| >= v.size || num < v.Front()
  }

  /** Packages after an arrival `k` places past the back. */
  function Appended(v: View, num: nat, data: seq<u8>, k: nat): seq<Chunk>
    requires v.pkgs != [] && k >= 1
  {
    var all := Extended(v, |data|, k - 1) + [Chunk(num, data)];
    Last(all, if |all| < v.size then |all| else v.size)
  }

  /**
   * Packages after an arrival that is neither a hole nor ahead (already received, or misaligned):
   * everything up to place `q` is pushed out and blanks take the room at the back.
   */
  function Flushed(v: View, len: nat, q: nat): seq<Chunk>
    requires v.pkgs != [] && |v.pkgs| < v.size
  {
    Extended(v, len, q + v.size - |v.pkgs|)[q + 1..]
  }

  /** `add_to_buffor`, in closed form, for every number. */
  function Add(v: View, num: nat, data: seq<u8>, max: nat): View
    requires data != []
  {
    var len := |data|;
    if num in v.holes then
      View(Fill(v.pkgs, num, data), v.holes - {num}, v.size)
    else if v.pkgs == [] then
      View([Chunk(num, data)], v.holes, max / len)
    else if Ignored(v, num) then
      v
    else if Ahead(v, num, len) then
      var k := Gap(v, num, len);
      var pkgs := Appended(v, num, data, k);
      View(pkgs, (set h | h in v.holes + BlankNums(v, len, k) && pkgs[0].num <= h), v.size)
    else
      var pkgs := Flushed(v, len, Place(v, num, len));
      View(pkgs, {pkgs[|pkgs| - 1].num}, v.size)
  }

  /** How many packages an arrival pushes out at the front. */
  function Evicted(v: View, num: nat, len: nat): nat
    requires len > 0
  {
    if num in v.holes || v.pkgs == [] || Ignored(v, num) then 0
    else if Ahead(v, num, len) then
      var n := |v.pkgs| + Gap(v, num, len);
      if n < v.size then 0 else n - v.size
    else Place(v, num, len) + 1
  }

  /** The numbers of the packages skipped by an arrival `k` places past the back. */
  function BlankNums(v: View, len: nat, k: nat): set<nat>
    requires v.pkgs != []
  {
    set i: nat | 1 <= i < k :: v.Back() + i * len
  }

  /** `pop`: the front package leaves. */
  function Pop(v: View): View
    requires v.pkgs != []
  {
    v.(pkgs := v.pkgs[1..])
  }

  /** `reset`. */
  function Reset(v: View): View {
    View([], {}, v.size)
  }

  /** One empty package more at the back, entered in the index. */
  function PushBlank(v: View, len: nat): View
    requires v.pkgs != []
  {
    View(v.pkgs + [Chunk(v.Back() + len, [])], v.holes + {v.Back() + len}, v.size)
  }

  /**
   * How many packages the code expects to evict before `num` fits, in `uint64_t` arithmetic:
   * the subtraction wraps when the back has already passed `num`.
   */
  function Distance(v: View, num: nat, len: nat): nat
    requires v.pkgs != [] && v.size > 0 && len > 0 && num < TWO_64 && v.Back() < TWO_64
  {
    var d := Sub64(num, v.Back()) / len;
    if d < v.size - 1 then d else v.size - 1
  }

  /** A full window forgets the holes below the package `Distance` places from the front, and drops its front. */
  function Slide(v: View, num: nat, len: nat): View
    requires v.pkgs != [] && |v.pkgs| == v.size && len > 0 && num < TWO_64 && v.Back() < TWO_64
  {
    var bound := v.pkgs[Distance(v, num, len)].num;
    View(v.pkgs[1..], (set h | h in v.holes && bound <= h), v.size)
  }

  /** The loop body of `add_to_buffor` on an arrival that is not the very next package. */
  function EagerStep(v: View, num: nat, len: nat): View
    requires v.pkgs != [] && len > 0 && num < TWO_64 && v.Back() + len < TWO_64
  {
    var w := PushBlank(v, len);
    if |w.pkgs| == w.size then Slide(w, num, len) else w
  }

  /** The same body with the index kept lazily: only the popped package's number is forgotten. */
  function LazyStep(v: View, len: nat): View
    requires v.pkgs != []
  {
    var w := PushBlank(v, len);
    if |w.pkgs| == w.size then View(w.pkgs[1..], w.holes - {w.pkgs[0].num}, w.size) else w
  }
}
