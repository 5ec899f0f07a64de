/** The transmitter's bounded replay cache (big3/fifo.cpp) and the stream of chunks it is a window of. */
module Fifos {
  import opened Bytes
  import opened Window

  /** `add_to_queue`: append, then drop the oldest if there are too many. */
  function Enqueue(list: seq<Chunk>, c: Chunk, maxCount: nat): seq<Chunk> {
    var l := list + [c];
    if |l| > maxCount then l[1..] else l
  }

  /** `retrieve`: the data of the first package numbered `num`, or nothing. */
  function Retrieve(list: seq<Chunk>, num: nat): seq<u8> {
    if list == [] then [] else if list[0].num == num then list[0].data else Retrieve(list[1..], num)
  }

  /** The `i`-th chunk of the stream, numbered by its first byte. */
  function ChunkAt(stream: seq<u8>, psize: nat, i: nat): Chunk
    requires psize > 0 && i < |stream| / psize
  {
    ChunkInside(|stream|, psize, i);
    Chunk(i * psize, stream[i * psize..i * psize + psize])
  }

  /** The stream cut into `psize`-byte chunks; an incomplete tail is not a chunk. */
  function Cut(stream: seq<u8>, psize: nat): (r: seq<Chunk>)
    requires psize > 0
    ensures |r| == |stream| / psize
  {
    seq(|stream| / psize, i requires 0 <= i < |stream| / psize => ChunkAt(stream, psize, i))
  }

  lemma ChunkInside(x: nat, psize: nat, i: nat)
    requires psize > 0 && i < x / psize
    ensures 0 <= i * psize && i * psize + psize <= x
    ensures i * psize % psize == 0 && i * psize / psize == i
  {
    assert x == psize * (x / psize) + x % psize;
    MulGap(psize, i, x / psize);
    ModUnique(i * psize, psize, i, 0);
  }

  /** A chunk that is exactly the bytes of the stream its number says. */
  predicate Genuine(stream: seq<u8>, psize: nat, c: Chunk)
    requires psize > 0
  {
    c.num % psize == 0 && c.num + psize <= |stream| && c.data == stream[c.num..c.num + psize]
  }

  /** One more chunk in the stream is one more chunk at the end of its cutting. */
  lemma CutGrows(stream: seq<u8>, data: seq<u8>, psize: nat)
    requires 0 < psize == |data| && |stream| % psize == 0
    ensures |stream + data| % psize == 0
    ensures Cut(stream + data, psize) == Cut(stream, psize) + [Chunk(|stream|, data)]
  {
    var q := |stream| / psize;
    var s := stream + data;
    assert |s| == psize * (q + 1) by { assert |stream| == psize * q; }
    ModUnique(|s|, psize, q + 1, 0);
    forall i | 0 <= i < q + 1 ensures Cut(s, psize)[i] == (Cut(stream, psize) + [Chunk(|stream|, data)])[i] {
      if i < q { ChunkInside(|stream|, psize, i); }
    }
  }

  /** Adding keeps the list the newest `maxCount` chunks of everything added. */
  lemma EnqueueKeepsLast(added: seq<Chunk>, c: Chunk, maxCount: nat)
    ensures Enqueue(Last(added, maxCount), c, maxCount) == Last(added + [c], maxCount)
  {
  }

  function EnqueueAll(added: seq<Chunk>, maxCount: nat): seq<Chunk> {
    if added == [] then []
    else Enqueue(EnqueueAll(added[..|added| - 1], maxCount), added[|added| - 1], maxCount)
  }

  /** After any number of adds the list is exactly the newest `maxCount` chunks, in order. */
  lemma {:induction false} FifoIsLast(added: seq<Chunk>, maxCount: nat)
    ensures EnqueueAll(added, maxCount) == Last(added, maxCount)
  {
    if added != [] {
      var front, c := added[..|added| - 1], added[|added| - 1];
      FifoIsLast(front, maxCount);
      EnqueueKeepsLast(front, c, maxCount);
      assert front + [c] == added;
    }
  }

  lemma {:induction false} RetrieveFinds(list: seq<Chunk>, i: nat)
    requires i < |list| && forall j :: 0 <= j < i ==> list[j].num != list[i].num
    ensures Retrieve(list, list[i].num) == list[i].data
  {
    if i > 0 {
      assert list[1..][i - 1] == list[i];
      RetrieveFinds(list[1..], i - 1);
    }
  }

  lemma {:induction false} RetrieveMisses(list: seq<Chunk>, num: nat)
    requires forall j :: 0 <= j < |list| ==> list[j].num != num
    ensures Retrieve(list, num) == []
  {
    if list != [] {
      RetrieveMisses(list[1..], num);
    }
  }

  /** The chunk of the stream numbered `num` is among the newest `maxCount`. */
  predicate Cached(stream: seq<u8>, psize: nat, maxCount: nat, num: nat)
    requires psize > 0
  {
    num % psize == 0 && num + psize <= |stream| && |stream| / psize <= num / psize + maxCount
  }

  /**
   * The cache of a stream answers with the stream's own bytes for each of the newest `maxCount` chunks,
   * and with nothing for any other number; it never holds more than `fsize` bytes.
   */
  lemma RetrieveIsStream(stream: seq<u8>, psize: nat, fsize: nat, num: nat)
    requires psize > 0 && |stream| % psize == 0
    ensures var fifo := Last(Cut(stream, psize), fsize / psize);
            && |fifo| * psize <= fsize
            && Retrieve(fifo, num) ==
                 if Cached(stream, psize, fsize / psize, num) then stream[num..num + psize] else []
  {
    var max := fsize / psize;
    CacheFits(|Last(Cut(stream, psize), max)|, psize, fsize);
    if Cached(stream, psize, max, num) {
      RetrieveCached(stream, psize, max, num);
    } else {
      RetrieveUncached(stream, psize, max, num);
    }
  }

  lemma RetrieveCached(stream: seq<u8>, psize: nat, max: nat, num: nat)
    requires psize > 0 && |stream| % psize == 0 && Cached(stream, psize, max, num)
    ensures Retrieve(Last(Cut(stream, psize), max), num) == stream[num..num + psize]
  {
    var fifo := Last(Cut(stream, psize), max);
    var d, i := |stream| / psize - |fifo|, num / psize;
    CachedPlace(|stream|, psize, num);
    assert fifo[i - d] == ChunkAt(stream, psize, i);
    forall j | 0 <= j < |fifo| && j != i - d ensures fifo[j].num != num {
      assert fifo[j] == ChunkAt(stream, psize, d + j);
      DistinctMultiples(d + j, i, psize);
    }
    RetrieveFinds(fifo, i - d);
  }

  lemma RetrieveUncached(stream: seq<u8>, psize: nat, max: nat, num: nat)
    requires psize > 0 && |stream| % psize == 0 && !Cached(stream, psize, max, num)
    ensures Retrieve(Last(Cut(stream, psize), max), num) == []
  {
    var fifo := Last(Cut(stream, psize), max);
    var d := |stream| / psize - |fifo|;
    forall j | 0 <= j < |fifo| ensures fifo[j].num != num {
      assert fifo[j] == ChunkAt(stream, psize, d + j);
      ChunkInside(|stream|, psize, d + j);
    }
    RetrieveMisses(fifo, num);
  }

  lemma CacheFits(k: nat, psize: nat, fsize: nat)
    requires psize > 0 && k <= fsize / psize
    ensures k * psize <= fsize
  {
    assert fsize == psize * (fsize / psize) + fsize % psize;
    MulMono(psize, k, fsize / psize);
  }

  lemma CachedPlace(len: nat, psize: nat, num: nat)
    requires psize > 0 && len % psize == 0 && num % psize == 0 && num + psize <= len
    ensures num / psize * psize == num && num / psize < len / psize
  {
    var i, n := num / psize, len / psize;
    assert num == psize * i && len == psize * n;
    if n <= i { MulMono(psize, n, i); }
  }

  lemma DistinctMultiples(i: nat, j: nat, psize: nat)
    requires psize > 0 && i != j
    ensures i * psize != j * psize
  {
    if i < j { MulGap(psize, i, j); } else { MulGap(psize, j, i); }
  }

  class Fifo {
    var list: seq<Chunk>
    const maxCount: nat

    constructor (byteSize: nat, onePackSize: nat)
      requires onePackSize > 0
      ensures list == [] && maxCount == byteSize / onePackSize
    {
      list := [];
      maxCount := byteSize / onePackSize;
    }

    method AddToQueue(data: seq<u8>, num: nat)
      modifies this`list
      ensures list == Enqueue(old(list), Chunk(num, data), maxCount)
    {
      list := list + [Chunk(num, data)];
      if |list| > maxCount {
        list := list[1..];
      }
    }

    method RetrieveData(num: nat) returns (data: seq<u8>)
      ensures data == Retrieve(list, num)
    {
      var i := 0;
      while i < |list|
        invariant i <= |list|
        invariant Retrieve(list[i..], num) == Retrieve(list, num)
      {
        if list[i].num == num {
          return list[i].data;
        }
        i := i + 1;
      }
      return [];
    }
  }
}
