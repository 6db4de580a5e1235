/**
 * How a sender cuts a file into chunks: `buffer.slice(offset, offset + size)`
 * for offset = 0, size, 2*size, ... while offset < |buffer|, and how the
 * receiver glues the parts back together.
 */
module Chunking {

  type byte = bv8

  function Min(a: int, b: int): int { if a <= b then a else b }

  /** The slices the sender's loop produces from `offset` on (slice clamps its end to the length). */
  function ChunksFrom(buf: seq<byte>, size: nat, offset: nat): seq<seq<byte>>
    requires size > 0
    decreases |buf| - offset
  {
    if offset >= |buf| then []
    else [buf[offset .. Min(offset + size, |buf|)]] + ChunksFrom(buf, size, offset + size)
  }

  /** All the chunks of `buf`, in offset order. */
  function Chunks(buf: seq<byte>, size: nat): seq<seq<byte>>
    requires size > 0
  {
    ChunksFrom(buf, size, 0)
  }

  /** The bytes of the parts, in order (what `new Blob(parts)` holds). */
  function Concat(parts: seq<seq<byte>>): seq<byte>
  {
    if parts == [] then [] else parts[0] + Concat(parts[1..])
  }

  /** Sum of the parts' byte lengths. */
  function TotalLength(parts: seq<seq<byte>>): nat
  {
    if parts == [] then 0 else |parts[0]| + TotalLength(parts[1..])
  }

  lemma {:induction false} ConcatAppend(parts: seq<seq<byte>>, p: seq<byte>)
    ensures Concat(parts + [p]) == Concat(parts) + p
    ensures TotalLength(parts + [p]) == TotalLength(parts) + |p|
  {
    if parts == [] {
      assert parts + [p] == [p];
    } else {
      assert (parts + [p])[1..] == parts[1..] + [p];
      ConcatAppend(parts[1..], p);
    }
  }

  lemma {:induction false} TotalLengthIsConcatLength(parts: seq<seq<byte>>)
    ensures TotalLength(parts) == |Concat(parts)|
  {
    if parts != [] {
      TotalLengthIsConcatLength(parts[1..]);
    }
  }

  /** The chunks from `offset` on glue back to the rest of the buffer. */
  lemma {:induction false} ChunksFromConcat(buf: seq<byte>, size: nat, offset: nat)
    requires size > 0
    ensures Concat(ChunksFrom(buf, size, offset)) == buf[Min(offset, |buf|)..]
    decreases |buf| - offset
  {
    if offset < |buf| {
      var end := Min(offset + size, |buf|);
      ChunksFromConcat(buf, size, offset + size);
      assert buf[offset..] == buf[offset..end] + buf[end..];
    }
  }

  /** Reassembly: the concatenation of the chunks is the buffer. */
  lemma ChunksConcat(buf: seq<byte>, size: nat)
    requires size > 0
    ensures Concat(Chunks(buf, size)) == buf
    ensures TotalLength(Chunks(buf, size)) == |buf|
  {
    ChunksFromConcat(buf, size, 0);
    TotalLengthIsConcatLength(Chunks(buf, size));
  }

  /** The k-th chunk from `offset` is the slice starting at offset + k*size. */
  lemma {:induction false} ChunksFromAt(buf: seq<byte>, size: nat, offset: nat, k: nat)
    requires size > 0
    ensures k < |ChunksFrom(buf, size, offset)| <==> offset + k * size < |buf|
    ensures k < |ChunksFrom(buf, size, offset)| ==>
      ChunksFrom(buf, size, offset)[k] == buf[offset + k * size .. Min(offset + k * size + size, |buf|)]
    decreases k
  {
    if offset < |buf| && k > 0 {
      ChunksFromAt(buf, size, offset + size, k - 1);
      assert offset + size + (k - 1) * size == offset + k * size;
    }
  }

  /** Every chunk is `buf[k*size .. min(k*size + size, |buf|)]`, one per offset below |buf|. */
  lemma ChunkAt(buf: seq<byte>, size: nat, k: nat)
    requires size > 0
    ensures k < |Chunks(buf, size)| <==> k * size < |buf|
    ensures k < |Chunks(buf, size)| ==> Chunks(buf, size)[k] == buf[k * size .. Min(k * size + size, |buf|)]
  {
    ChunksFromAt(buf, size, 0, k);
  }

  /** Multiplication by a positive number preserves strict order, read backwards. */
  lemma MulCancel(a: int, b: int, d: int)
    requires d > 0 && a * d < b * d
    ensures a < b
  {
  }

  /** Division by a positive number is pinned down by the bounds of its quotient. */
  lemma DivBetween(x: int, d: int, q: int)
    requires d > 0 && q * d <= x < q * d + d
    ensures x / d == q
  {
    var r := x / d;
    assert r * d + x % d == x && 0 <= x % d < d;
    MulCancel(r, q + 1, d);
    MulCancel(q, r + 1, d);
  }

  /** There are ceil(|buf| / size) chunks. */
  lemma {:induction false} ChunksFromCount(buf: seq<byte>, size: nat, offset: nat)
    requires size > 0 && offset <= |buf|
    ensures |ChunksFrom(buf, size, offset)| == (|buf| - offset + size - 1) / size
    decreases |buf| - offset
  {
    var n := |buf|;
    var c := |ChunksFrom(buf, size, offset)|;
    if offset == n {
      DivBetween(size - 1, size, 0);
    } else if offset + size >= n {
      assert ChunksFrom(buf, size, offset + size) == [];
      DivBetween(n - offset + size - 1, size, 1);
    } else {
      ChunksFromCount(buf, size, offset + size);
      var m := (n - offset - 1) / size;
      assert c == 1 + m;
      assert m * size <= n - offset - 1 < m * size + size;
      DivBetween(n - offset + size - 1, size, m + 1);
    }
  }

  lemma ChunkCount(buf: seq<byte>, size: nat)
    requires size > 0
    ensures |Chunks(buf, size)| == (|buf| + size - 1) / size
    ensures |buf| == 0 <==> Chunks(buf, size) == []
  {
    ChunksFromCount(buf, size, 0);
    if |buf| > 0 {
      ChunkAt(buf, size, 0);
    }
  }
}
