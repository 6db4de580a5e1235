/**
 * Integer progress percentages reported while a transfer advances:
 * floor(sent / total * 100), one report per chunk.
 */
module Progress {
  import opened Chunking

  /** floor(sent / total * 100), computed exactly on integers. */
  function Percent(sent: nat, total: nat): (p: int)
    requires total > 0
    ensures p >= 0
    ensures sent <= total ==> p <= 100
    ensures sent == total ==> p == 100
  {
    PercentBounds(sent, total);
    sent * 100 / total
  }

  lemma PercentBounds(sent: nat, total: nat)
    requires total > 0
    ensures sent * 100 / total >= 0
    ensures sent <= total ==> sent * 100 / total <= 100
    ensures sent * 100 / total == 100 <== sent == total
  {
    var q := sent * 100 / total;
    assert q * total + sent * 100 % total == sent * 100;
    if sent <= total {
      assert sent * 100 <= total * 100;
      MulCancel(q, 101, total);
    }
    if sent == total {
      DivBetween(sent * 100, total, 100);
    }
  }

  /** More bytes never report a smaller percent. */
  lemma PercentMonotone(a: nat, b: nat, total: nat)
    requires total > 0 && a <= b
    ensures Percent(a, total) <= Percent(b, total)
  {
    var qa, qb := a * 100 / total, b * 100 / total;
    assert qa * total + a * 100 % total == a * 100;
    assert qb * total + b * 100 % total == b * 100;
    assert a * 100 <= b * 100;
    MulCancel(qa, qb + 1, total);
  }

  /**
   * The percents reported after each part arrives, starting from `sent`
   * bytes already counted.
   */
  function RunningPercents(sent: nat, parts: seq<seq<byte>>, total: nat): (r: seq<int>)
    requires total > 0
    ensures |r| == |parts|
    decreases parts
  {
    if parts == [] then []
    else [Percent(sent + |parts[0]|, total)] + RunningPercents(sent + |parts[0]|, parts[1..], total)
  }

  lemma RunningPercentsCons(sent: nat, p: seq<byte>, rest: seq<seq<byte>>, total: nat)
    requires total > 0
    ensures RunningPercents(sent, [p] + rest, total)
      == [Percent(sent + |p|, total)] + RunningPercents(sent + |p|, rest, total)
  {
    assert ([p] + rest)[0] == p && ([p] + rest)[1..] == rest;
  }

  /**
   * Reports lie between the starting and the final percent, never decrease,
   * and the last one is the final percent.
   */
  lemma {:induction false} RunningPercentsShape(sent: nat, parts: seq<seq<byte>>, total: nat)
    requires total > 0
    ensures var r := RunningPercents(sent, parts, total);
      && |r| == |parts|
      && (forall i | 0 <= i < |r| :: Percent(sent, total) <= r[i] <= Percent(sent + TotalLength(parts), total))
      && (forall i, j | 0 <= i <= j < |r| :: r[i] <= r[j])
      && (|r| > 0 ==> r[|r| - 1] == Percent(sent + TotalLength(parts), total))
    decreases parts
  {
    if parts != [] {
      var s' := sent + |parts[0]|;
      RunningPercentsShape(s', parts[1..], total);
      PercentMonotone(sent, s', total);
      PercentMonotone(s', sent + TotalLength(parts), total);
      var r := RunningPercents(sent, parts, total);
      assert r[1..] == RunningPercents(s', parts[1..], total);
    }
  }

  /**
   * Over a whole file the reports never decrease, never exceed 100 and end
   * at exactly 100.
   */
  lemma FilePercents(buf: seq<byte>, size: nat)
    requires size > 0 && |buf| > 0
    ensures var r := RunningPercents(0, Chunks(buf, size), |buf|);
      && |r| == |Chunks(buf, size)| > 0
      && (forall i | 0 <= i < |r| :: 0 <= r[i] <= 100)
      && (forall i, j | 0 <= i <= j < |r| :: r[i] <= r[j])
      && r[|r| - 1] == 100
  {
    ChunksConcat(buf, size);
    ChunkCount(buf, size);
    RunningPercentsShape(0, Chunks(buf, size), |buf|);
  }

  /**
   * The slicing and the percent reports of one turn of the chunk loop, in
   * the form of its loop invariant.
   */
  ghost predicate ChunkLoopInv(file: seq<byte>, size: nat, offset: nat, sent: nat,
                               done: seq<seq<byte>>, reports: seq<int>)
    requires size > 0
  {
    && Chunks(file, size) == done + ChunksFrom(file, size, offset)
    && sent == Min(offset, |file|)
    && |reports| == |done|
    && (|file| > 0 ==>
          reports + RunningPercents(sent, ChunksFrom(file, size, offset), |file|)
          == RunningPercents(0, Chunks(file, size), |file|))
  }

  /** One turn of the chunk loop keeps the slicing and the reports in step with the specification. */
  lemma AdvanceChunk(file: seq<byte>, size: nat, offset: nat, sent: nat, done: seq<seq<byte>>, reports: seq<int>,
                     offset': nat, sent': nat, done': seq<seq<byte>>, reports': seq<int>)
    requires size > 0 && offset < |file|
    requires ChunkLoopInv(file, size, offset, sent, done, reports)
    requires var c := file[offset .. Min(offset + size, |file|)];
      && offset' == offset + size && sent' == sent + |c| && done' == done + [c]
      && reports' == reports + [Percent(sent', |file|)]
    ensures |ChunksFrom(file, size, offset)| == 1 + |ChunksFrom(file, size, offset')|
    ensures ChunkLoopInv(file, size, offset', sent', done', reports')
  {
    var c := file[offset .. Min(offset + size, |file|)];
    var rest := ChunksFrom(file, size, offset');
    assert ChunksFrom(file, size, offset) == [c] + rest;
    assert Chunks(file, size) == done' + rest;
    if |file| > 0 {
      RunningPercentsCons(sent, c, rest, |file|);
      assert reports' + RunningPercents(sent', rest, |file|) == reports + RunningPercents(sent, [c] + rest, |file|);
    }
  }

  /** The percents a sender reports over `buf`, one per chunk (none for an empty file); the receiver reports the same. */
  function FilePercentsOf(buf: seq<byte>, size: nat): seq<int>
    requires size > 0
  {
    if |buf| == 0 then [] else RunningPercents(0, Chunks(buf, size), |buf|)
  }

  /** When the loop ends every chunk has been counted: sent == total, and all reports are made. */
  lemma ChunkLoopDone(file: seq<byte>, size: nat, offset: nat, sent: nat, done: seq<seq<byte>>, reports: seq<int>)
    requires size > 0 && offset >= |file|
    requires ChunkLoopInv(file, size, offset, sent, done, reports)
    ensures done == Chunks(file, size) && sent == |file|
    ensures reports == FilePercentsOf(file, size)
  {
    assert ChunksFrom(file, size, offset) == [];
    if |file| == 0 {
      ChunkCount(file, size);
    }
  }
}
