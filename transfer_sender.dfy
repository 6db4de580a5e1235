/**
 * `sendFile` of src/lib/fileTransfer.ts: chunked sending with a
 * backpressure wait before every chunk.
 */
module TransferSender {
  import opened Wrappers
  import opened Chunking
  import opened Progress
  import opened TransferMessages
  import opened Channel

  /** 16 * 1024 * 50 = 819200 bytes (800 KiB, though the comment beside it says 50KB). */
  const DrainThreshold: int := 16 * 1024 * 50

  /** The condition `waitForDrain` keeps waiting on: bufferSize present, non-zero and over the threshold. */
  predicate Congested(b: Option<int>)
  {
    b.Some? && b.value != 0 && b.value > DrainThreshold
  }

  /** The position of the first reading at which `waitForDrain` stops waiting, if any. */
  function FirstDrained(readings: seq<Option<int>>): (r: Option<nat>)
    ensures r.Some? ==> r.value < |readings| && !Congested(readings[r.value])
    ensures r.Some? ==> forall j | 0 <= j < r.value :: Congested(readings[j])
    ensures r.None? ==> forall j | 0 <= j < |readings| :: Congested(readings[j])
  {
    if readings == [] then None
    else if !Congested(readings[0]) then Some(0)
    else match FirstDrained(readings[1..])
      case None => None
      case Some(i) => Some(i + 1)
  }

  /** `bufferSize` after reading all of `readings`, starting from `b`. */
  function LastReading(b: Option<int>, readings: seq<Option<int>>): Option<int>
  {
    if readings == [] then b else readings[|readings| - 1]
  }

  /**
   * `waitForDrain`: read `bufferSize` until it is absent, zero or at most
   * the threshold. Every check consumes one reading; once the readings are
   * used up the channel is taken to stay congested from then on, so
   * `drained` is false exactly when no reading left ends the wait (the source
   * then waits forever), whatever the last value read was.
   */
  method WaitForDrain(conn: Connection) returns (drained: bool)
    modifies conn
    ensures drained <==> FirstDrained(old(conn.readings)).Some?
    ensures drained ==> var i := FirstDrained(old(conn.readings)).value;
      conn.readings == old(conn.readings)[i + 1..] && conn.bufferSize == old(conn.readings)[i]
    ensures drained ==> !Congested(conn.bufferSize)
    ensures !drained ==> conn.readings == [] && conn.bufferSize == LastReading(old(conn.bufferSize), old(conn.readings))
    ensures conn.sent == old(conn.sent) && conn.bufferAtSend == old(conn.bufferAtSend)
  {
    ghost var rs := conn.readings;
    ghost var b0 := conn.bufferSize;
    ghost var k := 0;
    drained := false;
    while !drained && conn.readings != []
      invariant 0 <= k <= |rs| && conn.readings == rs[k..]
      invariant conn.sent == old(conn.sent) && conn.bufferAtSend == old(conn.bufferAtSend)
      invariant !drained ==> forall j | 0 <= j < k :: Congested(rs[j])
      invariant !drained ==> conn.bufferSize == (if k == 0 then b0 else rs[k - 1])
      invariant drained ==> 0 < k && conn.bufferSize == rs[k - 1] && !Congested(rs[k - 1])
      invariant drained ==> forall j | 0 <= j < k - 1 :: Congested(rs[j])
      decreases |conn.readings|, !drained
    {
      var b := conn.ReadBufferSize();
      drained := !Congested(b);
      k := k + 1;
    }
    if drained {
      var i := FirstDrained(rs);
      assert i.Some? && i.value == k - 1;
    } else {
      assert k == |rs|;
    }
  }

  /** How many of `n` chunks get out before a wait never ends. */
  function SendableChunks(readings: seq<Option<int>>, n: nat): (k: nat)
    ensures k <= n
  {
    if n == 0 then 0
    else match FirstDrained(readings)
      case None => 0
      case Some(i) => 1 + SendableChunks(readings[i + 1..], n - 1)
  }

  lemma SendableStep(readings: seq<Option<int>>, n: nat)
    requires n > 0 && FirstDrained(readings).Some?
    ensures SendableChunks(readings, n)
      == 1 + SendableChunks(readings[FirstDrained(readings).value + 1..], n - 1)
  {
  }

  /**
   * The readings still unread after `n` waits, the last of which may never
   * end: a wait that never ends reads everything.
   */
  function Remaining(readings: seq<Option<int>>, n: nat): seq<Option<int>>
  {
    if n == 0 then readings
    else match FirstDrained(readings)
      case None => []
      case Some(i) => Remaining(readings[i + 1..], n - 1)
  }

  /** `bufferSize` after the same `n` waits, starting from `b`. */
  function BufferAfter(b: Option<int>, readings: seq<Option<int>>, n: nat): Option<int>
    decreases n
  {
    if n == 0 then b
    else match FirstDrained(readings)
      case None => LastReading(b, readings)
      case Some(i) => BufferAfter(readings[i], readings[i + 1..], n - 1)
  }

  /**
   * What the channel looks like after `n` waits: when they all end, the last
   * one ended on an uncongested reading; when one never ends, every reading
   * is consumed and `bufferSize` is the last of them.
   */
  lemma {:induction false} WaitsOutcome(b: Option<int>, readings: seq<Option<int>>, n: nat)
    ensures 0 < n == SendableChunks(readings, n) ==> !Congested(BufferAfter(b, readings, n))
    ensures SendableChunks(readings, n) < n ==>
      Remaining(readings, n) == [] && BufferAfter(b, readings, n) == LastReading(b, readings)
    decreases n
  {
    if n > 0 && FirstDrained(readings).Some? {
      var i := FirstDrained(readings).value;
      WaitsOutcome(readings[i], readings[i + 1..], n - 1);
    }
  }

  /** One wait that ends: `n` waits are that one, then `n - 1` on the readings after it. */
  lemma WaitStep(readings: seq<Option<int>>, n: nat)
    requires n > 0 && FirstDrained(readings).Some?
    ensures Remaining(readings, n) == Remaining(readings[FirstDrained(readings).value + 1..], n - 1)
  {
  }

  /** The same for the value of `bufferSize` the waits leave behind. */
  lemma BufferStep(b: Option<int>, readings: seq<Option<int>>, n: nat)
    requires n > 0 && FirstDrained(readings).Some?
    ensures var i := FirstDrained(readings).value;
      BufferAfter(b, readings, n) == BufferAfter(readings[i], readings[i + 1..], n - 1)
  {
  }

  /**
   * The invariant of the chunk loop over the channel's own state: what is
   * left to read and the last value read come to `rest` and `last` after one
   * wait per chunk still to send.
   */
  ghost predicate ChannelInv(file: seq<byte>, size: nat, offset: nat, b: Option<int>, readings: seq<Option<int>>,
                             rest: seq<Option<int>>, last: Option<int>)
    requires size > 0
  {
    var n := |ChunksFrom(file, size, offset)|;
    Remaining(readings, n) == rest && BufferAfter(b, readings, n) == last
  }

  /** A wait that ends, for the chunk at `offset`, keeps `ChannelInv`. */
  lemma ChannelStep(file: seq<byte>, size: nat, offset: nat, b: Option<int>, readings: seq<Option<int>>,
                    rest: seq<Option<int>>, last: Option<int>, b': Option<int>, readings': seq<Option<int>>)
    requires size > 0 && offset < |file|
    requires ChannelInv(file, size, offset, b, readings, rest, last)
    requires FirstDrained(readings).Some?
    requires readings' == readings[FirstDrained(readings).value + 1..] && b' == readings[FirstDrained(readings).value]
    ensures ChannelInv(file, size, offset + size, b', readings', rest, last)
  {
    assert ChunksFrom(file, size, offset) == [file[offset .. Min(offset + size, |file|)]] + ChunksFrom(file, size, offset + size);
    WaitStep(readings, |ChunksFrom(file, size, offset)|);
    BufferStep(b, readings, |ChunksFrom(file, size, offset)|);
  }

  /** A wait that never ends, for the chunk at `offset`, leaves the channel as `ChannelInv` says all the waits do. */
  lemma ChannelStall(file: seq<byte>, size: nat, offset: nat, b: Option<int>, readings: seq<Option<int>>,
                     rest: seq<Option<int>>, last: Option<int>)
    requires size > 0 && offset < |file|
    requires ChannelInv(file, size, offset, b, readings, rest, last)
    requires FirstDrained(readings).None?
    ensures rest == [] && last == LastReading(b, readings)
    ensures SendableChunks(readings, |ChunksFrom(file, size, offset)|) == 0
  {
    assert |ChunksFrom(file, size, offset)| > 0;
  }

  /** `m` waits that all end, then `n` more, read the channel as `m + n` waits do. */
  lemma {:induction false} RemainingAdd(readings: seq<Option<int>>, m: nat, n: nat)
    requires SendableChunks(readings, m) == m
    ensures Remaining(Remaining(readings, m), n) == Remaining(readings, m + n)
    ensures SendableChunks(readings, m + n) == m + SendableChunks(Remaining(readings, m), n)
  {
    RemainingSum(readings, m, n, m + n);
    SendableSum(readings, m, n, m + n);
  }

  /** The first half of `RemainingAdd`, with the total `t` named so the induction keeps its terms aligned. */
  lemma {:induction false} RemainingSum(readings: seq<Option<int>>, m: nat, n: nat, t: nat)
    requires t == m + n && SendableChunks(readings, m) == m
    ensures Remaining(Remaining(readings, m), n) == Remaining(readings, t)
    decreases m
  {
    if m > 0 {
      var rest := SharedWait(readings, m, n, t);
      RemainingSum(rest, m - 1, n, t - 1);
    }
  }

  /** The second half of `RemainingAdd`: the chunks let out add up. */
  lemma {:induction false} SendableSum(readings: seq<Option<int>>, m: nat, n: nat, t: nat)
    requires t == m + n && SendableChunks(readings, m) == m
    ensures SendableChunks(readings, t) == m + SendableChunks(Remaining(readings, m), n)
    decreases m
  {
    if m > 0 {
      var rest := SharedWait(readings, m, n, t);
      SendableSum(rest, m - 1, n, t - 1);
    }
  }

  /**
   * The first of `m` waits that all end is also the first of `t` waits: both continue on
   * the same `rest` (the readings after the first drained one). Which slice `rest` is stays
   * out of the contract, so the inductions above reason about it as an opaque sequence.
   */
  lemma SharedWait(readings: seq<Option<int>>, m: nat, n: nat, t: nat) returns (rest: seq<Option<int>>)
    requires 0 < m && t == m + n && SendableChunks(readings, m) == m
    ensures SendableChunks(rest, m - 1) == m - 1
    ensures SendableChunks(readings, t) == 1 + SendableChunks(rest, t - 1)
    ensures Remaining(readings, m) == Remaining(rest, m - 1)
    ensures Remaining(readings, t) == Remaining(rest, t - 1)
  {
    rest := readings[FirstDrained(readings).value + 1..];
    SendableStep(readings, m);
    SendableStep(readings, t);
    WaitStep(readings, m);
    WaitStep(readings, t);
  }

  /** A channel that is never congested and reports often enough lets every chunk out. */
  lemma {:induction false} UncongestedSendsAll(readings: seq<Option<int>>, n: nat)
    requires |readings| >= n
    requires forall j | 0 <= j < |readings| :: !Congested(readings[j])
    ensures SendableChunks(readings, n) == n
  {
    if n > 0 {
      assert FirstDrained(readings) == Some(0);
      UncongestedSendsAll(readings[1..], n - 1);
    }
  }

  /** Lines 51-54 of one loop turn: wait for the channel to drain, then send the chunk. */
  method WaitAndSend(id: string, chunk: seq<byte>, conn: Connection) returns (drained: bool)
    requires conn.Valid()
    modifies conn
    ensures conn.Valid()
    ensures drained <==> FirstDrained(old(conn.readings)).Some?
    ensures drained ==> var i := FirstDrained(old(conn.readings)).value;
      conn.readings == old(conn.readings)[i + 1..] && conn.bufferSize == old(conn.readings)[i]
    ensures !drained ==> conn.readings == [] && conn.bufferSize == LastReading(old(conn.bufferSize), old(conn.readings))
    ensures drained ==> conn.sent == old(conn.sent) + [Chunk(id, Binary(chunk))]
    ensures drained ==> conn.bufferAtSend == old(conn.bufferAtSend) + [conn.bufferSize] && !Congested(conn.bufferSize)
    ensures !drained ==> conn.sent == old(conn.sent) && conn.bufferAtSend == old(conn.bufferAtSend)
  {
    drained := WaitForDrain(conn);
    if drained {
      conn.Send(Chunk(id, Binary(chunk)));
    }
  }

  /**
   * The invariant of the chunk loop, over the channel's log (`msgs`, with
   * the buffer size seen at each send, `atSend`) and its remaining
   * `readings`: `k` chunks will get out in all, the `done` ones already have,
   * each after a drained reading, and the log before the loop is untouched.
   */
  ghost predicate SendInv(file: seq<byte>, size: nat, id: string, k: nat,
                          msgs0: seq<Message>, atSend0: seq<Option<int>>,
                          offset: nat, sent: nat, done: seq<seq<byte>>, reports: seq<int>,
                          msgs: seq<Message>, atSend: seq<Option<int>>, readings: seq<Option<int>>)
    requires size > 0
  {
    && ChunkLoopInv(file, size, offset, sent, done, reports)
    && |done| + SendableChunks(readings, |ChunksFrom(file, size, offset)|) == k
    && msgs == msgs0 + ChunkMessages(id, done)
    && |atSend| == |msgs|
    && atSend[..|msgs0|] == atSend0
    && (forall j | |msgs0| <= j < |msgs| :: !Congested(atSend[j]))
  }

  lemma SendStep(file: seq<byte>, size: nat, id: string, k: nat, msgs0: seq<Message>, atSend0: seq<Option<int>>,
                 offset: nat, sent: nat, done: seq<seq<byte>>, reports: seq<int>,
                 msgs: seq<Message>, atSend: seq<Option<int>>, readings: seq<Option<int>>,
                 offset': nat, sent': nat, done': seq<seq<byte>>, reports': seq<int>,
                 msgs': seq<Message>, atSend': seq<Option<int>>, readings': seq<Option<int>>)
    requires size > 0 && offset < |file|
    requires SendInv(file, size, id, k, msgs0, atSend0, offset, sent, done, reports, msgs, atSend, readings)
    requires var c := file[offset .. Min(offset + size, |file|)];
      && offset' == offset + size && sent' == sent + |c| && done' == done + [c]
      && reports' == reports + [Percent(sent', |file|)]
      && msgs' == msgs + [Chunk(id, Binary(c))]
    requires FirstDrained(readings).Some? && readings' == readings[FirstDrained(readings).value + 1..]
    requires |atSend'| == |atSend| + 1 && atSend'[..|atSend|] == atSend && !Congested(atSend'[|atSend|])
    ensures |ChunksFrom(file, size, offset)| == 1 + |ChunksFrom(file, size, offset')|
    ensures SendInv(file, size, id, k, msgs0, atSend0, offset', sent', done', reports', msgs', atSend', readings')
  {
    var c := file[offset .. Min(offset + size, |file|)];
    AdvanceChunk(file, size, offset, sent, done, reports, offset', sent', done', reports');
    assert |done'| + SendableChunks(readings', |ChunksFrom(file, size, offset')|) == k by {
      SendableStep(readings, |ChunksFrom(file, size, offset)|);
    }
    assert msgs' == msgs0 + ChunkMessages(id, done') by {
      ChunkMessagesAppend(id, done, c);
    }
    assert atSend'[..|msgs0|] == atSend0 by {
      assert atSend'[..|msgs0|] == atSend[..|msgs0|];
    }
    forall j | |msgs0| <= j < |msgs'|
      ensures !Congested(atSend'[j])
    {
      if j < |msgs| {
        assert atSend'[j] == atSend[j];
      }
    }
  }

  /**
   * The chunk loop of `sendFile`: for each slice, wait for the channel to
   * drain, send the slice, count its bytes and report the percent. `stalled`
   * is set when a wait never ends; the chunks before it have gone out.
   */
  method SendChunks(file: seq<byte>, id: string, conn: Connection, chunkSize: nat)
    returns (stalled: bool, reports: seq<int>)
    requires chunkSize > 0
    requires conn.Valid()
    modifies conn
    ensures conn.Valid()
    ensures var chunks := Chunks(file, chunkSize);
      var k := SendableChunks(old(conn.readings), |chunks|);
      && (stalled <==> k < |chunks|)
      && conn.sent == old(conn.sent) + ChunkMessages(id, chunks[..k])
      && reports == FilePercentsOf(file, chunkSize)[..k]
    ensures forall j | |old(conn.sent)| <= j < |conn.sent| :: !Congested(conn.bufferAtSend[j])
    ensures conn.bufferAtSend[..|old(conn.sent)|] == old(conn.bufferAtSend)
    ensures var n := |Chunks(file, chunkSize)|;
      && conn.readings == Remaining(old(conn.readings), n)
      && conn.bufferSize == BufferAfter(old(conn.bufferSize), old(conn.readings), n)
  {
    // `total` of the source is |file| throughout.
    ghost var chunks := Chunks(file, chunkSize);
    ghost var k := SendableChunks(conn.readings, |chunks|);
    ghost var rest := Remaining(conn.readings, |chunks|);
    ghost var last := BufferAfter(conn.bufferSize, conn.readings, |chunks|);
    ghost var done: seq<seq<byte>> := [];
    ghost var msgs0, atSend0 := conn.sent, conn.bufferAtSend;

    var offset: nat, sent: nat := 0, 0;
    reports := [];
    stalled := false;
    while offset < |file|
      invariant SendInv(file, chunkSize, id, k, msgs0, atSend0, offset, sent, done, reports,
                        conn.sent, conn.bufferAtSend, conn.readings)
      invariant ChannelInv(file, chunkSize, offset, conn.bufferSize, conn.readings, rest, last)
    {
      var chunk := file[offset .. Min(offset + chunkSize, |file|)];
      ghost var offset0, sent0, done0, reports0 := offset, sent, done, reports;
      ghost var msgs1, atSend1, readings1, b1 := conn.sent, conn.bufferAtSend, conn.readings, conn.bufferSize;
      var drained := WaitAndSend(id, chunk, conn);
      if !drained {
        stalled := true;
        ChannelStall(file, chunkSize, offset, b1, readings1, rest, last);
        break;
      }
      offset, sent, done := offset + chunkSize, sent + |chunk|, done + [chunk];
      reports := reports + [Percent(sent, |file|)];
      SendStep(file, chunkSize, id, k, msgs0, atSend0, offset0, sent0, done0, reports0, msgs1, atSend1, readings1,
               offset, sent, done, reports, conn.sent, conn.bufferAtSend, conn.readings);
      ChannelStep(file, chunkSize, offset0, b1, readings1, rest, last, conn.bufferSize, conn.readings);
    }
    LoopExit(file, chunkSize, offset, sent, done, reports, k);
  }

  /** Where the chunk loop stops, with `k` chunks sent, those are the first `k` chunks and reports. */
  lemma LoopExit(file: seq<byte>, size: nat, offset: nat, sent: nat, done: seq<seq<byte>>, reports: seq<int>, k: nat)
    requires size > 0
    requires ChunkLoopInv(file, size, offset, sent, done, reports) && k == |done|
    ensures k <= |Chunks(file, size)| && Chunks(file, size)[..k] == done
    ensures k <= |FilePercentsOf(file, size)| && reports == FilePercentsOf(file, size)[..k]
  {
    var chunks := Chunks(file, size);
    assert chunks[..k] == done;
    if |file| > 0 {
      RunningPercentsShape(0, chunks, |file|);
    }
  }

  /** A log that starts with `prefix + [x]` starts with `prefix`, and holds `x` just after it. */
  lemma PrefixKept<T>(log: seq<T>, prefix: seq<T>, x: T)
    requires |log| > |prefix| && log[..|prefix| + 1] == prefix + [x]
    ensures log[..|prefix|] == prefix && log[|prefix|] == x
  {
    assert log[..|prefix|] == log[..|prefix| + 1][..|prefix|];
  }

  /**
   * `sendFile(file, conn, onProgress, chunkSize)` with the file's bytes,
   * its name and the transfer id given. `reports` are the percents passed to
   * `onProgress`. The transfer completes (returns the id) exactly when every
   * chunk's wait ends; otherwise the sender stays blocked after the chunks it
   * got out.
   */
  method SendFile(file: seq<byte>, name: string, id: string, conn: Connection, chunkSize: nat)
    returns (transferId: Option<string>, reports: seq<int>)
    requires chunkSize > 0
    requires conn.Valid()
    modifies conn
    ensures conn.Valid()
    ensures var chunks := Chunks(file, chunkSize);
      var k := SendableChunks(old(conn.readings), |chunks|);
      && conn.sent == old(conn.sent) + [MetaFor(id, name, file)] + ChunkMessages(id, chunks[..k])
                      + (if k == |chunks| then [Done(id)] else [])
      && transferId == (if k == |chunks| then Some(id) else None)
      && reports == FilePercentsOf(file, chunkSize)[..k]
    ensures transferId.Some? ==> conn.sent == old(conn.sent) + Transcript(id, name, file, chunkSize)
    ensures forall j | |old(conn.sent)| <= j < |conn.sent| && conn.sent[j].Chunk? ::
      !Congested(conn.bufferAtSend[j])
    ensures conn.bufferAtSend[..|old(conn.sent)|] == old(conn.bufferAtSend)
    ensures var n := |Chunks(file, chunkSize)|;
      && conn.readings == Remaining(old(conn.readings), n)
      && conn.bufferSize == BufferAfter(old(conn.bufferSize), old(conn.readings), n)
    ensures |conn.sent| > |old(conn.sent)| && conn.bufferAtSend[|old(conn.sent)|] == old(conn.bufferSize)
    ensures transferId.Some? ==> conn.bufferAtSend[|conn.sent| - 1] == conn.bufferSize
  {
    ghost var chunks := Chunks(file, chunkSize);
    ghost var k := SendableChunks(conn.readings, |chunks|);
    ghost var sent0, atSend0, b0 := conn.sent, conn.bufferAtSend, conn.bufferSize;
    ghost var rest := Remaining(conn.readings, |chunks|);
    ghost var last := BufferAfter(conn.bufferSize, conn.readings, |chunks|);
    conn.Send(MetaFor(id, name, file));
    ghost var sent1, atSend1 := conn.sent, conn.bufferAtSend;
    var stalled;
    stalled, reports := SendChunks(file, id, conn, chunkSize);
    assert conn.readings == rest && conn.bufferSize == last;
    ghost var atSend2 := conn.bufferAtSend;
    PrefixKept(atSend2, atSend0, b0);
    if stalled {
      transferId := None;
      assert conn.sent == sent1 + ChunkMessages(id, chunks[..k]) + [];
    } else {
      assert chunks[..k] == chunks;
      conn.Send(Done(id));
      transferId := Some(id);
      AppendTranscript(sent0, id, name, file, chunkSize);
      assert conn.bufferAtSend == atSend2 + [last];
      assert conn.bufferAtSend[..|sent0|] == atSend0;
    }
  }
}
