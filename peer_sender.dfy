/**
 * `sendFile` of src/lib/peer.ts: the same three-message protocol with a
 * fixed 32 KiB chunk and no backpressure.
 */
module PeerSender {
  import opened Wrappers
  import opened Chunking
  import opened Progress
  import opened TransferMessages
  import opened Channel

  /** CHUNK_SIZE, 32 KiB. */
  const ChunkSize: nat := 32 * 1024

  /**
   * The invariant of the chunk loop over the channel's log `msgs`, which holds
   * `msgs0` and then one chunk per done slice; the buffer sizes recorded before
   * the loop (`atSend0`) are kept and every send since saw `b`, as nothing reads
   * `bufferSize` in between.
   */
  ghost predicate PeerInv(file: seq<byte>, id: string, msgs0: seq<Message>, atSend0: seq<Option<int>>, b: Option<int>,
                          offset: nat, sent: nat, done: seq<seq<byte>>, reports: seq<int>,
                          msgs: seq<Message>, atSend: seq<Option<int>>)
  {
    && ChunkLoopInv(file, ChunkSize, offset, sent, done, reports)
    && msgs == msgs0 + ChunkMessages(id, done)
    && |atSend| == |msgs| && |atSend0| == |msgs0|
    && atSend[..|msgs0|] == atSend0
    && (forall j | |msgs0| <= j < |atSend| :: atSend[j] == b)
  }

  lemma PeerStep(file: seq<byte>, id: string, msgs0: seq<Message>, atSend0: seq<Option<int>>, b: Option<int>,
                 offset: nat, sent: nat, done: seq<seq<byte>>, reports: seq<int>,
                 msgs: seq<Message>, atSend: seq<Option<int>>,
                 offset': nat, sent': nat, done': seq<seq<byte>>, reports': seq<int>,
                 msgs': seq<Message>, atSend': seq<Option<int>>)
    requires offset < |file|
    requires PeerInv(file, id, msgs0, atSend0, b, offset, sent, done, reports, msgs, atSend)
    requires var c := file[offset .. Min(offset + ChunkSize, |file|)];
      && offset' == offset + ChunkSize && sent' == sent + |c| && done' == done + [c]
      && reports' == reports + [Percent(sent', |file|)]
      && msgs' == msgs + [Chunk(id, Binary(c))]
    requires atSend' == atSend + [b]
    ensures PeerInv(file, id, msgs0, atSend0, b, offset', sent', done', reports', msgs', atSend')
  {
    assert atSend'[..|msgs0|] == atSend[..|msgs0|];
    AdvanceChunk(file, ChunkSize, offset, sent, done, reports, offset', sent', done', reports');
    ChunkMessagesAppend(id, done, file[offset .. Min(offset + ChunkSize, |file|)]);
  }

  /** The chunk loop: every slice goes out at once, its bytes counted and its percent reported. */
  method SendChunks(file: seq<byte>, id: string, conn: Connection) returns (reports: seq<int>)
    requires conn.Valid()
    modifies conn
    ensures conn.Valid()
    ensures conn.sent == old(conn.sent) + ChunkMessages(id, Chunks(file, ChunkSize))
    ensures reports == FilePercentsOf(file, ChunkSize)
    ensures conn.readings == old(conn.readings) && conn.bufferSize == old(conn.bufferSize)
    ensures conn.bufferAtSend[..|old(conn.sent)|] == old(conn.bufferAtSend)
    ensures forall j | |old(conn.sent)| <= j < |conn.sent| :: conn.bufferAtSend[j] == old(conn.bufferSize)
  {
    // `total` of the source is |file| throughout.
    ghost var done: seq<seq<byte>> := [];
    ghost var msgs0, atSend0 := conn.sent, conn.bufferAtSend;
    var offset: nat, sent: nat := 0, 0;
    reports := [];
    while offset < |file|
      invariant PeerInv(file, id, msgs0, atSend0, old(conn.bufferSize), offset, sent, done, reports,
                        conn.sent, conn.bufferAtSend)
      invariant conn.readings == old(conn.readings) && conn.bufferSize == old(conn.bufferSize)
    {
      var chunk := file[offset .. Min(offset + ChunkSize, |file|)];
      ghost var offset0, sent0, done0, reports0 := offset, sent, done, reports;
      ghost var msgs1, atSend1 := conn.sent, conn.bufferAtSend;
      conn.Send(Chunk(id, Binary(chunk)));
      offset, sent, done := offset + ChunkSize, sent + |chunk|, done + [chunk];
      reports := reports + [Percent(sent, |file|)];
      PeerStep(file, id, msgs0, atSend0, old(conn.bufferSize), offset0, sent0, done0, reports0, msgs1, atSend1,
               offset, sent, done, reports, conn.sent, conn.bufferAtSend);
    }
    ChunkLoopDone(file, ChunkSize, offset, sent, done, reports);
  }

  /**
   * `sendFile(file, conn, onProgress)` with the file's bytes, its name and
   * the transfer id given; `reports` are the percents passed to `onProgress`.
   * Everything sent is the transcript: meta, the 32 KiB slices, done.
   */
  method SendFile(file: seq<byte>, name: string, id: string, conn: Connection)
    returns (transferId: string, reports: seq<int>)
    requires conn.Valid()
    modifies conn
    ensures conn.Valid()
    ensures transferId == id
    ensures conn.sent == old(conn.sent) + Transcript(id, name, file, ChunkSize)
    ensures reports == FilePercentsOf(file, ChunkSize)
    ensures conn.readings == old(conn.readings) && conn.bufferSize == old(conn.bufferSize)
    ensures conn.bufferAtSend[..|old(conn.sent)|] == old(conn.bufferAtSend)
    ensures forall j | |old(conn.sent)| <= j < |conn.sent| :: conn.bufferAtSend[j] == old(conn.bufferSize)
  {
    ghost var sent0 := conn.sent;
    ghost var atSend0 := conn.bufferAtSend;
    conn.Send(MetaFor(id, name, file));
    reports := SendChunks(file, id, conn);
    conn.Send(Done(id));
    transferId := id;
    AppendTranscript(sent0, id, name, file, ChunkSize);
  }

  /** A 100000-byte file goes out as chunks of 32768, 32768, 32768 and 1696 bytes. */
  lemma HundredThousandBytes(buf: seq<byte>)
    requires |buf| == 100000
    ensures |Chunks(buf, ChunkSize)| == 4
    ensures |Chunks(buf, ChunkSize)[0]| == 32768 && |Chunks(buf, ChunkSize)[1]| == 32768
    ensures |Chunks(buf, ChunkSize)[2]| == 32768 && |Chunks(buf, ChunkSize)[3]| == 1696
  {
    ChunkCount(buf, ChunkSize);
    ChunkAt(buf, ChunkSize, 0);
    ChunkAt(buf, ChunkSize, 1);
    ChunkAt(buf, ChunkSize, 2);
    ChunkAt(buf, ChunkSize, 3);
  }
}
