/**
 * The `data` handler of `setupFileReceiver` (src/lib/fileTransfer.ts): a
 * state machine over a map from transfer id to the file being assembled.
 * The pure functions below say what one message does to the receiver's
 * state; the `Receiver` class performs the same updates in place.
 */
module TransferReceiver {
  import opened Wrappers
  import opened Chunking
  import opened Progress
  import opened TransferMessages

  /**
   * The accumulator kept per transfer id. The two storage branches of the
   * source (`streamBlobParts` and `chunks`) append the same payloads in the
   * same order, so they are one list of `parts` here.
   */
  datatype Entry = Entry(name: Option<string>, size: Option<nat>, received: nat,
                         parts: seq<seq<byte>>, streamChunks: nat)

  /** The argument of one `onFile` call. */
  datatype Delivery = Delivery(id: string, name: string, size: nat, blob: seq<byte>)

  /** The `files` map, with the `onFile` and `onProgress` calls made so far. */
  datatype State = State(files: map<string, Entry>, delivered: seq<Delivery>, progress: seq<int>)

  /** The entry `meta` installs. */
  function Fresh(name: Option<string>, size: Option<nat>): Entry
  {
    Entry(name, size, 0, [], 0)
  }

  /** `entry.size` is truthy: present and non-zero. Only then is progress reported. */
  predicate Reports(size: Option<nat>)
  {
    size.Some? && size.value != 0
  }

  /** The file `done` hands to `onFile`: the parts glued in arrival order, with the defaults for name and size. */
  function Assemble(id: string, e: Entry): (d: Delivery)
    ensures d.id == id && d.blob == Concat(e.parts)
    ensures d.name == (if e.name.Some? then e.name.value else "file")
    ensures d.size == (if e.size.Some? then e.size.value else |Concat(e.parts)|)
  {
    var blob := Concat(e.parts);
    Delivery(id, e.name.GetOr("file"), e.size.GetOr(|blob|), blob)
  }

  /** A `meta` message: a fresh entry for `id`, replacing any earlier one; other ids are untouched. */
  function MetaStep(st: State, id: string, name: Option<string>, size: Option<nat>): (r: State)
    ensures r.files.Keys == st.files.Keys + {id}
    ensures r.files[id].received == 0 && r.files[id].parts == [] && r.files[id].streamChunks == 0
    ensures r.files[id].name == name && r.files[id].size == size
    ensures forall k | k in st.files && k != id :: r.files[k] == st.files[k]
    ensures r.delivered == st.delivered && r.progress == st.progress
  {
    st.(files := st.files[id := Fresh(name, size)])
  }

  /**
   * A `chunk` message. Ignored (nothing changes) for an unknown id or a
   * payload that is not binary; otherwise the payload joins the end of the
   * entry's parts, its length is added to `received`, `streamChunks` grows by
   * one and, when the entry's size is non-zero, the new percent is reported.
   */
  function ChunkStep(st: State, id: string, payload: Payload): (r: State)
    ensures id !in st.files || payload.NonBinary? ==> r == st
    ensures r.files.Keys == st.files.Keys
    ensures forall k | k in st.files && k != id :: r.files[k] == st.files[k]
    ensures r.delivered == st.delivered
    ensures id in st.files && payload.Binary? ==>
      var e, e' := st.files[id], r.files[id];
      && e'.received == e.received + |payload.bytes|
      && e'.parts == e.parts + [payload.bytes]
      && e'.streamChunks == e.streamChunks + 1
      && e'.name == e.name && e'.size == e.size
      && r.progress == st.progress + (if Reports(e.size) then [Percent(e'.received, e.size.value)] else [])
  {
    if id !in st.files then st
    else match payload
      case NonBinary => st
      case Binary(bytes) =>
        var e := st.files[id];
        var e' := e.(received := e.received + |bytes|, parts := e.parts + [bytes],
                     streamChunks := e.streamChunks + 1);
        var reported := if Reports(e'.size) then [Percent(e'.received, e'.size.value)] else [];
        State(st.files[id := e'], st.delivered, st.progress + reported)
  }

  /**
   * A `done` message. Ignored for an unknown id; otherwise the assembled
   * file is delivered and the entry removed, and nothing else changes.
   */
  function DoneStep(st: State, id: string): (r: State)
    ensures id !in st.files ==> r == st
    ensures r.files.Keys == st.files.Keys - {id}
    ensures forall k | k in r.files :: r.files[k] == st.files[k]
    ensures r.progress == st.progress
    ensures id in st.files ==> r.delivered == st.delivered + [Assemble(id, st.files[id])]
  {
    if id !in st.files then st
    else State(st.files - {id}, st.delivered + [Assemble(id, st.files[id])], st.progress)
  }

  /** One call of the `data` handler. Non-objects and objects with an unknown tag change nothing. */
  function Receive(st: State, data: Data): (r: State)
    ensures data.NonObject? || data.msg.Untagged? ==> r == st
    ensures |st.delivered| <= |r.delivered| && r.delivered[..|st.delivered|] == st.delivered
    ensures |st.progress| <= |r.progress| && r.progress[..|st.progress|] == st.progress
  {
    match data
    case NonObject => st
    case Object(m) =>
      match m
      case Meta(id, name, size) => MetaStep(st, id, name, size)
      case Chunk(id, payload) => ChunkStep(st, id, payload)
      case Done(id) => DoneStep(st, id)
      case Untagged => st
  }

  /** The handler called on each item of `ds` in turn. */
  function ReceiveAll(st: State, ds: seq<Data>): State
    decreases ds
  {
    if ds == [] then st else ReceiveAll(Receive(st, ds[0]), ds[1..])
  }

  /** Messages as they arrive on the channel: each one an object. */
  function Lift(ms: seq<Message>): (ds: seq<Data>)
    ensures |ds| == |ms|
    ensures forall j | 0 <= j < |ms| :: ds[j] == Object(ms[j])
  {
    seq(|ms|, j requires 0 <= j < |ms| => Object(ms[j]))
  }

  lemma {:induction false} ReceiveAllAppend(st: State, a: seq<Data>, b: seq<Data>)
    ensures ReceiveAll(st, a + b) == ReceiveAll(ReceiveAll(st, a), b)
    decreases a
  {
    if a == [] {
      assert a + b == b;
    } else {
      assert (a + b)[0] == a[0] && (a + b)[1..] == a[1..] + b;
      ReceiveAllAppend(Receive(st, a[0]), a[1..], b);
    }
  }

  /** Every entry's `received` is the byte count of its parts and `streamChunks` their number. */
  ghost predicate Consistent(st: State)
  {
    forall k | k in st.files :: st.files[k].received == TotalLength(st.files[k].parts)
                                && st.files[k].streamChunks == |st.files[k].parts|
  }

  /** The handler keeps every entry's counters in step with its parts. */
  lemma ReceiveConsistent(st: State, data: Data)
    requires Consistent(st)
    ensures Consistent(Receive(st, data))
  {
    if data.Object? && data.msg.Chunk? && data.msg.id in st.files && data.msg.chunk.Binary? {
      var e := st.files[data.msg.id];
      ConcatAppend(e.parts, data.msg.chunk.bytes);
    }
  }

  /** On a consistent state, the file `done` delivers is exactly as long as the bytes counted in. */
  lemma DoneDeliversReceived(st: State, id: string)
    requires Consistent(st) && id in st.files
    ensures |Assemble(id, st.files[id]).blob| == st.files[id].received
  {
    TotalLengthIsConcatLength(st.files[id].parts);
  }

  /** An entry after the binary payloads `parts` have been absorbed. */
  function Absorb(e: Entry, parts: seq<seq<byte>>): Entry
  {
    e.(received := e.received + TotalLength(parts), parts := e.parts + parts,
       streamChunks := e.streamChunks + |parts|)
  }

  /** The percents reported while an entry absorbs `parts`. */
  function Reported(e: Entry, parts: seq<seq<byte>>): seq<int>
  {
    if Reports(e.size) then RunningPercents(e.received, parts, e.size.value) else []
  }

  lemma AbsorbOne(e: Entry, p: seq<byte>)
    ensures Absorb(e, [p]) == e.(received := e.received + |p|, parts := e.parts + [p],
                                 streamChunks := e.streamChunks + 1)
    ensures Reported(e, [p]) == if Reports(e.size) then [Percent(e.received + |p|, e.size.value)] else []
  {
    assert [p][0] == p && [p][1..] == [];
    assert TotalLength([p]) == |p| + TotalLength([]);
    if Reports(e.size) {
      assert RunningPercents(e.received + |p|, [], e.size.value) == [];
    }
  }

  lemma AbsorbCons(e: Entry, p: seq<byte>, rest: seq<seq<byte>>)
    ensures Absorb(Absorb(e, [p]), rest) == Absorb(e, [p] + rest)
  {
    AbsorbOne(e, p);
    assert ([p] + rest)[0] == p && ([p] + rest)[1..] == rest;
    assert e.parts + [p] + rest == e.parts + ([p] + rest);
  }

  lemma ReportedCons(e: Entry, p: seq<byte>, rest: seq<seq<byte>>)
    ensures Reported(e, [p]) + Reported(Absorb(e, [p]), rest) == Reported(e, [p] + rest)
  {
    AbsorbOne(e, p);
    if Reports(e.size) {
      RunningPercentsCons(e.received, p, rest, e.size.value);
    }
  }

  lemma ChunkStepKnown(st: State, id: string, p: seq<byte>)
    requires id in st.files
    ensures Receive(st, Object(Chunk(id, Binary(p))))
      == State(st.files[id := Absorb(st.files[id], [p])], st.delivered, st.progress + Reported(st.files[id], [p]))
  {
    AbsorbOne(st.files[id], p);
  }

  lemma ReceiveAllCons(st: State, d: Data, ds: seq<Data>)
    ensures ReceiveAll(st, [d] + ds) == ReceiveAll(Receive(st, d), ds)
  {
    assert ([d] + ds)[0] == d && ([d] + ds)[1..] == ds;
  }

  /**
   * Feeding the chunk messages of `parts` for a known id: the parts are
   * appended in order, the counters advance, and one percent per part is
   * reported when the size is non-zero.
   */
  lemma {:induction false} FeedChunks(st: State, id: string, parts: seq<seq<byte>>)
    requires id in st.files
    ensures ReceiveAll(st, Lift(ChunkMessages(id, parts)))
      == State(st.files[id := Absorb(st.files[id], parts)], st.delivered,
               st.progress + Reported(st.files[id], parts))
    decreases parts
  {
    var e := st.files[id];
    if parts == [] {
      assert Absorb(e, parts) == e;
      UpdateSame(st.files, id);
    } else {
      var p, rest := parts[0], parts[1..];
      assert parts == [p] + rest;
      LiftChunksCons(id, p, rest);
      ReceiveAllCons(st, Object(Chunk(id, Binary(p))), Lift(ChunkMessages(id, rest)));
      ChunkStepKnown(st, id, p);
      var st1 := State(st.files[id := Absorb(e, [p])], st.delivered, st.progress + Reported(e, [p]));
      FeedChunks(st1, id, rest);
      AbsorbCons(e, p, rest);
      ReportedCons(e, p, rest);
      UpdateTwice(st.files, id, Absorb(e, [p]), Absorb(e, parts));
      AppendAssoc(st.progress, Reported(e, [p]), Reported(Absorb(e, [p]), rest));
    }
  }

  /** After `meta` and every chunk, the entry for `id` holds all of the chunks and counts all of the bytes. */
  lemma FeedFile(st: State, id: string, name: string, buf: seq<byte>, size: nat)
    requires size > 0
    ensures var chunks := Chunks(buf, size);
      ReceiveAll(st, [Object(MetaFor(id, name, buf))] + Lift(ChunkMessages(id, chunks)))
      == State(st.files[id := Entry(Some(name), Some(|buf|), |buf|, chunks, |chunks|)],
               st.delivered, st.progress + FilePercentsOf(buf, size))
  {
    var chunks := Chunks(buf, size);
    var meta := MetaFor(id, name, buf);
    ReceiveAllAppend(st, [Object(meta)], Lift(ChunkMessages(id, chunks)));
    ReceiveAllOne(st, Object(meta));
    var e := Fresh(Some(name), Some(|buf|));
    var st1 := State(st.files[id := e], st.delivered, st.progress);
    assert Receive(st, Object(meta)) == st1;
    FeedChunks(st1, id, chunks);
    ChunksConcat(buf, size);
    assert Absorb(e, chunks) == Entry(Some(name), Some(|buf|), |buf|, chunks, |chunks|);
    UpdateTwice(st.files, id, e, Absorb(e, chunks));
  }

  /**
   * The round trip: whatever the receiver held before, the complete output
   * of the sender for `buf` delivers exactly `buf` under its name and size,
   * leaves no entry behind for the id, touches no other id, and the
   * receiver reports the same percents as the sender.
   */
  lemma RoundTrip(st: State, id: string, name: string, buf: seq<byte>, size: nat)
    requires size > 0
    ensures ReceiveAll(st, Lift(Transcript(id, name, buf, size)))
      == State(st.files - {id},
               st.delivered + [Delivery(id, name, |buf|, buf)],
               st.progress + FilePercentsOf(buf, size))
  {
    var chunks := Chunks(buf, size);
    var meta, body, done := MetaFor(id, name, buf), ChunkMessages(id, chunks), Done(id);
    var front := [Object(meta)] + Lift(body);
    var entry := Entry(Some(name), Some(|buf|), |buf|, chunks, |chunks|);
    var st2 := State(st.files[id := entry], st.delivered, st.progress + FilePercentsOf(buf, size));
    calc {
      ReceiveAll(st, Lift(Transcript(id, name, buf, size)));
      { LiftAppend(meta, body, done); }
      ReceiveAll(st, front + [Object(done)]);
      { ReceiveAllAppend(st, front, [Object(done)]); }
      ReceiveAll(ReceiveAll(st, front), [Object(done)]);
      { FeedFile(st, id, name, buf, size); }
      ReceiveAll(st2, [Object(done)]);
      { ReceiveAllOne(st2, Object(done)); }
      DoneStep(st2, id);
      State(st.files[id := entry] - {id}, st.delivered + [Assemble(id, entry)], st2.progress);
      { RemoveUpdated(st.files, id, entry);
        assert Assemble(id, entry) == Delivery(id, name, |buf|, buf) by { ChunksConcat(buf, size); } }
      State(st.files - {id}, st.delivered + [Delivery(id, name, |buf|, buf)], st.progress + FilePercentsOf(buf, size));
    }
  }

  lemma LiftChunksCons(id: string, p: seq<byte>, rest: seq<seq<byte>>)
    ensures Lift(ChunkMessages(id, [p] + rest)) == [Object(Chunk(id, Binary(p)))] + Lift(ChunkMessages(id, rest))
  {
  }

  lemma AppendAssoc<T>(a: seq<T>, b: seq<T>, c: seq<T>)
    ensures a + b + c == a + (b + c)
  {
  }

  lemma UpdateSame<K, V>(m: map<K, V>, k: K)
    requires k in m
    ensures m[k := m[k]] == m
  {
  }

  lemma UpdateTwice<K, V>(m: map<K, V>, k: K, a: V, b: V)
    ensures m[k := a][k := b] == m[k := b]
  {
  }

  lemma RemoveUpdated<K, V>(m: map<K, V>, k: K, v: V)
    ensures m[k := v] - {k} == m - {k}
  {
  }

  lemma LiftAppend(meta: Message, body: seq<Message>, done: Message)
    ensures Lift([meta] + body + [done]) == [Object(meta)] + Lift(body) + [Object(done)]
  {
  }

  lemma ReceiveAllOne(st: State, d: Data)
    ensures ReceiveAll(st, [d]) == Receive(st, d)
  {
    assert [d][1..] == [];
  }

  /** The receiver of one data channel: the `files` map and the callbacks' outputs. */
  class Receiver {
    var files: map<string, Entry>
    /** The arguments of the `onFile` calls so far. */
    var delivered: seq<Delivery>
    /** The arguments of the `onProgress` calls so far. */
    var progress: seq<int>

    function Snapshot(): State
      reads this
    {
      State(files, delivered, progress)
    }

    constructor ()
      ensures files == map[] && delivered == [] && progress == []
    {
      files, delivered, progress := map[], [], [];
    }

    /** `files.set(meta.id, { ... received: 0 ... })`. */
    method OnMeta(id: string, name: Option<string>, size: Option<nat>)
      modifies this
      ensures Snapshot() == MetaStep(old(Snapshot()), id, name, size)
    {
      files := files[id := Fresh(name, size)];
    }

    /** The `chunk` branch: update the entry in place and put it back. */
    method OnChunk(id: string, payload: Payload)
      modifies this
      ensures Snapshot() == ChunkStep(old(Snapshot()), id, payload)
    {
      if id !in files {
        return;
      }
      if payload.NonBinary? {
        return;
      }
      var entry := files[id];
      entry := entry.(received := entry.received + |payload.bytes|);
      entry := entry.(parts := entry.parts + [payload.bytes]);
      entry := entry.(streamChunks := entry.streamChunks + 1);
      if Reports(entry.size) {
        progress := progress + [Percent(entry.received, entry.size.value)];
      }
      files := files[id := entry];
    }

    /** The `done` branch: hand the assembled file to `onFile`, then delete the entry. */
    method OnDone(id: string)
      modifies this
      ensures Snapshot() == DoneStep(old(Snapshot()), id)
    {
      if id !in files {
        return;
      }
      var entry := files[id];
      delivered := delivered + [Assemble(id, entry)];
      files := files - {id};
    }

    /** The `data` handler: dispatch on the message's type tag. */
    method OnData(data: Data)
      modifies this
      ensures Snapshot() == Receive(old(Snapshot()), data)
    {
      if data.NonObject? {
        return;
      }
      match data.msg
      case Meta(id, name, size) => OnMeta(id, name, size);
      case Chunk(id, payload) => OnChunk(id, payload);
      case Done(id) => OnDone(id);
      case Untagged =>
    }
  }
}
