/**
 * The wire messages of a file transfer (`FileMeta`, `FileChunk`,
 * `FileDone`) and the exact sequence a sender puts on the channel.
 */
module TransferMessages {
  import opened Wrappers
  import opened Chunking

  /** A chunk's payload: an ArrayBuffer, or something else the receiver rejects. */
  datatype Payload = Binary(bytes: seq<byte>) | NonBinary

  /**
   * A message object, dispatched on its `type` tag. `name` and `size` of a
   * `meta` may be missing when a peer leaves them out; `Untagged` is an
   * object whose tag is none of the three.
   */
  datatype Message =
    | Meta(id: string, name: Option<string>, size: Option<nat>)
    | Chunk(id: string, chunk: Payload)
    | Done(id: string)
    | Untagged

  /** Whatever arrives on the data channel: a message object or a non-object value. */
  datatype Data = NonObject | Object(msg: Message)

  /** One `chunk` message per part, in order, all tagged `id`. */
  function ChunkMessages(id: string, parts: seq<seq<byte>>): (ms: seq<Message>)
    ensures |ms| == |parts|
    ensures forall j | 0 <= j < |ms| :: ms[j] == Chunk(id, Binary(parts[j]))
  {
    seq(|parts|, j requires 0 <= j < |parts| => Chunk(id, Binary(parts[j])))
  }

  lemma ChunkMessagesAppend(id: string, parts: seq<seq<byte>>, p: seq<byte>)
    ensures ChunkMessages(id, parts + [p]) == ChunkMessages(id, parts) + [Chunk(id, Binary(p))]
  {
  }

  /** The message for the start of a transfer of `buf` called `name`. */
  function MetaFor(id: string, name: string, buf: seq<byte>): Message
  {
    Meta(id, Some(name), Some(|buf|))
  }

  /**
   * Everything a completed `sendFile` sends: one `meta`, one `chunk` per
   * slice in offset order, one `done`.
   */
  function Transcript(id: string, name: string, buf: seq<byte>, size: nat): seq<Message>
    requires size > 0
  {
    [MetaFor(id, name, buf)] + ChunkMessages(id, Chunks(buf, size)) + [Done(id)]
  }

  /** A log that received the meta, the chunks and the done in turn holds the transcript at its end. */
  lemma AppendTranscript(log: seq<Message>, id: string, name: string, buf: seq<byte>, size: nat)
    requires size > 0
    ensures log + [MetaFor(id, name, buf)] + ChunkMessages(id, Chunks(buf, size)) + [Done(id)]
      == log + Transcript(id, name, buf, size)
  {
  }

  /**
   * Message order: exactly one `meta` (first), then only chunks carrying the
   * slices in order, then exactly one `done` (last); every message carries `id`.
   */
  lemma TranscriptShape(id: string, name: string, buf: seq<byte>, size: nat)
    requires size > 0
    ensures var t := Transcript(id, name, buf, size);
      && |t| == |Chunks(buf, size)| + 2
      && t[0] == Meta(id, Some(name), Some(|buf|))
      && t[|t| - 1] == Done(id)
      && (forall j | 0 < j < |t| - 1 :: t[j] == Chunk(id, Binary(Chunks(buf, size)[j - 1])))
      && (forall j | 0 <= j < |t| :: !t[j].Untagged? && t[j].id == id)
      && (forall j | 0 <= j < |t| :: t[j].Meta? <==> j == 0)
      && (forall j | 0 <= j < |t| :: t[j].Done? <==> j == |t| - 1)
  {
  }

  /** An empty file is announced and finished with no chunk in between. */
  lemma EmptyTranscript(id: string, name: string, size: nat)
    requires size > 0
    ensures Transcript(id, name, [], size) == [Meta(id, Some(name), Some(0)), Done(id)]
  {
    assert Chunks([], size) == [];
  }
}
