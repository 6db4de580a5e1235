# Share-Mee file transfer, in Dafny

This project models the chunked file-transfer protocol of Share-Mee, a browser
app that sends files between two peers over a WebRTC data channel. It also
models two small routines that sit beside the protocol. The following parts
are modelled:

- **Senders** (`sendFile` in `src/lib/fileTransfer.ts` and in `src/lib/peer.ts`):
  - the file's bytes are cut into fixed-size slices;
  - the channel receives one `meta` message, one `chunk` per slice in offset
    order, and one `done` message, all tagged with the transfer id;
  - a running byte count and an integer progress percent are kept.

  The `fileTransfer.ts` variant also waits before every chunk while the
  channel's `bufferSize` is over 16 * 1024 * 50 bytes. The channel is a
  `Connection` object whose `send` appends to a message log. The file is a
  sequence of bytes.
- **Receiver** (`setupFileReceiver`'s `data` handler): a state machine over a
  map from transfer id to accumulator. It has two forms:
  - the `TransferReceiver.Receiver` class updates its `files` map in place,
    one method per message type;
  - pure step functions say what each message does.

  The headline lemma, `TransferReceiver.RoundTrip`, feeds the sender's exact
  output into the receiver. The receiver then delivers the original bytes
  under the original name and size. It reports the same percents as the
  sender and leaves no entry behind.
- **Bracket scanner** (`scripts/find_unclosed.js`): a stack scan for `()[]{}`
  that stops at the first mismatched closer. It then lists the unclosed
  openers, each with the text from up to 40 characters before it to up to 39
  characters after it. A string built from
  well-nested groups is proved to scan to an empty stack.
- **Room-link check** (`handleScanResult` in `src/app/page.tsx`): the origin
  check, the path split and filter, the `room` segment check and the
  room-exists check. It ends in a navigation or one of four error messages.

The files:

- `chunking.dfy`: slicing and reassembly.
- `progress.dfy`: percents and the chunk loop's invariant.
- `transfer_messages.dfy`: the wire messages and the full transcript.
- `connection.dfy`: the channel.
- `transfer_sender.dfy`: `fileTransfer.ts` `sendFile`.
- `peer_sender.dfy`: `peer.ts` `sendFile`.
- `transfer_receiver.dfy`: the receiver.
- `find_unclosed.dfy`: the bracket scanner.
- `room_link.dfy`: the room-link check.
- `wrappers.dfy`: `Option`.

Behaviour of the source worth noting:

- Only `chunk` sends wait for the channel to drain; `meta` and `done` are sent
  at once.
- The threshold is 819200 bytes (800 KiB). The comment next to it says 50KB.
- The receiver reports its last percent (100) on the last chunk, not on `done`.
- A second `meta` for the same id replaces the accumulator.

## Model

| member | source | states |
|---|---|---|
| Chunking.ChunksConcat | src/lib/fileTransfer.ts:49-50 | Concatenating the slices the offset loop cuts gives back the whole buffer, and their lengths add up to its length. |
| Chunking.ChunkAt | src/lib/fileTransfer.ts:49-50 | Chunk k exists exactly when k*size < total, and it is `buffer[k*size .. min(k*size+size, total)]`. |
| Chunking.ChunkCount | src/lib/fileTransfer.ts:49-50 | There are ceil(total/size) chunks. There are none exactly when the file is empty. |
| Chunking.ChunksFromConcat | src/lib/fileTransfer.ts:49-50 | The slices from any offset on glue back to the rest of the buffer. |
| Progress.Percent | src/lib/fileTransfer.ts:59 | The reported percent, sent*100 div total, is never negative. It is at most 100 while sent <= total, and exactly 100 when sent == total. |
| Progress.PercentMonotone | src/lib/fileTransfer.ts:56-59 | More bytes sent never gives a smaller percent. |
| Progress.RunningPercentsShape | src/lib/fileTransfer.ts:56-59 | The percents reported after each chunk lie between the start and end percent. They never decrease, and the last one is the end percent. |
| Progress.FilePercents | src/lib/fileTransfer.ts:56-59 | Over a non-empty file the reports are in 0..100, non-decreasing, and end at exactly 100. |
| Progress.AdvanceChunk | src/lib/fileTransfer.ts:49-59 | One loop turn (slice, add its length to `sent`, report) keeps the loop invariant: the chunks so far plus the rest are all chunks, and `sent` is min(offset, total). |
| Progress.ChunkLoopDone | src/lib/fileTransfer.ts:49-60 | When the loop ends, `sent` equals the total, every chunk has been handled, and every percent has been reported. |
| TransferMessages.TranscriptShape | src/lib/fileTransfer.ts:45-64 | A completed send is exactly one `meta` (first, with name and byte size), then one `chunk` per slice in order, then exactly one `done` (last), all carrying the same id. |
| TransferMessages.EmptyTranscript | src/lib/fileTransfer.ts:46-63 | An empty file is sent as `meta` with size 0 followed directly by `done`. |
| Channel.Connection.constructor | src/lib/fileTransfer.ts:27 | A channel starts with an empty log and the given buffer-size readings. |
| Channel.Connection.Send | src/lib/fileTransfer.ts:27 | `send` appends the message to the log and records the buffer size at that moment. Nothing else changes. |
| Channel.Connection.ReadBufferSize | src/lib/fileTransfer.ts:39 | A read of `bufferSize` consumes the next reading and returns it. |
| TransferSender.FirstDrained | src/lib/fileTransfer.ts:37-43 | Finds the first reading at which the wait stops: every reading before it is congested and it is not. None means every reading is congested. |
| TransferSender.WaitForDrain | src/lib/fileTransfer.ts:37-43 | The wait returns exactly at the first reading that is absent, 0, or at most 819200, and then `bufferSize` is that reading. If every reading is congested it never returns, modelled as not drained: every reading is consumed and `bufferSize` is the last one. The log is untouched. |
| TransferSender.SendableChunks | src/lib/fileTransfer.ts:49-54 | The number of chunks that get out before a wait never ends is at most the number of chunks. |
| TransferSender.WaitsOutcome | src/lib/fileTransfer.ts:37-54 | After n waits that all end, `bufferSize` is uncongested. When one never ends, every reading is consumed and `bufferSize` is the last reading. |
| TransferSender.RemainingAdd | src/lib/fileTransfer.ts:37-54 | m waits that all end followed by n more consume the readings exactly as m + n waits do, and let the same number of chunks out. Two transfers sent one after the other on one channel compose; overlapping transfers are not covered. |
| TransferSender.UncongestedSendsAll | src/lib/fileTransfer.ts:37-54 | A channel that never reports congestion and gives at least one reading per chunk lets every chunk out. |
| TransferSender.WaitAndSend | src/lib/fileTransfer.ts:51-54 | A chunk is sent only after the wait ends, and then the buffer size at the send is the reading that ended the wait, which is not congested. If the wait never ends, nothing is sent, every reading is consumed and `bufferSize` is the last one. |
| TransferSender.SendChunks | src/lib/fileTransfer.ts:49-60 | The loop sends the first k chunk messages in order, where k is how many waits end, and stalls exactly when k falls short. It reports the first k running percents. Every chunk went out on an uncongested channel. The unread readings and `bufferSize` afterwards are those left by one wait per chunk (`Remaining`, `BufferAfter`). |
| TransferSender.SendFile | src/lib/fileTransfer.ts:25-65 | The log gains `meta`, the chunks that got out and, when all did, `done`. The function returns the id exactly then, and the log then ends with the full transcript. The percents are those of the chunks sent. The unread readings and `bufferSize` afterwards are those left by one wait per chunk. The buffer sizes recorded before are kept; `meta` records the `bufferSize` the call started with, and `done`, when sent, the one the last wait left. |
| PeerSender.SendChunks | src/lib/peer.ts:95-105 | Every 32 KiB slice is sent in order, one report per slice, with no wait. The buffer sizes recorded before are kept, and every send records the `bufferSize` the call started with, since nothing reads it in between. |
| PeerSender.SendFile | src/lib/peer.ts:75-110 | The log gains exactly the transcript (meta, 32 KiB chunks, done), the id is returned, and the reports are the running percents, ending at 100. The buffer sizes recorded before are kept, and every new send records the `bufferSize` the call started with. |
| PeerSender.HundredThousandBytes | src/lib/peer.ts:95-96 | A 100000-byte file is sent as chunks of 32768, 32768, 32768 and 1696 bytes. |
| TransferReceiver.Assemble | src/lib/fileTransfer.ts:143-157 | The delivered file holds the parts concatenated in arrival order. Its name defaults to "file" and its size to the blob's length. |
| TransferReceiver.MetaStep | src/lib/fileTransfer.ts:97-116 | `meta` installs a fresh entry (received 0, no parts, streamChunks 0, the given name and size), replacing any old one. Other ids and the outputs are untouched. |
| TransferReceiver.ChunkStep | src/lib/fileTransfer.ts:119-137 | A chunk for an unknown id or with a non-binary payload changes nothing. Otherwise the payload is appended, `received` grows by its length and `streamChunks` by one. A percent is reported only when the size is non-zero. Other ids are untouched. |
| TransferReceiver.DoneStep | src/lib/fileTransfer.ts:139-160 | `done` for an unknown id changes nothing. Otherwise it delivers the assembled file and removes exactly that entry. |
| TransferReceiver.Receive | src/lib/fileTransfer.ts:94-161 | Non-object data and objects with an unknown tag are ignored. The deliveries and reports only grow. |
| TransferReceiver.ReceiveConsistent | src/lib/fileTransfer.ts:119-137 | Every message keeps each entry's `received` equal to its parts' total length, and `streamChunks` equal to their number. |
| TransferReceiver.DoneDeliversReceived | src/lib/fileTransfer.ts:139-157 | On a consistent state the delivered blob is exactly `received` bytes long. |
| TransferReceiver.FeedChunks | src/lib/fileTransfer.ts:119-137 | A run of chunk messages for a known id appends the parts in order, advances the counters, and, when the entry's size is non-zero, reports one percent per part (none when it is absent or 0). |
| TransferReceiver.FeedFile | src/lib/fileTransfer.ts:97-137 | After `meta` and all chunks of a file, its entry holds every chunk and counts every byte. |
| TransferReceiver.RoundTrip | src/lib/fileTransfer.ts:94-161 | The sender's complete output delivers exactly the original bytes with the original name and size. The entry is removed, other ids are untouched, and the receiver's percents equal the sender's. |
| TransferReceiver.Receiver.constructor | src/lib/fileTransfer.ts:81-92 | The `files` map starts empty. |
| TransferReceiver.Receiver.OnMeta | src/lib/fileTransfer.ts:97-116 | The map update in place matches `MetaStep`. |
| TransferReceiver.Receiver.OnChunk | src/lib/fileTransfer.ts:119-137 | The in-place entry update matches `ChunkStep`. |
| TransferReceiver.Receiver.OnDone | src/lib/fileTransfer.ts:139-160 | Delivering and deleting in place matches `DoneStep`. |
| TransferReceiver.Receiver.OnData | src/lib/fileTransfer.ts:94-161 | The handler's dispatch on the type tag matches `Receive`. |
| FindUnclosed.Partner | scripts/find_unclosed.js:3 | Each opener's partner in the `pairs` table is a closer. |
| FindUnclosed.Step | scripts/find_unclosed.js:5-14 | An opener is pushed with its index. A matching closer pops. Any other closer stops the scan with the stack unchanged. Other characters change nothing. |
| FindUnclosed.Scan | scripts/find_unclosed.js:4-15 | The loop ends with the stack of the whole-text scan. On a mismatch it reports the closer's index and the stack as it stood before that closer. |
| FindUnclosed.MismatchSticks | scripts/find_unclosed.js:10-13 | After the break, later characters play no part. |
| FindUnclosed.ScanWellFormed | scripts/find_unclosed.js:7-9 | Every stack entry is an opener found at its recorded index. The indices strictly increase and lie below the text length. |
| FindUnclosed.ScanMismatch | scripts/find_unclosed.js:8-13 | A mismatch is at a closer that the top of the stack does not match, or that meets an empty stack. The reported stack is the scan's stack just before it. |
| FindUnclosed.RunSplit | scripts/find_unclosed.js:5-15 | Scanning a text in two pieces is scanning the first piece, then the second from where the first stopped. |
| FindUnclosed.BalancedScan | scripts/find_unclosed.js:5-16 | Text built from well-nested bracket groups scans with no mismatch and an unclosed count of 0. |
| FindUnclosed.ContextWindow | scripts/find_unclosed.js:18-21 | The context window `[max(0,i-40), min(len,i+40))` lies within the text, contains index i, and is at most 80 characters long. |
| FindUnclosed.FindUnclosed | scripts/find_unclosed.js:3-23 | The script reports the mismatch index if there is one, the unclosed openers with their characters and indices (the scan's final stack), and their count. It also gives the context slice around each unclosed opener, in stack order. |
| RoomLink.HandleScan | src/app/page.tsx:71-95 | Scanning is always switched off. The handler navigates exactly when the origin matches, the first segment is `room`, a second segment exists, and that room exists; the target is `/room/` + that segment. An origin mismatch yields "Invalid QR code origin". |
| RoomLink.ErrorCases | src/app/page.tsx:74-94 | An unparseable URL yields "Invalid QR code", a non-room path "QR code not a room link", a missing room "Room does not exist", and a failed lookup "Invalid QR code". |
| RoomLink.Split | src/app/page.tsx:79 | `split("/")` always returns at least one piece. |
| RoomLink.SplitJoin | src/app/page.tsx:79 | Splitting on `/` loses nothing: joining the pieces with `/` gives the path back. |
| RoomLink.SplitPieces | src/app/page.tsx:79 | No piece of the split contains a slash. |
| RoomLink.NonEmptyPieces | src/app/page.tsx:79 | Every piece `filter(Boolean)` keeps is non-empty and from the input, and every non-empty piece is kept (membership only). |
| RoomLink.NonEmptyAppend | src/app/page.tsx:79 | `filter(Boolean)` keeps order and multiplicity: it distributes over concatenation, keeps a single non-empty piece and drops a single empty one. |
| RoomLink.SegmentsShape | src/app/page.tsx:79 | Every path segment is non-empty and contains no slash. |
| RoomLink.SegmentsAtSlash | src/app/page.tsx:79 | The segments of `a/b` are those of `a` followed by those of `b`. |
| RoomLink.DoubledSlash | src/app/page.tsx:79 | A doubled slash gives the same segments as a single one. |
| RoomLink.DoubleSlashes | src/app/page.tsx:79 | `//room//abc` has the segments `room` and `abc`. |
| RoomLink.RoomPathSegments | src/app/page.tsx:79-84 | `/room/<rid>` has the segments `room` and `rid` when rid is non-empty and slash-free. |
| RoomLink.RoomLinkRoundTrip | src/app/page.tsx:79-91 | A same-origin link to an existing room's own path navigates to exactly that path. |
| RoomLink.LaterSegmentsIgnored | src/app/page.tsx:84 | Two room links with the same second segment are handled alike, whatever follows it. |

## Left out

- Transfer ids are not generated. `Date.now()` and `Math.random()` make them non-deterministic, so the id is a parameter of both senders.
- Throughput (`bps`, `bytesPerSec`) is not modelled. It is floating point and clock based.
- Percents are computed as sent*100 div total on integers. JavaScript's `Math.floor((sent / total) * 100)` works in floating point and can come out one lower: 29/100 gives 28.
- The `setTimeout` delay in `waitForDrain` is not modelled. The channel's buffer sizes are a given sequence of readings, and the model states what holds when the wait returns.
- TransferSender.SendFile: every check of `bufferSize` consumes one reading, and once the readings are used up the channel is taken to stay congested from then on. A wait with no reading left that ends it is a wait that never ends, even when the last value read was not congested (the source would return at once when `bufferSize` is absent, 0 or small, src/lib/fileTransfer.ts:39). For such a wait the model stops and returns no id, having sent the chunks that got out; the source waits forever.
- TransferSender.SendFile: requires a chunk size above 0. With 0 or a negative size and a non-empty file the source's loop never ends, because the offset does not advance. With an empty file the source's loop never starts and it sends `meta` then `done` whatever the size (src/lib/fileTransfer.ts:46-49, 62-64); the requires excludes that case too. The default size is 32 KiB (src/lib/fileTransfer.ts:19, 29); the size is a parameter of the model.
- TransferSender.SendChunks: requires a chunk size above 0, for the same reason; the empty file with a size of 0 or below is excluded here as well.
- TransferSender.SendableChunks: its own contract only bounds the count. What the count means is stated through `SendChunks` and `UncongestedSendsAll`.
- `file.arrayBuffer()`, `Blob`, `Uint8Array` and the `WritableStream` detection are not modelled.
  - The file is a byte sequence.
  - The receiver's two storage branches (`streamBlobParts` and `chunks`) become one list of parts, since both append the same payloads in the same order.
  - The "should not happen" branch of `done` cannot occur with one list.
  - `streamWriter` is always undefined in the source and is not kept.
- `onProgress` and `onFile` are logs of the values they would be called with. When `onProgress` is not given, the source makes no call; the model still records the value.
- The values of `meta.size` are non-negative integers or absent. A non-numeric or NaN size is not modelled.
- Transfer ids are strings and a `meta` name is a string or absent. The source keys `files` by whatever value a message carries as `id` (src/lib/fileTransfer.ts:107, 121, 141), so a `meta` without an id installs an entry under `undefined` that later id-less `chunk` and `done` messages use; no `Message` value expresses this. A non-string name is passed to `onFile` as it is (:154) and is not modelled either.
- Overlapping sends are not modelled. `sendFile` in src/lib/fileTransfer.ts yields at every `await waitForDrain()` (:53), so two calls on one channel can interleave their chunks and share the `bufferSize` readings. The model runs one transfer at a time (`TransferSender.SendFile` owns the channel for its whole run, `TransferSender.RemainingAdd` composes transfers only in sequence), and no lemma covers interleaved transcripts at the receiver.
- Chunk payloads are binary or not. Payload kinds other than `ArrayBuffer` are all "not binary".
- Exceptions thrown by `send`, by the callbacks or by the transport are not modelled.
- `createPeer` in src/lib/peer.ts is not part of this model. It is PeerJS and ICE configuration and logging over a library not shown here.
- The home page's camera, `BarcodeDetector`, animation loop, Firestore calls and JSX are not part of this model.
  - `new URL(value)` is represented by its outcome: the origin comparison as a boolean and the path as a string, or no URL when parsing throws.
  - `getDoc` is represented by a function from room id to exists, missing or failed.
- The scanner's file read and console output are not modelled. The scan runs over a string argument. Its results are returned: the mismatch index, the unclosed openers (each with its character and index), their count, and the context slices. The stack position the script prints beside each is the entry's position in the returned sequence.
- FindUnclosed.FindUnclosed: a Dafny `char` is a Unicode scalar value, while a JavaScript string is a sequence of UTF-16 code units. A text holding a character outside the Basic Multilingual Plane (a surrogate pair in JavaScript) has no model with one element per code unit, so for such a text the model's mismatch index and context windows count characters where the source's `s[i]` and `s.length` count code units.
- The room page's receiver, `handleReceive` (src/app/room/[roomId]/page.tsx:71-150), is not part of this model: neither its structured `meta`/`chunk`/`done` branches nor its raw-binary fallback. It is the receiver the app runs (page.tsx:67), paired with the `sendFile` of src/lib/peer.ts (page.tsx:7, 241). `TransferReceiver.RoundTrip` covers `setupFileReceiver` of src/lib/fileTransfer.ts, which no code in the repository calls, and neither does any code call that file's `sendFile`. Neither are src/app/layout.tsx (presentation) and src/types/index.ts (a bare interface).
