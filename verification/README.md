# A model of the media server's hard parts

The server takes in live streams, keeps each under a *path*, and hands them on. This project models and proves the
parts of it where state, time and arithmetic meet:

- **The RTMP chunk stack.** A writer splits messages into chunks and shortens their headers against what it last sent
  on the same chunk stream; a reader rebuilds them from a memory of its own. `Chunk` has the four header forms,
  `RawMessage` what writer and reader do, `RawRoundTrip` the law of reading back what was written, `RawDemux` the
  independence of interleaved chunk streams, `AckWindow` the acknowledgement window on 32-bit counters that wrap,
  `RawWriter` and `RawReader` the objects with their loops, `RawLink` the two of them on one connection. `Messages`
  and `MessageBodies` are the typed messages, `MessageStack` the two layers together with chunk-size and window
  changes in the stream, `MessageConn` the objects, `MessageLink` two of them on one connection, and `Duplex` two ends
  that both check acknowledgements while these travel among the other messages. `ChunkWire` and `MessageWire` say the
  same by the numbers on the wire, of any bytes, whoever wrote them. Sections 5.3 and 5.4 of the RTMP 1.0
  specification describe the formats.
- **The life of a path.** `PathSpec` is the event loop as a state machine: two on-demand machines, four timers,
  requests on hold, readers, a source, a stream, external commands. `PathProofs` shows what every run keeps,
  `PathStory` tells publisher, stream, readers and answers of every run from its events alone, and `PathLoop` is the
  object with its loop, equal to the machine step by step. `StaticSource` is the protocol between path, source loop
  and source implementation on unbuffered channels, and `StaticPath` the event loop inside that protocol. `PathConf`
  has the facts about accepted configurations.
- **The path manager.** `PathTable` is the table of live paths through reloads, requests and endings; `PathManager`
  the object with its maps and its index. `ManagerWait` is the manager waiting for paths that may be about to tell it
  something.
- **The RTMP handshake** with digests (`Handshake`, `HandshakePeer`, `HandshakeConn`), and **H264 parameter sets and
  access units** (`H264`, `H264Processor`).

Each object with changing fields is a class whose methods are proved equal to a function of the old state; the laws
are lemmas about those functions. `Bytes` and `Buffers` hold machine integers and big-endian fields.

## What the proofs found

- A message that repeats its predecessor's length, type and time step is opened with a one-byte header even right
  after a full header. The writer still knows a time step then, the reader has dropped its own and refuses the chunk
  (`RawRoundTrip.RefusedExample`). `RawRoundTrip.RejectedIffRefused` and `RawRoundTrip.RoundTrip` say exactly when.
  Section 5.3.1.2.4 of the RTMP 1.0 specification allows the one-byte header there; the model follows the code.
- A configuration for a regular expression can never be updated in place: the comparison works on a copy that has lost
  the expression (`PathConf.LiveUpdate`). Its paths are recreated even when only live camera fields differ.
- That copy also has its address lists sorted by text. So a plain path whose lists are in another order is recreated
  when only live camera fields differ (`PathConf.BrightnessRecreates`, and `PathConf.LiveAloneIff` for when), while a
  reload that does nothing but put them in order counts as a live update.
- A reload that adds a plain configuration whose name is in use by a surviving regular expression's path does not
  create the new path; a source that should run at once is then not started (`PathTable.ShadowExample`, and
  `PathTable.ServedUnlessShadowed` for when).
- Once a path's context is cancelled, a set-not-ready of a static source may be dropped, and a later set-ready can
  reach the path while it still has its stream (`StaticSource.AcceptedFitsIff` for when). The new stream then takes
  the place of the old, and the old one's ready command is never closed (`StaticPath.CommandIsLost`;
  `PathProofs.ClosedExactlyOnceIff` for when). A publisher whose stop is dropped in the same way can do it, too.
- In the same situation the closing of an on-demand source is scheduled although readers are there
  (`StaticPath.ReaderIsClosedOver`): setting a stream up schedules it without a look at the readers, and only readers
  on hold call it off. `PathProofs.StrictIff` and `PathProofs.EveryRunIsStrict` say exactly when readers and on-demand
  state agree: in every run of a path whose context is not cancelled, and until a stream is set up over readers.
- An end of a connection writes a report that has become due before it takes note of the acknowledgement it is just
  reading. With chunks of fewer than four bytes such a report asks for leave more than once, and needs room beyond the
  half window that a message may take (`Duplex.LateReportIff`).
- Coded frames of other codecs than HEVC have no time offset, yet reading one asks for room for it, so payloads of
  fewer than three bytes do not come back (`Messages.ExtendedRoundTrip`).

## What is taken as given

Each case of an event loop is one step, as it is in the source. A timer is a flag that says whether it is armed; an
armed one may fire at any moment. Clients, requests and commands are numbers. Surroundings of a path: as long as its
context is not cancelled, a publisher starts at most once until it is stopped or removed, and set-ready and
set-not-ready of a static source alternate; `StaticPath` shows the second of the whole of event loop, source loop and
implementation, where an implementation asks for its stream only when it is down, reports its end only when it is up,
and returns only when it is down. That only paths for a regular expression end by themselves, which `PathTable` takes
from the path, is `PathProofs.PlainGoesOn`. The keyed hash, the random bytes, what a regular expression matches, the
outcome of credential checks and of setting up a stream are parameters. Reading and writing a connection transfer
exactly the bytes named; `AckWindow` allows any counts in between, as buffering may.

## Model

| member | source | states |
|---|---|---|
| `Chunk.ParseEncoding` | internal/rtmp/chunk/chunk0.go:21-61 | Reading back a written chunk of any of the four forms gives the chunk with its time, time step and length cut to the 24 bits of the field, whatever follows |
| `Chunk.ParseIgnoresRest` | internal/rtmp/chunk/chunk1.go:22-42 | A chunk that can be read does not depend on the bytes after it |
| `Chunk.Marshal` | internal/rtmp/chunk/chunk1.go:45-57 | The buffer filled by index is the encoding of the chunk, for all four forms |
| `Chunk.FillHeader0` | internal/rtmp/chunk/chunk0.go:45-61 | Twelve header bytes in their places, the rest of the buffer untouched |
| `Chunk.FillHeader2` | internal/rtmp/chunk/chunk2.go:34-42 | Four header bytes in their places, the rest of the buffer untouched |
| `Chunk.Input.ReadFull` | internal/rtmp/chunk/chunk3.go:19-31 | All requested bytes and the position moved by that many, or none; a short input is used up |
| `Chunk.Input.ReadChunk` | internal/rtmp/chunk/chunk2.go:18-31 | Header first, then as much body as header and chunk size say: the chunk the input parses to, or none |
| `RawRoundTrip.MemoryIsLatest` | internal/rtmp/rawmessage/writer.go:114-126 | After any messages the writer remembers of a chunk stream the latest message and the latest time step that did not go backwards, nothing else |
| `RawRoundTrip.OpeningFromHistory` | internal/rtmp/rawmessage/writer.go:49-112 | Which header form opens a message, told from the messages sent before alone: a full header exactly for a first message, a new message stream or a step back in time; a one-byte header exactly for a repetition of length, type and latest time step |
| `ChunkWire.EncodingBytes` | internal/rtmp/chunk/chunk0.go:45-61 | Every byte of each of the four forms: form and chunk stream in the first, then time or step, length, type and message stream, most significant byte first |
| `ChunkWire.OpeningContents` | internal/rtmp/rawmessage/writer.go:44-126 | The whole chunk that opens a message, form and contents, told from the messages sent before on its chunk stream |
| `ChunkWire.ChunksAreFull` | internal/rtmp/rawmessage/writer.go:44-143 | All chunks of a message but the last are full, none is overfull, and all but the first have one-byte headers |
| `ChunkWire.RefusalIff` | internal/rtmp/rawmessage/reader.go:49-207 | For any bytes: which error the next chunk is refused with, if and only if a message is under way or the header relies on what was never told |
| `ChunkWire.ReadsBytes` | internal/rtmp/rawmessage/reader.go:49-207 | For any other bytes: how much is used, what is remembered, and the message delivered if and only if its body is whole |
| `RawRoundTrip.ReadWritten` | internal/rtmp/rawmessage/reader.go:49-207 | One written message is read back whole with the time the wire can carry and the reader's memory in step with the writer's, or refused at its first chunk |
| `RawRoundTrip.ReadAllWritten` | internal/rtmp/rawmessage/reader.go:248-278 | From any point of a connection, for every mix of chunk streams: the reader delivers every message in order at the time the wire carries and stops exactly at the first refused one |
| `RawRoundTrip.WrittenIsRead` | internal/rtmp/rawmessage/writer.go:44-143 | The same for a fresh reader on the bytes of a fresh writer |
| `RawRoundTrip.RejectedIffRefused` | internal/rtmp/rawmessage/reader.go:151-154 | A written connection is rejected if and only if some message is opened with a one-byte header right after a full header on its chunk stream; otherwise it is read to its end |
| `RawRoundTrip.ExactIffCarried` | internal/rtmp/rawmessage/writer.go:68-102 | A message comes back with its own time if and only if that is a whole number of milliseconds and it, or its step, fits 24 bits |
| `RawRoundTrip.RoundTrip` | internal/rtmp/rawmessage/writer.go:183-191 | For every sequence of messages: reading what was written gives exactly those messages if and only if each is one the wire can carry |
| `RawRoundTrip.SteadyIsCarried` | internal/rtmp/rawmessage/writer.go:68-112 | Streams with one message stream ID, times that never go back, whole milliseconds and steps below 2^24 ms are always carried, however they are interleaved |
| `RawRoundTrip.RefusedExample` | internal/rtmp/rawmessage/writer.go:94-126 | Three messages that show the refusal: equal but for one change of message stream ID |
| `RawRoundTrip.ReadOneIgnoresRest` | internal/rtmp/rawmessage/reader.go:248-278 | What one read delivers does not depend on later bytes unless it ran out of input |
| `RawRoundTrip.TruncatedRun` | internal/rtmp/rawmessage/reader.go:25-47 | Any truncated prefix of any input gives a prefix of its messages, then the end of the input or the same error |
| `RawDemux.SingleStream` | internal/rtmp/rawmessage/reader.go:49-207 | The chunks of one stream alone give exactly the messages they complete |
| `RawDemux.Interleaved` | internal/rtmp/rawmessage/reader.go:255-276 | Any interleaving at chunk boundaries delivers for each stream what its own chunks complete |
| `RawDemux.NonInterference` | internal/rtmp/rawmessage/reader.go:210-278 | The messages delivered for one chunk stream are those its chunks deliver on a connection of their own |
| `RawWriter.ProgressIsFirstFailure` | internal/rtmp/rawmessage/writer.go:21-29 | How far a message gets is the first chunk whose acknowledgement check fails, or all chunks |
| `RawWriter.WriteRunIsWritten` | internal/rtmp/rawmessage/writer.go:183-191 | Message after message with the stream table as it stands, the writer sends the bytes the law of reading back speaks of |
| `RawWriter.Writer.WriteChunk` | internal/rtmp/rawmessage/writer.go:21-42 | A chunk goes out, byte for byte, if and only if the wrapped distance to the acknowledged count is within one and a half windows |
| `RawWriter.Writer.WriteMessage` | internal/rtmp/rawmessage/writer.go:44-143 | The loop sends the specified chunks up to the first failing check, and the stream's memory moves on once the first chunk is out |
| `RawWriter.Writer.Write` | internal/rtmp/rawmessage/writer.go:183-191 | What has been sent and what is remembered after a message, whole or cut off at the first failing check, on any chunk stream, new or known |
| `RawWriter.SentIffOpen` | internal/rtmp/rawmessage/writer.go:21-29 | A message goes out whole if and only if the check passes at the count before each of its chunks |
| `RawReader.Reader.ReadChunk` | internal/rtmp/rawmessage/reader.go:25-47 | The chunk the input parses to, and the acknowledgement check made on the count after it |
| `RawReader.Reader.ReadForm0` | internal/rtmp/rawmessage/reader.go:51-80 | Full header: refused within a message, else the whole memory is replaced and the time step forgotten |
| `RawReader.Reader.ReadForm1` | internal/rtmp/rawmessage/reader.go:82-114 | Eight-byte header: refused without a predecessor or within a message, else time, step, length and type move on |
| `RawReader.Reader.ReadForm2` | internal/rtmp/rawmessage/reader.go:116-149 | Four-byte header: the same, with length and type kept |
| `RawReader.Reader.ReadForm3` | internal/rtmp/rawmessage/reader.go:151-205 | One-byte header: continues a message, or opens one with the remembered time step, or is refused |
| `RawReader.Reader.Read` | internal/rtmp/rawmessage/reader.go:248-278 | The loop delivers the message, the stream table, the consumed bytes and the errors of the specification, and checks the acknowledgement at the end of every chunk, no more and no less |
| `AckWindow.WrapIsInvisible` | internal/rtmp/rawmessage/reader.go:31-44 | Within two windows of the mark the wrapped 32-bit difference is the true one |
| `AckWindow.ReceiverRefines` | internal/rtmp/rawmessage/reader.go:31-44 | For every run of checks with a window below 2^31: the wrapping receiver makes exactly the reports of one on unbounded counters; the mark stays at most a window behind and less than a window passes after a report |
| `AckWindow.SenderNeverBlocked` | internal/rtmp/message/readwriter.go:14-47 | However both sides buffer: over whole runs with messages of at most half a window, each read and reported before the next, no check of the sender fails |
| `AckWindow.FreshConnection` | internal/rtmp/rawmessage/writer.go:21-29 | The same from the start of a connection whose first bytes fit one window |
| `RawLink.PositionsAreSorted` | internal/rtmp/rawmessage/reader.go:25-47 | The counts at which reading a message checks never go back and end with the message |
| `RawLink.CrossingIsFair` | internal/rtmp/rawmessage/writer.go:44-143 | The checks that writer and reader make on a message of at most half a window, unless it is refused, are such a crossing |
| `RawLink.Carry` | internal/rtmp/rawmessage/writer.go:183-191 | A writer object and a reader object in touch: the write of such a message succeeds, the message is read, and with the reports delivered they stay in touch |
| `RawLink.CarryAll` | internal/rtmp/message/readwriter.go:14-47 | For every run of such messages every write of the object succeeds and every message arrives |
| `RawLink.Exchange` | internal/rtmp/rawmessage/reader.go:227-235 | The same for two objects made for it, with a handshake that both count and that fits one window |
| `RawLink.WriteAll` | internal/rtmp/rawmessage/writer.go:183-191 | A writer that does not check sends every message whole |
| `RawLink.ReadMessages` | internal/rtmp/rawmessage/reader.go:248-278 | Reading until it ends gives everything the input delivers, and the error that ends it |
| `RawLink.WriteThenRead` | internal/rtmp/rawmessage/writer.go:157-165 | A writer object, then a reader object on what it wrote: exactly the messages, if and only if each is one the wire can carry |
| `Messages.AudioRoundTrip` | internal/rtmp/message/audio.go:44-106 | Audio messages come back if and only if their bit fields fit, codec and packet type are known ones, and MPEG-2 audio has a payload and no packet type |
| `Messages.VideoRoundTrip` | internal/rtmp/message/video.go:45-103 | Video messages come back if and only if codec and packet type are known ones and the offset is a whole number of milliseconds below 2^24 |
| `Messages.ExtendedRoundTrip` | internal/rtmp/message/extended_coded_frames.go:21-71 | Extended frames come back if and only if the codec is known, the offset is whole milliseconds below 2^24 for HEVC and absent otherwise, and other coded frames have three bytes of payload |
| `Messages.ControlRoundTrip` | internal/rtmp/message/set_chunk_size.go:15-43 | The control messages with a 32-bit field always come back |
| `Messages.MessageRoundTrip` | internal/rtmp/message/reader.go:10-111 | Dispatch and unmarshalling of a marshalled message return it if and only if its fields are in range |
| `MessageWire.DecodeIff` | internal/rtmp/message/reader.go:10-111 | For any raw message and any typed one: the one decodes to the other if and only if its type number, chunk stream, first bytes and body are those of that message, with the numbers written out |
| `MessageWire.SequenceDecodes` | internal/rtmp/message/extended_sequence_start.go:15-21 | A codec configuration and an end of sequence from a peer are decoded as such, for every known codec |
| `MessageWire.MarshalMeans` | internal/rtmp/message/message.go:9-48 | What is written of a message in range has those numbers, control messages at time zero on message stream zero |
| `MessageWire.AnswerBytes` | internal/rtmp/message/readwriter.go:14-47 | The answers of an end by their bytes: type 3 with the count, and for a ping, code 6, code 7 with the same four bytes |
| `MessageBodies.ControlBody` | internal/rtmp/message/acknowledge.go:30-43 | The four bytes filled by index are the specified body |
| `MessageBodies.AudioBody` | internal/rtmp/message/audio.go:81-106 | The filled buffer is the specified body, with or without the packet type byte |
| `MessageBodies.VideoBody` | internal/rtmp/message/video.go:78-103 | The filled buffer is the specified body |
| `MessageBodies.CodedFramesBody` | internal/rtmp/message/extended_coded_frames.go:42-71 | The filled buffer is the specified body, with the offset only for HEVC |
| `MessageStack.StackStep` | internal/rtmp/message/reader.go:126-151 | What the chunk layer makes of a typed message decodes to that message if and only if fields and time are both carried |
| `MessageStack.StackRoundTripFrom` | internal/rtmp/message/writer.go:26-46 | For every run of typed messages with chunk-size and window changes anywhere: the receiver gets the messages sent, holding the sender's settings after each, if and only if each is deliverable; and so for the messages alone |
| `MessageStack.StackRoundTrip` | internal/rtmp/message/reader.go:126-151 | The same from the start of a connection |
| `MessageStack.TrailIsLatest` | internal/rtmp/message/writer.go:37-43 | The settings after each message are the chunk size and window announced latest, or those at the start |
| `MessageStack.ControlDelivered` | internal/rtmp/message/acknowledge.go:15-43 | Control messages in range are always deliverable, whatever other chunk streams carry |
| `MessageConn.MessageWriter.Write` | internal/rtmp/message/writer.go:26-46 | What has been sent after a typed message, whole or cut off; the settings change only once it is out whole, in the old ones |
| `MessageConn.TypedRunIsSent` | internal/rtmp/message/writer.go:26-46 | The same for typed messages, with the settings as they stand |
| `MessageConn.MessageReader.Read` | internal/rtmp/message/reader.go:126-151 | The message the bytes decode to, the settings changed by it, and the checks of the acknowledgement window at every chunk |
| `MessageConn.ReadWriter.WriteReports` | internal/rtmp/message/readwriter.go:14-22 | The bytes of one acknowledgement per count, in order; it succeeds exactly when every one passes the checks, and ends at the first that does not |
| `MessageConn.ReadWriter.Read` | internal/rtmp/message/readwriter.go:30-47 | The result, the bytes sent and the acknowledged count: the reports due by then go out; the message is the one that was decoded unless a report failed; only an acknowledgement moves the count; only a ping is answered, with its own time, as far as the checks let it; the reader's table, position, settings and mark are those after the message |
| `MessageConn.AnswersAreHeard` | internal/rtmp/message/readwriter.go:14-47 | A peer that has followed so far receives exactly one acknowledgement per report, then the answer to a ping, and nothing else, when the checks let them through |
| `MessageLink.WriteAll` | internal/rtmp/message/writer.go:26-46 | A message writer that does not check sends every typed message whole, with the settings as they change |
| `MessageLink.ReadMessages` | internal/rtmp/message/reader.go:126-151 | Reading until it fails gives every message the input delivers |
| `MessageLink.WriteThenRead` | internal/rtmp/message/writer.go:16-46 | A message writer object, then a message reader object on what it wrote, with chunk-size and window changes anywhere: exactly the messages, if and only if each is deliverable |
| `Duplex.AtMostOneReport` | internal/rtmp/rawmessage/reader.go:31-44 | A message of at most half a window gives rise to at most one report, and to none if it ends within a window of the mark |
| `Duplex.Arrives` | internal/rtmp/rawmessage/reader.go:248-278 | A deliverable message of at most half a window is read whole, the receiver follows on, and half a window is free after a report |
| `Duplex.GateAdmits` | internal/rtmp/rawmessage/writer.go:21-29 | A sender that knew the latest report at some count sends whole every message none of whose chunks starts more than half a window after it |
| `Duplex.LateReportIff` | internal/rtmp/rawmessage/writer.go:21-29 | A window and a half after the count it has heard of, an end can still send an acknowledgement if and only if that takes one chunk |
| `Duplex.Hear` | internal/rtmp/message/readwriter.go:30-47 | An end reads the one message that is on its way, takes note of an acknowledgement, and reports once or not at all, in its other direction |
| `Duplex.Settle` | internal/rtmp/message/readwriter.go:14-22 | After a report the two ends come to rest: the other end reads it, may report itself, and that is not reported on again |
| `Duplex.Say` | internal/rtmp/message/readwriter.go:14-52 | Two ends that both check: a message of at most half a window is written whole, heard as it was said, nothing either of them reports is held up, and both know of the latest report again |
| `Duplex.Converse` | internal/rtmp/message/readwriter.go:14-52 | For every conversation of such messages, in either direction: every message is written whole and heard as it was said |
| `Duplex.Open` | internal/rtmp/message/writer.go:34-43 | The window of a direction is set by a message, at both ends and at the same count |
| `Duplex.Dialogue` | internal/rtmp/message/readwriter.go:14-52 | The same for two ends made for it, after a handshake that both count, with the windows they tell each other |
| `PathConf.AcceptedIsSound` | internal/conf/path.go:107-343 | An accepted configuration has one kind of source, none that is static for a regular expression, and never both on-demand kinds |
| `PathConf.AcceptedIff` | internal/conf/path.go:107-343 | A configuration is accepted if and only if each of the conditions on source, regular expression, on-demand and init command holds, and what is filled in |
| `PathConf.StaticIff` | internal/conf/path.go:367-376 | A source is static if and only if it is the camera or a URL of one of the seven schemes |
| `PathConf.RulesAreFaithful` | internal/conf/path.go:367-386 | What a path looks up in an accepted configuration is what the configuration itself answers |
| `PathConf.CopiedIff` | internal/conf/ipsorcidrs.go:14-47 | A copy of an address list holds the same texts, in order; it is the list itself if and only if that is in order and has no IPv4 network entered in IPv6 form; copying again changes nothing |
| `PathConf.LiveUpdate` | internal/core/path_manager.go:13-30 | A configuration counts as updatable if and only if it is not one for a regular expression, its address lists are the sorted ones of the old, and it differs otherwise in live camera fields alone |
| `PathConf.LiveAloneIff` | internal/conf/path.go:345-364 | A change of live camera fields alone counts as updatable if and only if both address lists are ones a copy leaves alone; putting them in order always does |
| `PathConf.BrightnessRecreates` | internal/core/path_manager.go:13-30 | Two addresses out of order: a change of brightness does not count as updatable, the same change with the two in order does |
| `PathProofs.StoppedPublisher` | internal/core/path.go:616-635 | Stopping and removing call each other and end with source, stream, readers and command all gone |
| `PathProofs.RemovedPublisher` | internal/core/path.go:692-702 | The same when the publisher is removed first |
| `PathProofs.HandleKeepsLive` | internal/core/path.go:349-496 | Every case of the loop keeps the invariant: readers need a stream, a stream its source; stream and timers follow from the on-demand state, which is never ready without readers; there are readers in no other state, but for a closing after the context is cancelled; requests wait only for an armed ready timer; no panic |
| `PathProofs.StrictIff` | internal/core/path.go:349-496 | An event leaves readers there exactly while the on-demand state is ready, if and only if it does not set a stream up over readers; and once they disagree, if and only if a reader joins, the last one leaves or the stream ends |
| `PathProofs.UncancelledIsStrict` | internal/core/path.go:831-896 | They agree as long as the context is not cancelled |
| `PathProofs.HandleKeepsRequests` | internal/core/path.go:704-753 | Every case keeps: accepted requests are those answered and those on hold, each as often |
| `PathProofs.HandleKeepsCommands` | internal/core/path.go:592-686 | Every case keeps: no command is live or closed twice, and one that is neither stays so |
| `PathProofs.AccountedUnlessOverwritten` | internal/core/path.go:637-666 | Every case keeps each command started live in one place or closed once, if and only if it does not set up a stream over another with its ready command |
| `PathProofs.UncheckedStaysInUse` | internal/core/path.go:466-487 | The cases that do not ask whether the path is in use need not: none of them makes it superfluous |
| `PathProofs.ShutdownClears` | internal/core/path.go:498-539 | The end of the loop answers what is on hold, stops the source and closes every command |
| `PathProofs.StepKeepsInv` | internal/core/path.go:349-539 | One turn of the loop, with the end of the loop where it comes, keeps the whole invariant |
| `PathProofs.EveryRun` | internal/core/path.go:317-539 | The invariant holds after every possible run of a path with any accepted configuration; the panics of start and stop are unreachable |
| `PathProofs.StrictRunIff` | internal/core/path.go:349-496 | Whether they agree at any point of any run, told from the events of the run alone |
| `PathProofs.EveryRunIsStrict` | internal/core/path.go:349-539 | The same for every run of a path with any accepted configuration; they agree in particular in every run that sets no stream up over readers |
| `PathProofs.SettingUpOverIsCancelled` | internal/core/path.go:940-941 | That takes a path whose context is cancelled |
| `PathProofs.ClosingOverReader` | internal/core/path.go:410-435 | A run that does it: the closing is scheduled, its timer armed, and the reader is there |
| `PathProofs.AnsweredExactlyOnce` | internal/core/path.go:850-896 | A request is never both on hold and answered, is answered exactly once by the end, and waits only with an armed ready timer |
| `PathProofs.ClosedExactlyOnceIff` | internal/core/path.go:498-536 | In every run no command is closed twice; by the end each one started is closed exactly once if and only if no stream was set up over another with its ready command |
| `PathProofs.OverwritingIsCancelled` | internal/core/path.go:940-941 | That takes a path whose context is cancelled |
| `PathProofs.LostCommand` | internal/core/path.go:649-660 | A run that does it: the first ready command is never closed |
| `PathProofs.NoIdlePath` | internal/core/path.go:541-547 | Once used, a path for a regular expression always has a source, a reader or a request on hold while its loop runs |
| `PathProofs.PlainGoesOn` | internal/core/path.go:541-547 | A path whose configuration is not for a regular expression goes on through every run in which it is not told to terminate |
| `PathProofs.JoinedMeansReading` | internal/core/path.go:875-896 | A reader that is told it has joined is among the readers and there is a stream |
| `PathProofs.AnyoneMayCome` | internal/core/path.go:928-1047 | Nothing is kept from happening in a run but what is said above: clients come at any time, armed timers fire, sources and publishers become ready when they have no stream |
| `PathStory.Alike` | internal/core/path.go:349-496 | Every case of the loop does to publisher, source, stream, readers, requests on hold and answers what the story says |
| `PathStory.StoryIsTrue` | internal/core/path.go:317-539 | After every possible run of a path with any accepted configuration: there is a stream, a publisher, a running source, a called command, a reader or a request on hold if and only if the events say so, and the answers given are those the events call for, in order |
| `PathStory.DescribeIff` | internal/core/path.go:704-753 | A describe learns of the stream if and only if there is one, waits if and only if there is none and a source or publisher is on demand, is redirected if and only if the source redirects or there is neither and a fallback, and is refused otherwise |
| `PathStory.ReaderIff` | internal/core/path.go:850-896 | A reader joins if and only if there is a stream, waits if and only if there is none and a source or publisher is on demand, and is refused otherwise |
| `PathStory.AnswersHaveReasons` | internal/core/path.go:349-536 | In every run each answer goes back to an event that calls for it in the state it came in: a timeout to a ready timer, a termination to the end of the loop, a late stream or joining to the event that brought the stream up |
| `PathLoop.PathObject.constructor` | internal/core/path.go:317-347 | The source chosen from the configuration and the init command |
| `PathLoop.PathObject.OnDemandPublisherStop` | internal/core/path.go:616-635 | The specified stop, through the mutual recursion with removal |
| `PathLoop.PathObject.DoPublisherRemove` | internal/core/path.go:692-702 | The specified removal, through the mutual recursion with stop |
| `PathLoop.PathObject.DoSourceSetReady` | internal/core/path.go:637-666 | Stream present, ready command started where there is one |
| `PathLoop.PathObject.DoSourceSetNotReady` | internal/core/path.go:668-686 | Readers gone, ready command closed, stream gone |
| `PathLoop.PathObject.FailHeld` | internal/core/path.go:353-361 | Every request on hold gets the answer, and both queues are empty |
| `PathLoop.PathObject.HandleReaderAddPost` | internal/core/path.go:875-896 | The reader joins, a scheduled closing is cancelled, the request is answered |
| `PathLoop.PathObject.Release` | internal/core/path.go:421-431 | The loops over both queues answer every request on hold and let its reader join |
| `PathLoop.PathObject.DoHandleDescribe` | internal/core/path.go:704-753 | Redirect, stream, hold with a start on demand, fallback or refusal, in that order |
| `PathLoop.PathObject.DoHandleReaderAdd` | internal/core/path.go:850-873 | Join, hold with a start on demand, or refusal |
| `PathLoop.PathObject.DoHandleReaderRemove` | internal/core/path.go:831-848 | The reader goes, and the last one schedules the closing |
| `PathLoop.PathObject.DoHandleStaticSetReady` | internal/core/path.go:410-435 | A stream of a static source: closing scheduled and the held requests released where it is on demand |
| `PathLoop.PathObject.DoHandleStaticSetNotReady` | internal/core/path.go:437-450 | Its end: the on-demand source is stopped |
| `PathLoop.PathObject.DoHandlePublisherAdd` | internal/core/path.go:762-784 | Refusals, the removal of an earlier publisher, and the new one |
| `PathLoop.PathObject.DoHandlePublisherStart` | internal/core/path.go:786-818 | A stream of the present publisher, and the release of held requests |
| `PathLoop.PathObject.DoHandlePublisherStop` | internal/core/path.go:820-829 | The end of the stream of the present publisher |
| `PathLoop.PathObject.ShouldCloseNow` | internal/core/path.go:541-547 | The test on the object's own fields is the specified one |
| `PathLoop.PathObject.HandleTimeout` | internal/core/path.go:352-397 | What the four timers do when they fire |
| `PathLoop.PathObject.HandleEvent` | internal/core/path.go:349-496 | Every case of the loop is the specified one |
| `PathLoop.PathObject.Finish` | internal/core/path.go:498-539 | The end of the loop is the specified one |
| `PathLoop.PathObject.Run` | internal/core/path.go:349-539 | The loop on any events does what the specified run does, up to the event it ends at; and where the events are possible the object keeps the invariant, is in all things what the story of the events says, has readers and on-demand state in agreement exactly when the specified run has, has answered every request by the end, and has closed every command once if and only if none was overwritten |
| `StaticSource.EveryInterleaving` | internal/core/source_static.go:135-194 | After every interleaving of path, source loop and implementation: loop and implementation live only between start and the end of stop, a waiting implementation is owed an answer by exactly one side, and the path's stream is what the implementation was told |
| `StaticSource.AcceptedIsCurrent` | internal/core/path.go:936-965 | Only requests of the running start reach the path, never of a stopped one |
| `StaticSource.AcceptedFitsIff` | internal/core/path.go:936-965 | A request that reaches the path fits its stream if and only if the latest of what has come of this start's requests is not a dropped set-not-ready; one that does not fit is a set-ready, and the path's context is cancelled |
| `StaticSource.ReadyTwice` | internal/core/path.go:952-965 | An interleaving in which one does not fit |
| `StaticSource.NothingOwedByPath` | internal/core/path.go:437-446 | Inside stop nothing waits for the path; an answer still due comes from the source loop, which can give it |
| `StaticSource.StopNeverStuck` | internal/core/source_static.go:117-129 | Inside stop some step is always possible that brings its end closer, until it returns |
| `StaticSource.StopCanComplete` | internal/core/source_static.go:186-191 | From every point inside stop finitely many steps end it, with loop and implementation gone |
| `StaticPath.ReadyKeeps` | internal/core/path.go:410-435 | A set-ready the path handles is one the event loop allows for, and protocol and event loop agree after it |
| `StaticPath.NotReadyKeeps` | internal/core/path.go:437-446 | The same for a set-not-ready, the stop coming after the answer |
| `StaticPath.OtherKeeps` | internal/core/path.go:565-590 | Every other case of the event loop starts, stops or leaves the source as the protocol does |
| `StaticPath.EveryRunIsPossible` | internal/core/path.go:349-496 | For every run of event loop, source loop and implementation together: the events the path handles are a possible run of its event loop, and both agree on source and stream throughout |
| `StaticPath.StaticPathLaws` | internal/core/path.go:317-539 | So the laws of the event loop hold of a path with a static source, given only how the implementation behaves: it asks to be ready and not ready in turn, and returns only when not ready |
| `StaticPath.CommandIsLost` | internal/core/path.go:637-666 | A run of all three, from the start, that ends with a ready command never closed |
| `StaticPath.ReaderIsClosedOver` | internal/core/path.go:410-435 | A run of all three, from the start, after which the closing of a source on demand is scheduled although a reader is there |
| `ManagerWait.EveryInterleaving` | internal/core/path_manager.go:139-294 | For any number of paths: a path the manager waits for has been told to terminate |
| `ManagerWait.WaitNeverStuck` | internal/core/path_manager.go:154-168 | A manager in wait() never deadlocks with a path that is telling it something: the path has a step of its own that brings its end closer, until the wait is over |
| `ManagerWait.ReloadCanComplete` | internal/core/path_manager.go:145-179 | From every point a reload that closes any number of paths can come to its end |
| `ManagerWait.OnlyOwnContext` | internal/core/path_manager.go:366-390 | It takes the path's own context: nothing else can free the two |
| `ManagerWait.WaitsForTelling` | internal/core/path_manager.go:366-390 | It does happen: from the start, the manager can come to wait for a path that is telling it anything |
| `PathTable.ValidNameIff` | internal/conf/path.go:16-34 | A path name is valid if and only if it is one or more of the allowed characters, by their codes, with no slash at either end |
| `PathTable.SurvivesIff` | internal/core/path_manager.go:145-170 | The paths of a configuration outlive a reload if and only if it is still there and is the same, or is plain and differs in live camera fields alone, with the address lists as a copy writes them |
| `PathTable.NextIsConsistent` | internal/core/path_manager.go:145-179 | A reload, request or ending keeps: every path's configuration exists and the path has its present contents |
| `PathTable.EveryRunConsistent` | internal/core/path_manager.go:139-294 | The same after every sequence of them |
| `PathTable.AfterReload` | internal/core/path_manager.go:174-179 | What a reload leaves at a plain name: always a path, its own unless a regular expression's path of that name survives |
| `PathTable.ServedUnlessShadowed` | internal/core/path_manager.go:145-179 | Plain configurations stay served by their own paths if and only if the event is not a reload that adds one whose name is in use by a surviving regular expression's path |
| `PathTable.EveryRunServes` | internal/core/path_manager.go:110-114 | From the start, in every run without such a reload, every plain configuration is served at every moment |
| `PathTable.ServedIsFreshStart` | internal/core/path_manager.go:110-114 | Served means: the paths of plain configurations are those of a fresh start with the same configurations |
| `PathTable.ReloadKeeps` | internal/core/path_manager.go:13-30 | A path that survives a reload keeps its configuration but for live camera fields and how the address lists are written, their texts being the same; and entirely if it is for a regular expression |
| `PathTable.ReloadTwice` | internal/core/path_manager.go:145-179 | Repeating a reload changes nothing |
| `PathTable.ShadowExample` | internal/core/path_manager.go:174-179 | For any regular expression and name it matches: the run that leaves a plain configuration unserved |
| `PathManager.PathManager.constructor` | internal/core/path_manager.go:71-126 | One path for every plain configuration |
| `PathManager.PathManager.CreatePath` | internal/core/path_manager.go:296-323 | A new path under its name and in the index of its configuration |
| `PathManager.PathManager.RemovePath` | internal/core/path_manager.go:325-331 | Gone from the table and from the index, which keeps no empty set |
| `PathManager.PathManager.AddPlain` | internal/core/path_manager.go:174-179 | A new path exactly for the plain names without one |
| `PathManager.PathManager.RemoveAll` | internal/core/path_manager.go:154-160 | The paths of a configuration removed and told to terminate, no others |
| `PathManager.PathManager.UpdateAll` | internal/core/path_manager.go:150-153 | The paths of a configuration are given the new contents, no others |
| `PathManager.PathManager.RetireAndUpdate` | internal/core/path_manager.go:145-170 | Whatever the order of the walk: exactly the paths of surviving configurations are left, with the new contents |
| `PathManager.PathManager.ReloadConf` | internal/core/path_manager.go:145-179 | The reload of the table, survivors the same objects, the others told to terminate, added ones new; index and table agree. A path is the same object if and only if its configuration is equal, or plain and changed in live camera fields alone, and has then been given the new one |
| `PathManager.PathManager.PathClosed` | internal/core/path_manager.go:181-185 | A stopped path leaves the table unless its name has been given to another path |
| `PathManager.PathManager.FindPathConf` | internal/core/path_manager.go:333-355 | The name's own configuration if and only if there is one, else any matching regular expression; invalid and unconfigured names are told apart |
| `PathManager.PathManager.Request` | internal/core/path_manager.go:197-220 | A describe, reader or publisher: errors change nothing; an existing path is returned as it is, else one is created under the configuration found |
| `Handshake.DigestWindows` | internal/rtmp/handshake/c1s1.go:34-40 | Both digest places lie inside the packet, after their own offset bytes and apart from the other's |
| `Handshake.SignedIsFound` | internal/rtmp/handshake/c1s1.go:53-60 | Signing moves neither the place nor the hashed bytes, so the digest is found where it was put |
| `Handshake.KeysAgree` | internal/rtmp/handshake/c1s1.go:62-70 | The reader of a first packet always finds a signature, and derives its writer's key unless there is an accidental one at the second place |
| `Handshake.Signed2Checks` | internal/rtmp/handshake/c2s2.go:18-64 | A second packet signed with a key passes the check with that key |
| `Handshake.HandshakeCompletes` | internal/rtmp/handshake/handshake.go:9-97 | Client and server complete against each other whatever each validates, unless a validating side's own packet has such an accident; both derived keys agree; neither waits for bytes not yet sent; nothing beyond the handshake is consumed |
| `Handshake.EchoChecksIff` | internal/rtmp/handshake/c2s2.go:25-31 | The echo of a first packet passes its writer's check if and only if the packet has no valid digest at its second place, or the key from there gives the same hash of the echo as the writer's own |
| `Handshake.HandshakeCompletesIff` | internal/rtmp/handshake/handshake.go:9-97 | Client and server complete if and only if that holds for each side that validates |
| `HandshakePeer.DerivedIff` | internal/rtmp/handshake/c1s1.go:42-70 | Any first packet: a key is derived if and only if it is signed at one of the two places with the text of its side, from the second place first, with the other side's full key |
| `HandshakePeer.FirstPacketBytes` | internal/rtmp/handshake/c1s1.go:112-146 | Every byte of the first packet written: time, zeros, random bytes, and the signature over 32 of them |
| `HandshakePeer.EchoBytes` | internal/rtmp/handshake/c2s2.go:41-64 | Every byte of the answer to any first packet: its time, zeros, its random bytes, and over the last 32 a signature if and only if a key was derived |
| `HandshakePeer.ClientIff` | internal/rtmp/handshake/handshake.go:9-53 | A client against any server: which error it ends with, if any, if and only if what; what it has sent; the second packet carries the time and random bytes received |
| `HandshakePeer.ServerIff` | internal/rtmp/handshake/handshake.go:56-97 | The same for a server against any client |
| `HandshakeConn.CalcDigestPos` | internal/rtmp/handshake/c1s1.go:34-40 | The loop's sum gives the specified place |
| `HandshakeConn.Conn.ReadVersion` | internal/rtmp/handshake/c0s0.go:16-28 | Version three, or which error |
| `HandshakeConn.FirstPacket.Read` | internal/rtmp/handshake/c1s1.go:80-109 | Time, random bytes and derived key of the packet, or which error |
| `HandshakeConn.FirstPacket.Write` | internal/rtmp/handshake/c1s1.go:112-146 | The buffer filled and signed in place is the specified packet; the key is derived and the random bytes kept |
| `HandshakeConn.SecondPacket.Read` | internal/rtmp/handshake/c2s2.go:18-38 | Times and random bytes of the packet, or which error |
| `HandshakeConn.SecondPacket.Write` | internal/rtmp/handshake/c2s2.go:41-64 | The buffer filled and signed in place is the specified packet |
| `HandshakeConn.DoClient` | internal/rtmp/handshake/handshake.go:9-53 | Reads and writes in turn: outcome, bytes sent and bytes left are those of the specified client, and the second packet carries the time and random bytes received |
| `HandshakeConn.DoServer` | internal/rtmp/handshake/handshake.go:56-97 | The same for the server |
| `H264.UnpackPack` | internal/formatprocessor/h264.go:31-63 | Unpacking an aggregation of units of 1 to 65535 bytes gives the units (section 5.7.1 of RFC 6184) |
| `H264.KeptTwice` | internal/formatprocessor/h264.go:230-243 | What is left has no parameter set, nothing more to remove, and the same key frames |
| `H264.IdempotentIff` | internal/formatprocessor/h264.go:306-307 | Processing an access unit again changes nothing if and only if the parameters put in front, if any, have types that make them be removed and taken for what they are |
| `H264.Idempotent` | internal/formatprocessor/h264.go:148-246 | With parameters of the right types it always holds |
| `H264.RemuxedBytes` | internal/formatprocessor/h264.go:188-246 | By the bytes: the parameter sets in front if and only if some unit has type 5 and both are known, then the units but those of types 7, 8 and 9 |
| `H264.UpdatedBytes` | internal/formatprocessor/h264.go:148-174 | By the bytes: the last unit of type 7 and the last of type 8, or the parameter sets before |
| `H264.UnitsBytes` | internal/formatprocessor/h264.go:16-70 | A packet is an aggregation if and only if its first byte says 24; each unit then stands behind its length |
| `H264.UnpackEnds` | internal/formatprocessor/h264.go:31-63 | Where an aggregation ends, and that one cut short is not used |
| `H264Processor.ExtractParams` | internal/formatprocessor/h264.go:16-70 | SPS and PPS of a packet are the last ones among the units it carries; none for a truncated aggregation |
| `H264Processor.ExtractAggregated` | internal/formatprocessor/h264.go:31-65 | The loop over an aggregation: the last SPS and PPS, the end at a zero length or a lone byte, nothing where a unit is cut short |
| `H264Processor.PacketIsItsUnits` | internal/formatprocessor/h264.go:16-70 | An aggregation packet, and a packet of one unit, update the parameters as the list of units does |
| `H264Processor.Processor.UpdateFromPacket` | internal/formatprocessor/h264.go:125-146 | The fast update from any packet is the update from its units |
| `H264Processor.Processor.UpdateFromNalus` | internal/formatprocessor/h264.go:148-174 | The loop leaves the last SPS and PPS, or those before |
| `H264Processor.Processor.Count` | internal/formatprocessor/h264.go:189-213 | The first pass counts exactly the units there will be, and finds a key frame |
| `H264Processor.Fill` | internal/formatprocessor/h264.go:230-243 | The second pass fills the array exactly, in order |
| `H264Processor.Processor.Remux` | internal/formatprocessor/h264.go:188-246 | Both passes: SPS and PPS where there is a key frame and both are known, then the input without SPS, PPS and delimiters; none when that is empty |
| `H264Processor.Processor.Process` | internal/formatprocessor/h264.go:306-307 | Update, then remux |

## Left out

- RawWriter.Writer.Write: needs a chunk size of at least one; on size zero the source does not return from a message with a body.
- RawWriter.Writer.WriteMessage: the same.
- MessageConn.MessageWriter.Write: the same.
- RawRoundTrip.RoundTrip: chunk stream IDs below 64 and bodies below 2^24 bytes, the widths of the one-byte basic header and of the length field; the source does not reject larger values but writes them into fields they do not fit.
- RawReader.Reader.Read: chunk-stream records are values in the table, so sharing of records by reference is not captured; a failing acknowledgement callback is modelled in `MessageConn.ReadWriter.Read`, after the message, not between two chunks.
- MessageConn.ReadWriter.Read: the acknowledgements asked for while reading go out after the message is read, not between its chunks.
- Duplex.Converse: windows of 80 bytes to a third of the counter range, the messages of the application on other chunk streams than the control messages, and each read before the next is written; pings and changes of settings in the course of it are not covered.
- StaticSource.StopCanComplete: says that the end of a stop stays reachable, not that every scheduler reaches it.
- PathManager.PathManager.UpdateAll: the new contents reach the paths one after another and at once; in the source each delivery runs on its own, so two reloads in quick succession may arrive in either order.
- PathManager.PathManager.ReloadConf: identity of paths is a number given at creation; the wait for a closed path takes no time here, and is what `ManagerWait` is about.
- ManagerWait.ReloadCanComplete: says that the end stays reachable; what a closing path does besides telling the manager is taken not to block, which for its static source is `StaticSource.StopCanComplete`.
- RawDemux.NonInterference: bodies are values, so that two streams never share the bytes of a body is not at issue; the source makes a new slice for every chunk.
- Handshake.HandshakeCompletes: the accident of a second valid digest is a condition on the random bytes, not shown to be improbable.
- Other typed messages: user control and peer bandwidth bodies are specified and round-trip, their buffers are not filled by index; AMF0 bodies are opaque bytes.
- Clients told that they are closed, the answers to publishers, the list of paths for the API, and reloading of a static source's configuration.
- Configured texts that are not valid UTF-8, which a copy through JSON would also change.
- Choosing among several regular expressions that match a name: any of them may be returned.
- RTP encoding and decoding, re-encoding of oversized packets, key-frame interval warnings, and the H265 counterpart.
- Sockets, TLS, HTTP, WebRTC, HLS, RTSP, configuration files, logging, metrics, and the hot reload of the server's other parts.
