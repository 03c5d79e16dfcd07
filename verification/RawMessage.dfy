/**
 * Raw RTMP messages: what the writer puts on the wire for a message and what the reader makes of
 * incoming bytes, each from its own memory of the chunk stream (internal/rtmp/rawmessage).
 */
module RawMessage {
  import opened Bytes
  import opened Chunk

  datatype Message = Message(csid: Byte, timestamp: Duration, typ: Byte, msid: U32, body: seq<Byte>)

  // ---------------------------------------------------------------- writer

  /** What the writer remembers of a chunk stream; every field starts unset. */
  datatype WriterMemory = WriterMemory(
    msid: Option<U32>,
    typ: Option<Byte>,
    bodyLen: Option<nat>,
    timestamp: Option<Duration>,
    delta: Option<Duration>)
  {
    predicate Consistent() {
      && msid.Some? == typ.Some? == bodyLen.Some? == timestamp.Some?
      && (delta.Some? ==> timestamp.Some? && delta.value >= 0)
    }
  }

  const NEW_WRITER := WriterMemory(None, None, None, None, None)

  type WriterStream = w: WriterMemory | w.Consistent() witness NEW_WRITER

  /** The time since the previous message of the stream, unless there is none or time went backwards. */
  function DeltaFor(w: WriterStream, m: Message): (d: Option<Duration>)
    ensures d.Some? ==> d.value >= 0 && w.timestamp.Some?
  {
    if w.timestamp.None? then None
    else
      var diff := SubDuration(m.timestamp, w.timestamp.value);
      if diff >= 0 then Some(diff) else None
  }

  /** The chunk that opens a message: the shortest header form the writer's memory allows. */
  function Opening(w: WriterStream, m: Message, chunkSize: U32): (c: Chunk)
    requires |m.body| < LIMIT32
    ensures c.csid == m.csid && c.body == m.body[..Min(|m.body|, chunkSize)]
  {
    var body := m.body[..Min(|m.body|, chunkSize)];
    var d := DeltaFor(w, m);
    if w.msid.None? || d.None? || w.msid.value != m.msid then
      Chunk0(m.csid, Millis(m.timestamp), m.typ, m.msid, |m.body|, body)
    else if w.typ.value != m.typ || w.bodyLen.value != |m.body| then
      Chunk1(m.csid, Millis(d.value), m.typ, |m.body|, body)
    else if w.delta.None? || w.delta.value != d.value then
      Chunk2(m.csid, Millis(d.value), body)
    else
      Chunk3(m.csid, body)
  }

  /** The chunks that carry what is left of a body. */
  function Continuations(csid: Byte, body: seq<Byte>, chunkSize: U32): seq<Chunk>
    requires chunkSize >= 1
  {
    if body == [] then []
    else
      var n := Min(|body|, chunkSize);
      [Chunk3(csid, body[..n])] + Continuations(csid, body[n..], chunkSize)
  }

  /** Every chunk of a message, in order. */
  function ChunksOf(w: WriterStream, m: Message, chunkSize: U32): (cs: seq<Chunk>)
    requires chunkSize >= 1 && |m.body| < LIMIT32
    ensures |cs| >= 1
  {
    var first := Opening(w, m, chunkSize);
    [first] + Continuations(m.csid, m.body[|first.body|..], chunkSize)
  }

  function Encodings(cs: seq<Chunk>): seq<Byte> {
    if cs == [] then [] else cs[0].Encoding() + Encodings(cs[1..])
  }

  /** The writer's memory once the message has been opened. */
  function Remember(w: WriterStream, m: Message): WriterStream {
    var d := DeltaFor(w, m);
    WriterMemory(Some(m.msid), Some(m.typ), Some(|m.body|), Some(m.timestamp), if d.Some? then d else w.delta)
  }

  function WriterOf(streams: map<Byte, WriterStream>, csid: Byte): WriterStream {
    if csid in streams then streams[csid] else NEW_WRITER
  }

  // ---------------------------------------------------------------- reader

  /** What the reader remembers of a chunk stream; `body` is a message whose last chunks are still to come. */
  datatype ReaderMemory = ReaderMemory(
    timestamp: Option<U32>,
    typ: Option<Byte>,
    msid: Option<U32>,
    bodyLen: Option<U32>,
    body: Option<seq<Byte>>,
    delta: Option<U32>)
  {
    predicate Consistent() {
      && timestamp.Some? == typ.Some? == msid.Some? == bodyLen.Some?
      && (delta.Some? ==> timestamp.Some?)
      && (body.Some? ==> timestamp.Some? && |body.value| < bodyLen.value)
    }
  }

  const NEW_READER := ReaderMemory(None, None, None, None, None, None)

  type ReaderStream = r: ReaderMemory | r.Consistent() witness NEW_READER

  datatype ReadError =
    | EndOfInput
    | UnexpectedChunk(format: nat)   // a new message starts while another is incomplete
    | NoPreviousChunk(format: nat)   // the header relies on a previous chunk that was never received

  datatype ChunkOutcome =
    | Delivered(stream: ReaderStream, msg: Message, used: nat)
    | MoreNeeded(stream: ReaderStream, used: nat)
    | Failed(error: ReadError)

  /** The body length the reader asks of a chunk of forms 2 and 3, or the most it accepts in forms 0 and 1. */
  function BodyLimit(r: ReaderStream, format: nat, chunkSize: U32): U32
    requires format >= 2 ==> r.bodyLen.Some?
  {
    if format < 2 then chunkSize
    else if r.body.Some? then Min(r.bodyLen.value - |r.body.value|, chunkSize)
    else Min(r.bodyLen.value, chunkSize)
  }

  /** The memory with the header of a chunk applied; the incomplete body is not touched. */
  function ApplyHeader(r: ReaderStream, c: Chunk): (s: ReaderStream)
    requires r.body.Some? ==> c.Chunk3?
    requires !c.Chunk0? ==> r.timestamp.Some?
    requires c.Chunk3? && r.body.None? ==> r.delta.Some?
    ensures s.timestamp.Some? && s.body == r.body
  {
    match c
    case Chunk0(_, t, typ, msid, n, _) => ReaderMemory(Some(t), Some(typ), Some(msid), Some(n), None, None)
    case Chunk1(_, d, typ, n, _) =>
      r.(timestamp := Some(Add32(r.timestamp.value, d)), typ := Some(typ), bodyLen := Some(n), delta := Some(d))
    case Chunk2(_, d, _) => r.(timestamp := Some(Add32(r.timestamp.value, d)), delta := Some(d))
    case Chunk3(_, _) =>
      if r.body.Some? then r else r.(timestamp := Some(Add32(r.timestamp.value, r.delta.value)))
  }

  /** Delivers the message if `body` completes it, keeps `body` for later otherwise. */
  function Finish(r: ReaderStream, csid: Byte, body: seq<Byte>, used: nat): ChunkOutcome
    requires r.timestamp.Some? && |body| <= r.bodyLen.value
  {
    if |body| != r.bodyLen.value then MoreNeeded(r.(body := Some(body)), used)
    else
      Delivered(r.(body := None), Message(csid, r.timestamp.value * MILLISECOND, r.typ.value, r.msid.value, body), used)
  }

  /** The protocol error a chunk form causes in the given memory, before anything of the chunk is read. */
  function Refusal(r: ReaderStream, format: nat): Option<ReadError> {
    if format == 0 then
      if r.body.Some? then Some(UnexpectedChunk(0)) else None
    else if format < 3 then
      if r.timestamp.None? then Some(NoPreviousChunk(format))
      else if r.body.Some? then Some(UnexpectedChunk(format)) else None
    else if r.body.None? && r.delta.None? then Some(NoPreviousChunk(3)) else None
  }

  /** Reads one chunk of a stream. */
  function ReadChunk(r: ReaderStream, csid: Byte, format: nat, chunkSize: U32, input: seq<Byte>): (o: ChunkOutcome)
    requires format < 4
    ensures !o.Failed? ==> 1 <= o.used <= |input|
  {
    var refusal := Refusal(r, format);
    if refusal.Some? then Failed(refusal.value)
    else
      var parsed := Parse(format, BodyLimit(r, format, chunkSize), input);
      if parsed.None? then Failed(EndOfInput)
      else
        var c := parsed.value;
        var body := if r.body.Some? then r.body.value + c.body else c.body;
        Finish(ApplyHeader(r, c), csid, body, |c.Encoding()|)
  }

  type Streams = map<Byte, ReaderStream>

  function ReaderOf(streams: Streams, csid: Byte): ReaderStream {
    if csid in streams then streams[csid] else NEW_READER
  }

  function StreamId(input: seq<Byte>): Byte
    requires input != []
  {
    input[0] as int % 64
  }

  /** Reads the next chunk of the connection: its first byte names the form and the stream. */
  function NextChunk(streams: Streams, chunkSize: U32, input: seq<Byte>): (o: ChunkOutcome)
    requires input != []
    ensures !o.Failed? ==> 1 <= o.used <= |input|
  {
    ReadChunk(ReaderOf(streams, StreamId(input)), StreamId(input), input[0] as int / 64, chunkSize, input)
  }

  datatype ReadOutcome =
    | Received(streams: Streams, msg: Message, used: nat)
    | Broken(error: ReadError)

  /** Reads chunks until a message is complete. */
  function ReadOne(streams: Streams, chunkSize: U32, input: seq<Byte>): (o: ReadOutcome)
    ensures o.Received? ==> 1 <= o.used <= |input|
    decreases |input|
  {
    if input == [] then Broken(EndOfInput)
    else
      match NextChunk(streams, chunkSize, input)
      case Failed(e) => Broken(e)
      case Delivered(r, m, n) => Received(streams[StreamId(input) := r], m, n)
      case MoreNeeded(r, n) =>
        match ReadOne(streams[StreamId(input) := r], chunkSize, input[n..])
        case Received(s, m, k) => Received(s, m, n + k)
        case Broken(e) => Broken(e)
  }

  lemma ReadOneUnrolled(streams: Streams, chunkSize: U32, input: seq<Byte>)
    requires input != []
    ensures
      var o := NextChunk(streams, chunkSize, input);
      var one := ReadOne(streams, chunkSize, input);
      && (o.Failed? ==> one == Broken(o.error))
      && (o.Delivered? ==> one == Received(streams[StreamId(input) := o.stream], o.msg, o.used))
      && (o.MoreNeeded? ==>
            var more := ReadOne(streams[StreamId(input) := o.stream], chunkSize, input[o.used..]);
            one == if more.Broken? then more else Received(more.streams, more.msg, o.used + more.used))
  {
    hide NextChunk;
  }

  /** The byte counts at which reading a message looks whether an acknowledgement is due: the end of every chunk. */
  function CheckPositions(streams: Streams, chunkSize: U32, input: seq<Byte>, start: nat): seq<nat>
    decreases |input|
  {
    if input == [] then []
    else
      match NextChunk(streams, chunkSize, input)
      case Failed(_) => []
      case Delivered(_, _, n) => [start + n]
      case MoreNeeded(r, n) =>
        [start + n] + CheckPositions(streams[StreamId(input) := r], chunkSize, input[n..], start + n)
  }

  lemma CheckPositionsUnrolled(streams: Streams, chunkSize: U32, input: seq<Byte>, start: nat)
    requires input != []
    ensures
      var o := NextChunk(streams, chunkSize, input);
      CheckPositions(streams, chunkSize, input, start)
      == if o.Failed? then []
         else if o.Delivered? then [start + o.used]
         else [start + o.used]
              + CheckPositions(streams[StreamId(input) := o.stream], chunkSize, input[o.used..], start + o.used)
  {
    hide NextChunk;
  }

  /** Everything a connection delivers, and the error that ends it. */
  datatype Run = Run(msgs: seq<Message>, error: ReadError)

  function ReadAll(streams: Streams, chunkSize: U32, input: seq<Byte>): Run
    decreases |input|
  {
    match ReadOne(streams, chunkSize, input)
    case Broken(e) => Run([], e)
    case Received(s, m, n) =>
      var rest := ReadAll(s, chunkSize, input[n..]);
      Run([m] + rest.msgs, rest.error)
  }
}
