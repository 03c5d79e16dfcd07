/** Two ends of a connection at the level of typed messages. */
module MessageLink {
  import opened Bytes
  import Chunk
  import opened RawMessage
  import opened RawRoundTrip
  import opened Messages
  import opened MessageStack
  import opened MessageConn
  import opened RawReader
  import opened RawWriter
  import RawLink

  // ---------------------------------------------------------------- without acknowledgements

  lemma TypedRunFirst(streams: map<Byte, WriterStream>, s: Settings, ms: seq<Msg>)
    requires Writable(s, ms)
    ensures ms == [] ==> TypedRun(streams, s, ms) == []
    ensures ms != [] ==>
      && Marshal(ms[0]).Some? && |Marshal(ms[0]).value.body| < LIMIT24 && Writable(Apply(s, ms[0]), ms[1..])
      && var raw := Marshal(ms[0]).value;
         var w := WriterOf(streams, raw.csid);
         TypedRun(streams, s, ms)
         == Encodings(ChunksOf(w, raw, s.chunkSize))
            + TypedRun(streams[raw.csid := Remember(w, raw)], Apply(s, ms[0]), ms[1..])
  {
    hide Marshal, Encodings, ChunksOf, Remember;
  }

  /** Writes typed messages one after another with an object that does not ask for acknowledgements. */
  method WriteAll(w: MessageWriter, ms: seq<Msg>) returns (ok: bool)
    requires !w.w.checkAcknowledge && Writable(w.Current(), ms)
    modifies w.w
    ensures ok && w.w.out == old(w.w.out) + TypedRun(old(w.w.chunkStreams), old(w.Current()), ms)
  {
    hide Marshal, Encodings, ChunksOf, Remember, TypedRun, Writable, Send;
    ok := true;
    var left := ms;
    ghost var whole := w.w.out + TypedRun(w.w.chunkStreams, w.Current(), ms);
    while left != []
      invariant ok && Writable(w.Current(), left)
      invariant whole == w.w.out + TypedRun(w.w.chunkStreams, w.Current(), left)
      decreases |left|
    {
      WritableSize(w.Current(), left);
      TypedRunFirst(w.w.chunkStreams, w.Current(), left);
      RawLink.OpenGate(w.w.AckGate(), w.w.chunkSize, w.w.Sent(), Marshal(left[0]).value);
      ok := w.Write(left[0]);
      left := left[1..];
    }
    TypedRunFirst(w.w.chunkStreams, w.Current(), left);
  }

  lemma WritableSize(s: Settings, ms: seq<Msg>)
    requires Writable(s, ms)
    ensures s.chunkSize >= 1
  {
  }

  lemma ReceiveFirstOf(streams: Streams, s: Settings, input: seq<Byte>)
    ensures
      ReceiveAll(streams, s, input).msgs
      == match ReadOne(streams, s.chunkSize, input)
         case Broken(_) => []
         case Received(next, raw, n) =>
           if Decode(raw).None? then []
           else [Decode(raw).value] + ReceiveAll(next, Apply(s, Decode(raw).value), input[n..]).msgs
  {
    hide ReadOne, Decode;
  }

  /** Reads typed messages until one cannot be read. */
  method ReadMessages(r: MessageReader) returns (ms: seq<Msg>)
    requires r.r.Valid()
    modifies r.r, r.r.input
    ensures ms == ReceiveAll(old(r.r.chunkStreams), old(r.Current()), old(r.r.input.Rest())).msgs
  {
    hide ReadOne, Decode, ReceiveAll, CheckPositions;
    ms := [];
    ghost var all := ReceiveAll(r.r.chunkStreams, r.Current(), r.r.input.Rest()).msgs;
    while true
      invariant r.r.Valid() && r.r.input.data == old(r.r.input.data)
      invariant all == ms + ReceiveAll(r.r.chunkStreams, r.Current(), r.r.input.Rest()).msgs
      decreases |r.r.input.data| - r.r.input.pos
    {
      ghost var input := r.r.input.Rest();
      ReceiveFirstOf(r.r.chunkStreams, r.Current(), input);
      var m := r.Read();
      if m.None? {
        return;
      }
      assert r.r.input.Rest() == input[|input| - |r.r.input.Rest()|..];
      ms := ms + [m.value];
    }
  }

  /**
   * A message writer, then a message reader on what it wrote, with chunk-size and window changes anywhere: exactly the
   * messages, if and only if each is deliverable.
   */
  method WriteThenRead(ms: seq<Msg>, chunkSize: U32) returns (got: seq<Msg>)
    requires Writable(Settings(chunkSize, 0), ms)
    ensures got == ms <==> AllDeliverable([], ms)
  {
    hide ReceiveAll, TypedRun, AllDeliverable, Writable, Sent;
    var raw := new Writer(false, []);
    raw.SetChunkSize(chunkSize);
    var w := new MessageWriter(raw);
    var ok := WriteAll(w, ms);
    var input := new Chunk.Input(raw.out);
    var rawReader := new Reader(input);
    rawReader.SetChunkSize(chunkSize);
    assert input.Rest() == raw.out == TypedRun(map[], Settings(chunkSize, 0), ms);
    var r := new MessageReader(rawReader);
    got := ReadMessages(r);
    NothingRemembered();
    TypedRunIsSent(map[], [], Settings(chunkSize, 0), ms);
    StackRoundTrip(Settings(chunkSize, 0), ms);
  }
}
