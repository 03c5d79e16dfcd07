/** Typed messages over the raw reader and writer, with in-band changes of chunk size and window. */
module MessageStack {
  import opened Bytes
  import opened RawMessage
  import opened RawRoundTrip
  import opened Messages

  /** What the two ends must agree on besides the chunk streams. */
  datatype Settings = Settings(chunkSize: U32, window: U32)

  /** A message takes effect on the settings once it has been sent, or received. */
  function Apply(s: Settings, m: Msg): Settings {
    match m
    case SetChunkSize(v) => s.(chunkSize := v)
    case SetWindowAckSize(v) => s.(window := v)
    case _ => s
  }

  /** The settings after each message. */
  function Trail(s: Settings, ms: seq<Msg>): seq<Settings>
    decreases |ms|
  {
    if ms == [] then [] else [Apply(s, ms[0])] + Trail(Apply(s, ms[0]), ms[1..])
  }

  /** The chunk size and the window in force after some messages: the latest that were announced. */
  function LatestChunkSize(s: Settings, ms: seq<Msg>): U32 {
    if ms == [] then s.chunkSize
    else
      var last := ms[|ms| - 1];
      if last.SetChunkSize? then last.value else LatestChunkSize(s, ms[..|ms| - 1])
  }

  function LatestWindow(s: Settings, ms: seq<Msg>): U32 {
    if ms == [] then s.window
    else
      var last := ms[|ms| - 1];
      if last.SetWindowAckSize? then last.value else LatestWindow(s, ms[..|ms| - 1])
  }

  lemma {:induction false} TrailIsLatest(s: Settings, ms: seq<Msg>, k: nat)
    requires k < |ms|
    ensures |Trail(s, ms)| == |ms|
    ensures Trail(s, ms)[k] == Settings(LatestChunkSize(s, ms[..k + 1]), LatestWindow(s, ms[..k + 1]))
    decreases |ms|
  {
    var t := Apply(s, ms[0]);
    LatestFrom(s, ms[..k + 1]);
    if k == 0 {
      assert ms[..1][1..] == [];
      TrailLength(t, ms[1..]);
    } else {
      TrailIsLatest(t, ms[1..], k - 1);
      assert ms[..k + 1][1..] == ms[1..][..k];
    }
  }

  lemma {:induction false} TrailLength(s: Settings, ms: seq<Msg>)
    ensures |Trail(s, ms)| == |ms|
    decreases |ms|
  {
    if ms != [] {
      TrailLength(Apply(s, ms[0]), ms[1..]);
    }
  }

  lemma {:induction false} LatestFrom(s: Settings, ms: seq<Msg>)
    requires ms != []
    ensures
      var t := Apply(s, ms[0]);
      && LatestChunkSize(s, ms) == LatestChunkSize(t, ms[1..])
      && LatestWindow(s, ms) == LatestWindow(t, ms[1..])
    decreases |ms|
  {
    if |ms| > 1 {
      var init := ms[..|ms| - 1];
      LatestFrom(s, init);
      assert init[1..] == ms[1..][..|ms| - 2];
    } else {
      assert ms[..0] == [] && ms[1..] == [];
    }
  }

  /** Every message can be marshalled and chunked, and the chunk size never becomes zero. */
  predicate Writable(s: Settings, ms: seq<Msg>)
    decreases |ms|
  {
    && s.chunkSize >= 1
    && (ms == [] ||
        (&& Marshal(ms[0]).Some?
         && Marshal(ms[0]).value.csid < 64 && |Marshal(ms[0]).value.body| < LIMIT24
         && Writable(Apply(s, ms[0]), ms[1..])))
  }

  /** The bytes of a run of typed messages, after the raw messages `past`. */
  function Sent(past: seq<Message>, s: Settings, ms: seq<Msg>): seq<Byte>
    requires Writable(s, ms)
    decreases |ms|
  {
    if ms == [] then []
    else
      var raw := Marshal(ms[0]).value;
      Encodings(ChunksOf(MemoryOf(StreamOf(past, raw.csid)), raw, s.chunkSize))
      + Sent(past + [raw], Apply(s, ms[0]), ms[1..])
  }

  datatype StackEnd = Stopped(error: ReadError) | Undecodable

  /** The messages received, the settings after each, and what ended the connection. */
  datatype StackRun = StackRun(msgs: seq<Msg>, trail: seq<Settings>, end: StackEnd)

  function ReceiveAll(streams: Streams, s: Settings, input: seq<Byte>): StackRun
    decreases |input|
  {
    match ReadOne(streams, s.chunkSize, input)
    case Broken(e) => StackRun([], [], Stopped(e))
    case Received(streams', raw, n) =>
      match Decode(raw)
      case None => StackRun([], [], Undecodable)
      case Some(m) =>
        var rest := ReceiveAll(streams', Apply(s, m), input[n..]);
        StackRun([m] + rest.msgs, [Apply(s, m)] + rest.trail, rest.end)
  }

  /** The message survives both its own wire form and that of the chunk stream it is sent on. */
  predicate Deliverable(h: seq<Message>, m: Msg) {
    Marshal(m).Some? && InRange(m) && Carried(h, Marshal(m).value)
  }

  predicate AllDeliverable(past: seq<Message>, ms: seq<Msg>)
    decreases |ms|
  {
    ms == [] ||
    (&& Marshal(ms[0]).Some?
     && var raw := Marshal(ms[0]).value;
        Deliverable(StreamOf(past, raw.csid), ms[0]) && AllDeliverable(past + [raw], ms[1..]))
  }

  /** A message stamped zero is always carried, unless refused. */
  lemma ZeroTimeCarried(h: seq<Message>, m: Message)
    requires Exact(h) && !Refused(h, m) && m.timestamp == 0
    ensures Carried(h, m)
  {
  }

  /** Either the time stamp takes part in the typed message or it is zero. */
  lemma TimeMatters(m: Msg, t: Duration)
    requires Marshal(m).Some? && Decode(Marshal(m).value.(timestamp := t)) == Some(m)
    ensures t == Marshal(m).value.timestamp || Marshal(m).value.timestamp == 0
  {
    hide AudioFirstByte, VideoFirstByte, Millis, Be16, Be24, Be32, FromBe16, FromBe24, FromBe32;
    DecodedTime(Marshal(m).value.(timestamp := t), m);
  }

  lemma DecodedTime(raw: Message, m: Msg)
    requires Decode(raw) == Some(m)
    ensures m.Audio? || m.Video? || m.CodedFrames? || m.FramesX? ==> m.dts == raw.timestamp
  {
  }

  lemma StackStep(h: seq<Message>, m: Msg)
    requires Marshal(m).Some? && Exact(h) && !Refused(h, Marshal(m).value)
    ensures
      var raw := Marshal(m).value;
      var seen := raw.(timestamp := WireTime(h + [raw]) * MILLISECOND);
      && (Decode(seen) == Some(m) <==> Deliverable(h, m))
      && (Deliverable(h, m) ==> Exact(h + [raw]))
  {
    var raw := Marshal(m).value;
    var seen := raw.(timestamp := WireTime(h + [raw]) * MILLISECOND);
    assert Exact(h + [raw]) <==> seen == raw;
    ExactIffCarried(h, raw);
    MessageRoundTrip(m);
    hide Marshal, Decode, Carried, Refused, WireTime, Exact, InRange;
    if Decode(seen) == Some(m) && seen != raw {
      TimeMatters(m, seen.timestamp);
      ZeroTimeCarried(h, raw);
    }
  }

  /** The reader follows the writer on every chunk stream, and all times so far were exact. */
  ghost predicate Following(streams: Streams, past: seq<Message>) {
    TracksAll(streams, past) && forall csid: Byte :: csid < 64 ==> Exact(StreamOf(past, csid))
  }

  /** The message has been received with the time the wire carries, `rest` is left, and the reader follows on. */
  ghost predicate ReceivedAs(one: ReadOutcome, past: seq<Message>, raw: Message, input: seq<Byte>, rest: seq<Byte>) {
    var h := StreamOf(past, raw.csid) + [raw];
    && one.Received? && one.msg == raw.(timestamp := WireTime(h) * MILLISECOND)
    && one.used <= |input| && input[one.used..] == rest
    && (Exact(h) ==> Following(one.streams, past + [raw]))
  }

  /** Reading the first message of what was sent. */
  lemma ReceiveFirst(streams: Streams, past: seq<Message>, raw: Message, chunkSize: U32, rest: seq<Byte>)
    requires Following(streams, past) && raw.csid < 64 && |raw.body| < LIMIT24 && chunkSize >= 1
    ensures
      var h := StreamOf(past, raw.csid);
      var input := Encodings(ChunksOf(MemoryOf(h), raw, chunkSize)) + rest;
      var one := ReadOne(streams, chunkSize, input);
      if Refused(h, raw) then one == Broken(NoPreviousChunk(3)) else ReceivedAs(one, past, raw, input, rest)
  {
    var h := StreamOf(past, raw.csid);
    var wire := Encodings(ChunksOf(MemoryOf(h), raw, chunkSize));
    ReadNext(streams, past, raw, chunkSize, rest);
    hide ReadOne, Encodings, ChunksOf, TracksAll, WireTime, Exact, Refused, StreamOf;
    assert (wire + rest)[|wire|..] == rest;
    forall csid: Byte | csid < 64 && Exact(h + [raw])
      ensures Exact(StreamOf(past + [raw], csid))
    {
      StreamOfAppend(past, raw, csid);
    }
  }

  /** The same for a typed message: it arrives as sent, and the rest can be read, if it is deliverable. */
  lemma FirstSent(streams: Streams, past: seq<Message>, s: Settings, ms: seq<Msg>)
    requires Writable(s, ms) && Following(streams, past) && ms != []
    ensures
      var raw, input := Marshal(ms[0]).value, Sent(past, s, ms);
      var one := ReadOne(streams, s.chunkSize, input);
      var deliverable := Deliverable(StreamOf(past, raw.csid), ms[0]);
      if one.Received? then
        && (Decode(one.msg) == Some(ms[0]) <==> deliverable)
        && input[one.used..] == Sent(past + [raw], Apply(s, ms[0]), ms[1..])
        && (deliverable ==> Following(one.streams, past + [raw]))
      else !deliverable
  {
    var raw := Marshal(ms[0]).value;
    var h := StreamOf(past, raw.csid);
    ReceiveFirst(streams, past, raw, s.chunkSize, Sent(past + [raw], Apply(s, ms[0]), ms[1..]));
    assert Exact(h);
    hide ReadOne, Decode, Refused, InRange, WireTime, StreamOf, Exact, Following;
    if !Refused(h, raw) {
      StackStep(h, ms[0]);
    }
  }

  /**
   * The full stack, for every run of typed messages with chunk-size and window changes anywhere: the receiver gets
   * exactly the messages sent, holding the sender's settings after each one, if and only if each is deliverable.
   */
  lemma {:induction false} StackRoundTripFrom(streams: Streams, past: seq<Message>, s: Settings, ms: seq<Msg>)
    requires Writable(s, ms) && Following(streams, past)
    ensures ReceiveAll(streams, s, Sent(past, s, ms)) == StackRun(ms, Trail(s, ms), Stopped(EndOfInput))
        <==> AllDeliverable(past, ms)
    ensures ReceiveAll(streams, s, Sent(past, s, ms)).msgs == ms <==> AllDeliverable(past, ms)
    decreases |ms|
  {
    if ms == [] {
      return;
    }
    hide ReadOne, Sent, Decode, Marshal, Deliverable, Following;
    FirstSent(streams, past, s, ms);
    var input := Sent(past, s, ms);
    var one := ReadOne(streams, s.chunkSize, input);
    if one.Received? {
      if Decode(one.msg) == Some(ms[0]) {
        StackRoundTripFrom(one.streams, past + [Marshal(ms[0]).value], Apply(s, ms[0]), ms[1..]);
        DeliverRest(streams, s, input, one, ms[0], ms);
      } else {
        WrongFirst(streams, s, input, one, ms);
      }
    } else {
      assert ReceiveAll(streams, s, input).msgs == [];
    }
  }

  lemma DeliverRest(streams: Streams, s: Settings, input: seq<Byte>, one: ReadOutcome, m: Msg, ms: seq<Msg>)
    requires one == ReadOne(streams, s.chunkSize, input) && one.Received? && Decode(one.msg) == Some(m)
    requires ms != [] && ms[0] == m
    ensures
      var rest := ReceiveAll(one.streams, Apply(s, m), input[one.used..]);
      ReceiveAll(streams, s, input) == StackRun(ms, Trail(s, ms), Stopped(EndOfInput))
      <==> rest == StackRun(ms[1..], Trail(Apply(s, m), ms[1..]), Stopped(EndOfInput))
    ensures ReceiveAll(streams, s, input).msgs == ms
        <==> ReceiveAll(one.streams, Apply(s, m), input[one.used..]).msgs == ms[1..]
  {
    hide ReadOne, Decode;
    var rest := ReceiveAll(one.streams, Apply(s, m), input[one.used..]);
    assert ms == [m] + ms[1..];
    assert ([m] + rest.msgs)[1..] == rest.msgs;
    assert ([Apply(s, m)] + rest.trail)[1..] == rest.trail;
    assert Trail(s, ms)[1..] == Trail(Apply(s, m), ms[1..]);
  }

  lemma WrongFirst(streams: Streams, s: Settings, input: seq<Byte>, one: ReadOutcome, ms: seq<Msg>)
    requires one == ReadOne(streams, s.chunkSize, input) && one.Received?
    requires ms != [] && Decode(one.msg) != Some(ms[0])
    ensures ReceiveAll(streams, s, input).msgs != ms
  {
    hide ReadOne, Decode;
    if Decode(one.msg).Some? {
      assert ReceiveAll(streams, s, input).msgs[0] == Decode(one.msg).value;
    }
  }

  /** From the start of a connection. */
  lemma StackRoundTrip(s: Settings, ms: seq<Msg>)
    requires Writable(s, ms)
    ensures ReceiveAll(map[], s, Sent([], s, ms)) == StackRun(ms, Trail(s, ms), Stopped(EndOfInput))
        <==> AllDeliverable([], ms)
    ensures ReceiveAll(map[], s, Sent([], s, ms)).msgs == ms <==> AllDeliverable([], ms)
  {
    NothingRead();
    forall csid: Byte
      ensures Exact(StreamOf([], csid))
    {
      assert StreamOf([], csid) == [];
    }
    StackRoundTripFrom(map[], [], s, ms);
  }

  // ---------------------------------------------------------------- control messages

  predicate IsControl(m: Msg) {
    || m.SetChunkSize? || m.Acknowledge? || m.SetWindowAckSize? || m.SetPeerBandwidth? || m.UserControl?
    || m.SetBufferLength?
  }

  /** Nothing but control messages has been sent on their chunk stream. */
  predicate QuietControl(past: seq<Message>) {
    forall m :: m in StreamOf(past, CONTROL_STREAM) ==> m.timestamp == 0 && m.msid == 0
  }

  /** A control message is at time zero and on message stream zero. */
  lemma ControlPlace(m: Msg)
    requires IsControl(m)
    ensures Marshal(m).Some?
    ensures
      var raw := Marshal(m).value;
      raw.csid == CONTROL_STREAM && raw.timestamp == 0 && raw.msid == 0
  {
    hide Be16, Be32;
  }

  lemma QuietIsCarried(h: seq<Message>, raw: Message)
    requires (forall m :: m in h ==> m.timestamp == 0 && m.msid == 0) && raw.timestamp == 0 && raw.msid == 0
    ensures Carried(h, raw)
  {
    assert forall i :: 0 <= i < |h| ==> h[i] in h;
    assert Steady(h + [raw]);
    SteadyNeverRestarts(h, raw);
  }

  /** Control messages in range are always deliverable, whatever goes on on other chunk streams. */
  lemma {:induction false} ControlDelivered(past: seq<Message>, ms: seq<Msg>)
    requires (forall m :: m in ms ==> IsControl(m) && InRange(m)) && QuietControl(past)
    ensures AllDeliverable(past, ms)
    decreases |ms|
  {
    hide StreamOf, Carried, Marshal, InRange;
    if ms != [] {
      assert ms[0] in ms;
      ControlPlace(ms[0]);
      var raw := Marshal(ms[0]).value;
      QuietIsCarried(StreamOf(past, CONTROL_STREAM), raw);
      StreamOfAppend(past, raw, CONTROL_STREAM);
      ControlDelivered(past + [raw], ms[1..]);
    }
  }
}
