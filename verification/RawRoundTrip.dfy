/** The reader against the writer: what a whole written connection is read back as. */
module RawRoundTrip {
  import opened Bytes
  import opened Chunk
  import opened RawMessage

  // ---------------------------------------------------------------- one message

  /** Between two messages the two memories agree on all a short header leaves out. */
  ghost predicate InStep(w: WriterStream, r: ReaderStream) {
    && r.body.None?
    && r.typ == w.typ && r.msid == w.msid
    && r.bodyLen.Some? == w.bodyLen.Some?
    && (r.bodyLen.Some? ==> r.bodyLen.value == w.bodyLen.value)
    && (r.delta.Some? ==> w.delta.Some? && r.delta.value == Millis(w.delta.value) as int % LIMIT24)
  }

  /** The reader meets a form 3 opening without a delta to apply. */
  ghost predicate Unreadable(w: WriterStream, r: ReaderStream, m: Message)
    requires |m.body| < LIMIT24
  {
    Opening(w, m, 1).Chunk3? && r.delta.None?
  }

  /** The reader's memory after the message. */
  ghost function After(w: WriterStream, r: ReaderStream, m: Message): (s: ReaderStream)
    requires InStep(w, r) && |m.body| < LIMIT24 && !Unreadable(w, r, m)
    ensures s.timestamp.Some? && s.bodyLen.value == |m.body| && s.typ.value == m.typ && s.msid.value == m.msid
    ensures s.body.None?
  {
    ApplyHeader(r, Opening(w, m, 1).Narrowed())
  }

  lemma OpeningForm(w: WriterStream, m: Message, chunkSize: U32)
    requires |m.body| < LIMIT24
    ensures Opening(w, m, chunkSize) == Opening(w, m, 1).(body := m.body[..Min(|m.body|, chunkSize)])
  {
  }

  lemma EncodingsFirst(c: Chunk, cs: seq<Chunk>)
    ensures Encodings([]) == []
    ensures Encodings([c] + cs) == c.Encoding() + Encodings(cs)
  {
    assert ([c] + cs)[1..] == cs;
  }

  /** A chunk at the front of the input is handed to its own stream. */
  lemma NextIsOurs(streams: Streams, chunkSize: U32, c: Chunk, rest: seq<Byte>)
    requires c.csid < 64
    ensures c.Encoding() + rest != []
    ensures StreamId(c.Encoding() + rest) == c.csid
    ensures NextChunk(streams, chunkSize, c.Encoding() + rest)
         == ReadChunk(ReaderOf(streams, c.csid), c.csid, c.Format(), chunkSize, c.Encoding() + rest)
  {
    FirstByteSplits(c);
    assert (c.Encoding() + rest)[0] == c.FirstByte();
  }

  /** Reading one more chunk: either it ends the call or the rest of the input does. */
  lemma ReadOneStep(streams: Streams, chunkSize: U32, c: Chunk, rest: seq<Byte>)
    requires c.csid < 64
    ensures
      var o := NextChunk(streams, chunkSize, c.Encoding() + rest);
      var one := ReadOne(streams, chunkSize, c.Encoding() + rest);
      && (o.Failed? ==> one == Broken(o.error))
      && (o.Delivered? ==> one == Received(streams[c.csid := o.stream], o.msg, o.used))
      && (o.MoreNeeded? && o.used == |c.Encoding()| ==>
            var more := ReadOne(streams[c.csid := o.stream], chunkSize, rest);
            one == if more.Broken? then more else Received(more.streams, more.msg, o.used + more.used))
  {
    NextIsOurs(streams, chunkSize, c, rest);
    hide NextChunk, ReadOne, Chunk.Encoding;
    assert (c.Encoding() + rest)[|c.Encoding()|..] == rest;
    ReadOneUnrolled(streams, chunkSize, c.Encoding() + rest);
  }

  /** A form 3 chunk extends the message under way. */
  lemma ExtendsBody(streams: Streams, csid: Byte, chunkSize: U32, piece: seq<Byte>, rest: seq<Byte>)
    requires csid < 64
    requires ReaderOf(streams, csid).body.Some?
    requires
      var r := ReaderOf(streams, csid);
      |piece| == Min(r.bodyLen.value - |r.body.value|, chunkSize)
    ensures
      var r := ReaderOf(streams, csid);
      var c := Chunk3(csid, piece);
      NextChunk(streams, chunkSize, c.Encoding() + rest) == Finish(r, csid, r.body.value + piece, |c.Encoding()|)
  {
    var c := Chunk3(csid, piece);
    NextIsOurs(streams, chunkSize, c, rest);
    ParseEncoding(c, |piece|, rest);
  }

  /** Once a message is under way, its remaining chunks complete it. */
  lemma {:induction false} ReadContinuations(streams: Streams, csid: Byte, chunkSize: U32,
                                             left: seq<Byte>, rest: seq<Byte>)
    requires csid < 64 && chunkSize >= 1 && left != []
    requires ReaderOf(streams, csid).body.Some?
    requires |ReaderOf(streams, csid).body.value| + |left| == ReaderOf(streams, csid).bodyLen.value
    ensures
      var r := ReaderOf(streams, csid);
      var wire := Encodings(Continuations(csid, left, chunkSize));
      ReadOne(streams, chunkSize, wire + rest)
      == Received(streams[csid := r.(body := None)],
                  Message(csid, r.timestamp.value * MILLISECOND, r.typ.value, r.msid.value, r.body.value + left),
                  |wire|)
    decreases |left|
  {
    hide ReadOne, NextChunk, Encodings, Chunk.Encoding;
    var r := ReaderOf(streams, csid);
    var n := Min(|left|, chunkSize);
    var c := Chunk3(csid, left[..n]);
    var more := Continuations(csid, left[n..], chunkSize);
    EncodingsFirst(c, more);
    var tail := Encodings(more) + rest;
    assert Encodings([c] + more) + rest == c.Encoding() + tail;
    ReadOneStep(streams, chunkSize, c, tail);
    ExtendsBody(streams, csid, chunkSize, left[..n], tail);
    if n == |left| {
      assert left[..n] == left && left[n..] == [];
    } else {
      var s := streams[csid := r.(body := Some(r.body.value + left[..n]))];
      ReadContinuations(s, csid, chunkSize, left[n..], rest);
      assert (r.body.value + left[..n]) + left[n..] == r.body.value + left;
      assert s[csid := r.(body := None)] == streams[csid := r.(body := None)];
    }
  }

  /** What the reader makes of the opening chunk. */
  lemma ReadOpening(streams: Streams, w: WriterStream, m: Message, chunkSize: U32, rest: seq<Byte>)
    requires m.csid < 64 && |m.body| < LIMIT24 && chunkSize >= 1
    requires InStep(w, ReaderOf(streams, m.csid))
    ensures
      var r := ReaderOf(streams, m.csid);
      var c := Opening(w, m, chunkSize);
      NextChunk(streams, chunkSize, c.Encoding() + rest)
      == if Unreadable(w, r, m) then Failed(NoPreviousChunk(3))
         else Finish(After(w, r, m), m.csid, c.body, |c.Encoding()|)
    ensures
      var r := ReaderOf(streams, m.csid);
      !Unreadable(w, r, m) ==> InStep(Remember(w, m), After(w, r, m))
  {
    hide Parse, Chunk.Encoding, Chunk.FirstByte, SubDuration, Millis;
    var r := ReaderOf(streams, m.csid);
    var c := Opening(w, m, chunkSize);
    OpeningForm(w, m, chunkSize);
    NextIsOurs(streams, chunkSize, c, rest);
    if !Unreadable(w, r, m) {
      assert Refusal(r, c.Format()).None?;
      assert c.Fits(BodyLimit(r, c.Format(), chunkSize));
      ParseEncoding(c, BodyLimit(r, c.Format(), chunkSize), rest);
      assert ApplyHeader(r, c.Narrowed()) == After(w, r, m);
    }
  }

  /** A written message is read back whole, with the time the wire could carry, or refused at its first chunk. */
  lemma ReadWritten(streams: Streams, w: WriterStream, m: Message, chunkSize: U32, rest: seq<Byte>)
    requires m.csid < 64 && |m.body| < LIMIT24 && chunkSize >= 1
    requires InStep(w, ReaderOf(streams, m.csid))
    ensures
      var r := ReaderOf(streams, m.csid);
      var wire := Encodings(ChunksOf(w, m, chunkSize));
      ReadOne(streams, chunkSize, wire + rest)
      == if Unreadable(w, r, m) then Broken(NoPreviousChunk(3))
         else Received(streams[m.csid := After(w, r, m)],
                       m.(timestamp := After(w, r, m).timestamp.value * MILLISECOND),
                       |wire|)
    ensures
      var r := ReaderOf(streams, m.csid);
      !Unreadable(w, r, m) ==> InStep(Remember(w, m), After(w, r, m))
  {
    hide ReadOne, NextChunk, Encodings, Chunk.Encoding, Opening, After, InStep, Unreadable;
    var r := ReaderOf(streams, m.csid);
    var c := Opening(w, m, chunkSize);
    var left := m.body[|c.body|..];
    var more := Continuations(m.csid, left, chunkSize);
    EncodingsFirst(c, more);
    var tail := Encodings(more) + rest;
    assert Encodings([c] + more) + rest == c.Encoding() + tail;
    ReadOneStep(streams, chunkSize, c, tail);
    ReadOpening(streams, w, m, chunkSize, tail);
    if !Unreadable(w, r, m) {
      var s := After(w, r, m);
      assert m.body == c.body + left;
      if left == [] {
        assert tail == rest;
      } else {
        var under := streams[m.csid := s.(body := Some(c.body))];
        ReadContinuations(under, m.csid, chunkSize, left, rest);
        assert under[m.csid := s] == streams[m.csid := s];
      }
    }
  }

  // ---------------------------------------------------------------- whole connections

  function Last(h: seq<Message>): Message
    requires h != []
  {
    h[|h| - 1]
  }

  /** The messages of one chunk stream, oldest first. */
  function StreamOf(msgs: seq<Message>, csid: Byte): (h: seq<Message>)
    ensures forall m :: m in h ==> m in msgs
  {
    if msgs == [] then []
    else
      var before := StreamOf(msgs[..|msgs| - 1], csid);
      if Last(msgs).csid == csid then before + [Last(msgs)] else before
  }

  /** The message changes the message stream or goes back in time, or is the first: it needs a full header. */
  predicate Restarts(h: seq<Message>, m: Message) {
    h == [] || m.msid != Last(h).msid || SubDuration(m.timestamp, Last(h).timestamp) < 0
  }

  /** The latest time step between neighbouring messages that did not go backwards. */
  function LastStep(h: seq<Message>): Option<Duration> {
    if |h| < 2 then None
    else
      var d := SubDuration(h[|h| - 1].timestamp, h[|h| - 2].timestamp);
      if d >= 0 then Some(d) else LastStep(h[..|h| - 1])
  }

  /** The message looks exactly like its predecessor and comes after the latest time step. */
  predicate Repeats(h: seq<Message>, m: Message) {
    && !Restarts(h, m)
    && m.typ == Last(h).typ && |m.body| == |Last(h).body|
    && LastStep(h) == Some(SubDuration(m.timestamp, Last(h).timestamp))
  }

  /**
   * The writer shortens this message to a form 3 header although the previous one had a full header,
   * after which the reader has no time step to repeat.
   */
  predicate Refused(h: seq<Message>, m: Message) {
    Repeats(h, m) && Restarts(h[..|h| - 1], Last(h))
  }

  /** The time, in milliseconds, that the wire gives the latest message of a stream. */
  function WireTime(h: seq<Message>): U32
    requires h != []
  {
    var before := h[..|h| - 1];
    if Restarts(before, Last(h)) then Millis(Last(h).timestamp) as int % LIMIT24
    else Add32(WireTime(before), Millis(SubDuration(Last(h).timestamp, Last(before).timestamp)) as int % LIMIT24)
  }

  /** The writer's memory of a stream after the given messages. */
  function MemoryOf(h: seq<Message>): WriterStream {
    if h == [] then NEW_WRITER else Remember(MemoryOf(h[..|h| - 1]), Last(h))
  }

  predicate Sendable(msgs: seq<Message>) {
    forall m :: m in msgs ==> m.csid < 64 && |m.body| < LIMIT24
  }

  /** The bytes written for `msgs` by a writer that has already written `past`. */
  function Written(past: seq<Message>, msgs: seq<Message>, chunkSize: U32): seq<Byte>
    requires chunkSize >= 1 && Sendable(msgs)
    decreases |msgs|
  {
    if msgs == [] then []
    else
      Encodings(ChunksOf(MemoryOf(StreamOf(past, msgs[0].csid)), msgs[0], chunkSize))
      + Written(past + [msgs[0]], msgs[1..], chunkSize)
  }

  /** What a reader should deliver: every message up to the first refused one, at the times the wire carries. */
  function Expected(past: seq<Message>, msgs: seq<Message>): Run
    decreases |msgs|
  {
    if msgs == [] then Run([], EndOfInput)
    else
      var m := msgs[0];
      var h := StreamOf(past, m.csid);
      if Refused(h, m) then Run([], NoPreviousChunk(3))
      else
        var rest := Expected(past + [m], msgs[1..]);
        Run([m.(timestamp := WireTime(h + [m]) * MILLISECOND)] + rest.msgs, rest.error)
  }

  lemma {:induction false} StreamOfOne(msgs: seq<Message>, csid: Byte)
    ensures forall m :: m in StreamOf(msgs, csid) ==> m.csid == csid
  {
    if msgs != [] {
      StreamOfOne(msgs[..|msgs| - 1], csid);
    }
  }

  lemma StreamOfAppend(msgs: seq<Message>, m: Message, csid: Byte)
    ensures StreamOf(msgs + [m], csid) == if m.csid == csid then StreamOf(msgs, csid) + [m] else StreamOf(msgs, csid)
  {
    assert (msgs + [m])[..|msgs|] == msgs;
  }

  /** The writer's memory holds the latest message and the latest forward time step, nothing else. */
  lemma {:induction false} MemoryIsLatest(h: seq<Message>)
    ensures h == [] ==> MemoryOf(h) == NEW_WRITER
    ensures h != [] ==>
      var l := Last(h);
      MemoryOf(h) == WriterMemory(Some(l.msid), Some(l.typ), Some(|l.body|), Some(l.timestamp), LastStep(h))
  {
    if |h| >= 2 {
      MemoryIsLatest(h[..|h| - 1]);
    }
  }

  /** The form of the opening chunk, told from the messages alone. */
  lemma OpeningFromHistory(h: seq<Message>, m: Message)
    requires |m.body| < LIMIT24
    ensures Opening(MemoryOf(h), m, 1).Chunk0? <==> Restarts(h, m)
    ensures Opening(MemoryOf(h), m, 1).Chunk3? <==> Repeats(h, m)
  {
    MemoryIsLatest(h);
  }

  /** The reader's memory of a stream from which `h` has been read. */
  ghost predicate Tracks(r: ReaderStream, h: seq<Message>) {
    && InStep(MemoryOf(h), r)
    && (h != [] ==>
          && r.timestamp == Some(WireTime(h))
          && (r.delta.None? <==> Restarts(h[..|h| - 1], Last(h))))
  }

  /** The time and the time step the reader notes from the opening chunk. */
  lemma AfterTime(w: WriterStream, r: ReaderStream, m: Message)
    requires InStep(w, r) && |m.body| < LIMIT24 && !Unreadable(w, r, m)
    ensures
      var s := After(w, r, m);
      if Opening(w, m, 1).Chunk0? then s.timestamp.value == Millis(m.timestamp) as int % LIMIT24 && s.delta.None?
      else
        && DeltaFor(w, m).Some? && r.timestamp.Some? && s.delta.Some?
        && s.timestamp.value == Add32(r.timestamp.value, Millis(DeltaFor(w, m).value) as int % LIMIT24)
  {
  }

  lemma TrackOne(r: ReaderStream, h: seq<Message>, m: Message)
    requires Tracks(r, h) && |m.body| < LIMIT24
    ensures Refused(h, m) <==> Unreadable(MemoryOf(h), r, m)
    ensures !Refused(h, m) && InStep(Remember(MemoryOf(h), m), After(MemoryOf(h), r, m))
      ==> Tracks(After(MemoryOf(h), r, m), h + [m])
  {
    OpeningFromHistory(h, m);
    if !Refused(h, m) {
      hide Opening, After, InStep, Remember, SubDuration;
      AfterTime(MemoryOf(h), r, m);
      assert (h + [m])[..|h|] == h;
      MemoryIsLatest(h);
    }
  }

  /** The reader has read `past` on every chunk stream. */
  ghost predicate TracksAll(streams: Streams, past: seq<Message>) {
    forall csid: Byte :: csid < 64 ==> Tracks(ReaderOf(streams, csid), StreamOf(past, csid))
  }

  /** The message has been received with the time the wire carries, and the reader has read that much more. */
  ghost predicate ReceivedNext(one: ReadOutcome, past: seq<Message>, m: Message, size: nat) {
    && one.Received? && one.used == size && TracksAll(one.streams, past + [m])
    && one.msg == m.(timestamp := WireTime(StreamOf(past, m.csid) + [m]) * MILLISECOND)
  }

  /** The next message of a connection. */
  lemma ReadNext(streams: Streams, past: seq<Message>, m: Message, chunkSize: U32, rest: seq<Byte>)
    requires chunkSize >= 1 && m.csid < 64 && |m.body| < LIMIT24 && TracksAll(streams, past)
    ensures
      var h := StreamOf(past, m.csid);
      var wire := Encodings(ChunksOf(MemoryOf(h), m, chunkSize));
      var one := ReadOne(streams, chunkSize, wire + rest);
      if Refused(h, m) then one == Broken(NoPreviousChunk(3)) else ReceivedNext(one, past, m, |wire|)
  {
    var h := StreamOf(past, m.csid);
    var r := ReaderOf(streams, m.csid);
    assert Tracks(r, h);
    ReadWritten(streams, MemoryOf(h), m, chunkSize, rest);
    TrackOne(r, h, m);
    if !Refused(h, m) {
      var s := streams[m.csid := After(MemoryOf(h), r, m)];
      hide ReadOne, Encodings, ChunksOf, After, InStep, Remember, WireTime;
      forall csid: Byte | csid < 64
        ensures Tracks(ReaderOf(s, csid), StreamOf(past + [m], csid))
      {
        StreamOfAppend(past, m, csid);
        assert Tracks(ReaderOf(streams, csid), StreamOf(past, csid));
      }
      assert After(MemoryOf(h), r, m).timestamp == Some(WireTime(h + [m]));
    }
  }

  /**
   * Reading what was written, for every mix of chunk streams and every message: the reader delivers the
   * messages in order at the times the wire carries and stops exactly at the first refused one.
   */
  lemma {:induction false} ReadAllWritten(streams: Streams, past: seq<Message>, msgs: seq<Message>, chunkSize: U32)
    requires chunkSize >= 1 && Sendable(msgs) && TracksAll(streams, past)
    ensures ReadAll(streams, chunkSize, Written(past, msgs, chunkSize)) == Expected(past, msgs)
    decreases |msgs|
  {
    if msgs == [] {
      return;
    }
    hide TracksAll, StreamOf, Refused, WireTime, ReadOne, Encodings, ChunksOf;
    var m := msgs[0];
    var wire := Encodings(ChunksOf(MemoryOf(StreamOf(past, m.csid)), m, chunkSize));
    var rest := Written(past + [m], msgs[1..], chunkSize);
    assert m in msgs;
    ReadNext(streams, past, m, chunkSize, rest);
    var one := ReadOne(streams, chunkSize, wire + rest);
    if one.Received? {
      assert (wire + rest)[|wire|..] == rest;
      ReadAllWritten(one.streams, past + [m], msgs[1..], chunkSize);
    }
  }

  lemma NothingRead()
    ensures TracksAll(map[], [])
  {
    forall csid: Byte
      ensures Tracks(ReaderOf(map[], csid), StreamOf([], csid))
    {
      assert StreamOf([], csid) == [];
    }
  }

  /** A fresh reader on the bytes of a fresh writer. */
  lemma WrittenIsRead(msgs: seq<Message>, chunkSize: U32)
    requires chunkSize >= 1 && Sendable(msgs)
    ensures ReadAll(map[], chunkSize, Written([], msgs, chunkSize)) == Expected([], msgs)
  {
    NothingRead();
    ReadAllWritten(map[], [], msgs, chunkSize);
  }

  predicate RefusedAt(past: seq<Message>, msgs: seq<Message>, k: nat)
    requires k < |msgs|
  {
    Refused(StreamOf(past + msgs[..k], msgs[k].csid), msgs[k])
  }

  lemma RefusedAtNext(past: seq<Message>, msgs: seq<Message>, k: nat)
    requires k + 1 < |msgs|
    ensures RefusedAt(past + [msgs[0]], msgs[1..], k) == RefusedAt(past, msgs, k + 1)
  {
    assert past + [msgs[0]] + msgs[1..][..k] == past + msgs[..k + 1];
  }

  lemma {:induction false} ExpectedError(past: seq<Message>, msgs: seq<Message>)
    ensures Expected(past, msgs).error
         == if exists k :: 0 <= k < |msgs| && RefusedAt(past, msgs, k) then NoPreviousChunk(3) else EndOfInput
    decreases |msgs|
  {
    if msgs != [] {
      var rest := msgs[1..];
      ExpectedError(past + [msgs[0]], rest);
      assert RefusedAt(past, msgs, 0) == Refused(StreamOf(past, msgs[0].csid), msgs[0]) by {
        assert past + msgs[..0] == past;
      }
      hide RefusedAt, Refused, StreamOf, WireTime;
      forall k | 0 <= k < |rest|
        ensures RefusedAt(past + [msgs[0]], rest, k) == RefusedAt(past, msgs, k + 1)
      {
        RefusedAtNext(past, msgs, k);
      }
      if k :| 0 <= k < |msgs| && RefusedAt(past, msgs, k) {
        if k > 0 {
          assert RefusedAt(past + [msgs[0]], rest, k - 1);
        }
      }
    }
  }

  /** The reader rejects a written connection if and only if some message is refused, and then for that reason. */
  lemma RejectedIffRefused(msgs: seq<Message>, chunkSize: U32)
    requires chunkSize >= 1 && Sendable(msgs)
    ensures ReadAll(map[], chunkSize, Written([], msgs, chunkSize)).error
         == if exists k :: 0 <= k < |msgs| && RefusedAt([], msgs, k) then NoPreviousChunk(3) else EndOfInput
  {
    WrittenIsRead(msgs, chunkSize);
    ExpectedError([], msgs);
  }

  // ---------------------------------------------------------------- when nothing is lost

  /**
   * The wire can carry this message: it is not refused, its time is a whole number of milliseconds, and the
   * time (full header) or the time step (short header) fits the 24-bit field.
   */
  predicate Carried(h: seq<Message>, m: Message) {
    && !Refused(h, m)
    && if Restarts(h, m) then WholeMillis(m.timestamp, LIMIT24)
       else
         && WholeMillis(m.timestamp, LIMIT32)
         && SubDuration(m.timestamp, Last(h).timestamp) < LIMIT24 * MILLISECOND
  }

  predicate AllCarried(past: seq<Message>, msgs: seq<Message>)
    decreases |msgs|
  {
    msgs == [] || (Carried(StreamOf(past, msgs[0].csid), msgs[0]) && AllCarried(past + [msgs[0]], msgs[1..]))
  }

  /** The stream's latest message has been read with its own time. */
  predicate Exact(h: seq<Message>) {
    h != [] ==> WireTime(h) * MILLISECOND == Last(h).timestamp
  }

  lemma StepArithmetic(last: U32, t: Duration)
    requires SubDuration(t, last * MILLISECOND) >= 0
    ensures
      var d := SubDuration(t, last * MILLISECOND);
      Add32(last, Millis(d) as int % LIMIT24) * MILLISECOND == t
      <==> WholeMillis(t, LIMIT32) && d < LIMIT24 * MILLISECOND
  {
    var d := SubDuration(t, last * MILLISECOND);
    if t >= 0 {
      assert d == t - last * MILLISECOND;
      hide SubDuration;
      var q, r := d as int / MILLISECOND, d as int % MILLISECOND;
      assert t == (last + q) * MILLISECOND + r;
      assert WholeMillis(t, LIMIT32) <==> r == 0 && last + q < LIMIT32;
      assert d < LIMIT24 * MILLISECOND <==> q < LIMIT24;
      assert Millis(d) as int % LIMIT24 == q % LIMIT24;
    }
  }

  lemma CarriedIsNotRefused(h: seq<Message>, m: Message)
    ensures Carried(h, m) ==> !Refused(h, m)
    ensures Exact(h + [m]) <==> m.(timestamp := WireTime(h + [m]) * MILLISECOND) == m
  {
  }

  lemma ExactIffCarried(h: seq<Message>, m: Message)
    requires Exact(h) && !Refused(h, m)
    ensures Exact(h + [m]) <==> Carried(h, m)
  {
    assert (h + [m])[..|h|] == h;
    if !Restarts(h, m) {
      StepArithmetic(WireTime(h), m.timestamp);
    }
  }

  /** The connection is read back exactly if and only if the wire can carry each of its messages. */
  lemma {:induction false} RoundTripFrom(past: seq<Message>, msgs: seq<Message>)
    requires forall csid: Byte :: Exact(StreamOf(past, csid))
    ensures Expected(past, msgs) == Run(msgs, EndOfInput) <==> AllCarried(past, msgs)
    decreases |msgs|
  {
    if msgs == [] {
      return;
    }
    hide Refused, StreamOf, WireTime, Carried, Exact;
    var m := msgs[0];
    var h := StreamOf(past, m.csid);
    if Refused(h, m) {
      CarriedIsNotRefused(h, m);
      return;
    }
    ExactIffCarried(h, m);
    CarriedIsNotRefused(h, m);
    var first := m.(timestamp := WireTime(h + [m]) * MILLISECOND);
    var rest := Expected(past + [m], msgs[1..]);
    assert msgs == [m] + msgs[1..];
    assert Expected(past, msgs) == Run([first] + rest.msgs, rest.error);
    assert ([first] + rest.msgs)[0] == first && ([first] + rest.msgs)[1..] == rest.msgs;
    if Carried(h, m) {
      forall csid: Byte
        ensures Exact(StreamOf(past + [m], csid))
      {
        StreamOfAppend(past, m, csid);
        assert Exact(StreamOf(past, csid));
      }
      RoundTripFrom(past + [m], msgs[1..]);
    }
  }

  /** The round-trip law, exactly: write then read is the identity if and only if every message is carried. */
  lemma RoundTrip(msgs: seq<Message>, chunkSize: U32)
    requires chunkSize >= 1 && Sendable(msgs)
    ensures ReadAll(map[], chunkSize, Written([], msgs, chunkSize)) == Run(msgs, EndOfInput) <==> AllCarried([], msgs)
  {
    WrittenIsRead(msgs, chunkSize);
    forall csid: Byte
      ensures Exact(StreamOf([], csid))
    {
      assert StreamOf([], csid) == [];
    }
    RoundTripFrom([], msgs);
  }

  /** One stream's messages keep their message stream ID, never go back in time and stay within the field widths. */
  predicate Steady(h: seq<Message>) {
    && (h != [] ==> WholeMillis(h[0].timestamp, LIMIT24))
    && forall i :: 0 < i < |h| ==>
         && h[i].msid == h[i - 1].msid
         && WholeMillis(h[i].timestamp, LIMIT32)
         && h[i - 1].timestamp <= h[i].timestamp < h[i - 1].timestamp + LIMIT24 * MILLISECOND
  }

  lemma SteadyNeverRestarts(h: seq<Message>, m: Message)
    requires Steady(h + [m])
    ensures Carried(h, m) && (h != [] ==> !Restarts(h, m))
  {
    var all := h + [m];
    assert all[|h|] == m;
    if h != [] {
      assert all[|h| - 1] == Last(h);
      if |h| >= 2 {
        assert all[|h| - 2] == h[|h| - 2];
      }
      var before := h[..|h| - 1];
      assert before != [] ==> Last(before) == all[|h| - 2];
      assert |h| == 1 ==> LastStep(h) == None;
    }
  }

  lemma {:induction false} StreamOfPrefix(msgs: seq<Message>, more: seq<Message>, csid: Byte)
    ensures StreamOf(msgs, csid) <= StreamOf(msgs + more, csid)
    decreases |more|
  {
    if more == [] {
      assert msgs + more == msgs;
    } else {
      var shorter := more[..|more| - 1];
      StreamOfPrefix(msgs, shorter, csid);
      assert msgs + more == (msgs + shorter) + [Last(more)];
      StreamOfAppend(msgs + shorter, Last(more), csid);
    }
  }

  /** Steady streams, interleaved in any way, are read back exactly. */
  lemma {:induction false} SteadyIsCarried(past: seq<Message>, msgs: seq<Message>)
    requires forall csid: Byte :: Steady(StreamOf(past + msgs, csid))
    ensures AllCarried(past, msgs)
    decreases |msgs|
  {
    if msgs != [] {
      var m := msgs[0];
      var h := StreamOf(past, m.csid);
      assert past + msgs == (past + [m]) + msgs[1..];
      StreamOfAppend(past, m, m.csid);
      StreamOfPrefix(past + [m], msgs[1..], m.csid);
      SteadyPrefix(h + [m], StreamOf(past + msgs, m.csid));
      SteadyNeverRestarts(h, m);
      SteadyIsCarried(past + [m], msgs[1..]);
    }
  }

  lemma SteadyPrefix(a: seq<Message>, b: seq<Message>)
    requires a <= b && Steady(b)
    ensures Steady(a)
  {
  }

  /** Without the steadiness the law fails: three equal messages whose message stream ID changes once. */
  lemma RefusedExample(a: Message, b: Message)
    requires a == Message(4, 0, 8, 1, []) && b == a.(msid := 2)
    ensures Sendable([a, b, b])
    ensures ReadAll(map[], 128, Written([], [a, b, b], 128)) == Run([a, b], NoPreviousChunk(3))
  {
    hide ReadAll, Written;
    WrittenIsRead([a, b, b], 128);
    hide Expected;
    ExampleExpected(a, b);
  }

  lemma ExampleExpected(a: Message, b: Message)
    requires a.csid == b.csid && a.timestamp == b.timestamp == 0 && a.msid != b.msid
    ensures Expected([], [a, b, b]) == Run([a, b], NoPreviousChunk(3))
  {
    ExampleHistory(a, b);
    hide StreamOf, Refused, WireTime;
    assert [] + [a] == [a] && [a] + [b] == [a, b];
    assert Expected([a, b], [b]) == Run([], NoPreviousChunk(3));
    assert [b, b][1..] == [b];
    assert Expected([a], [b, b]) == Run([b], NoPreviousChunk(3));
    assert [a, b, b][1..] == [b, b];
  }

  lemma ExampleHistory(a: Message, b: Message)
    requires a.csid == b.csid && a.timestamp == b.timestamp == 0 && a.msid != b.msid
    ensures StreamOf([], a.csid) == [] && StreamOf([a], a.csid) == [a] && StreamOf([a, b], a.csid) == [a, b]
    ensures !Refused([], a) && !Refused([a], b) && Refused([a, b], b)
    ensures WireTime([a]) == 0 && WireTime([a, b]) == 0
  {
    StreamOfAppend([], a, a.csid);
    StreamOfAppend([a], b, a.csid);
    assert [] + [a] == [a] && [a] + [b] == [a, b];
    assert [a, b][..1] == [a] && [a][..0] == [];
  }

  // ---------------------------------------------------------------- truncated input

  lemma NextChunkIgnoresRest(streams: Streams, chunkSize: U32, input: seq<Byte>, rest: seq<Byte>)
    requires input != [] && NextChunk(streams, chunkSize, input) != Failed(EndOfInput)
    ensures NextChunk(streams, chunkSize, input + rest) == NextChunk(streams, chunkSize, input)
  {
    var r := ReaderOf(streams, StreamId(input));
    var format := input[0] as int / 64;
    assert (input + rest)[0] == input[0];
    if Refusal(r, format).None? {
      ParseIgnoresRest(format, BodyLimit(r, format, chunkSize), input, rest);
    }
  }

  lemma {:induction false} ReadOneIgnoresRest(streams: Streams, chunkSize: U32, input: seq<Byte>, rest: seq<Byte>)
    requires ReadOne(streams, chunkSize, input) != Broken(EndOfInput)
    ensures ReadOne(streams, chunkSize, input + rest) == ReadOne(streams, chunkSize, input)
    decreases |input|
  {
    hide NextChunk;
    assert input != [];
    NextChunkIgnoresRest(streams, chunkSize, input, rest);
    assert StreamId(input + rest) == StreamId(input);
    var o := NextChunk(streams, chunkSize, input);
    if o.MoreNeeded? {
      assert (input + rest)[o.used..] == input[o.used..] + rest;
      ReadOneIgnoresRest(streams[StreamId(input) := o.stream], chunkSize, input[o.used..], rest);
    }
  }

  /**
   * Cutting any input short, written or not, loses messages only at the end: what is still delivered is a prefix,
   * and a protocol error that was reached stays the same.
   */
  lemma {:induction false} TruncatedRun(streams: Streams, chunkSize: U32, input: seq<Byte>, rest: seq<Byte>)
    ensures
      var cut := ReadAll(streams, chunkSize, input);
      var full := ReadAll(streams, chunkSize, input + rest);
      cut.msgs <= full.msgs && (cut.error != EndOfInput ==> cut == full)
    decreases |input|
  {
    hide ReadOne;
    var o := ReadOne(streams, chunkSize, input);
    if o != Broken(EndOfInput) {
      ReadOneIgnoresRest(streams, chunkSize, input, rest);
      if o.Received? {
        assert (input + rest)[o.used..] == input[o.used..] + rest;
        TruncatedRun(o.streams, chunkSize, input[o.used..], rest);
      }
    }
  }
}
