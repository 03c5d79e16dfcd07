/**
 * Two ends of a connection that both check acknowledgements, which travel as messages among the others
 * (internal/rtmp/message/readwriter.go with internal/rtmp/rawmessage/reader.go and writer.go).
 */
module Duplex {
  import opened Bytes
  import opened RawMessage
  import opened RawRoundTrip
  import opened Messages
  import opened MessageStack
  import opened MessageConn
  import opened RawReader
  import opened RawWriter
  import opened RawLink
  import A = AckWindow
  import Chunk

  const REPORT_SIZE := 20                    // an acknowledgement takes at most this many bytes

  // ---------------------------------------------------------------- at most one report per message

  lemma {:induction false} NoReport(i: A.Ideal, from: nat, counts: seq<nat>, to: nat)
    requires A.Sorted(from, counts, to) && to <= i.mark + i.window
    requires counts == [] || A.Final(from, counts) <= to
    ensures A.IdealChecks(i, counts) == i
    decreases |counts|
  {
    if counts != [] {
      A.SortedBelow(counts[0], counts[1..], to);
      NoReport(i, counts[0], counts[1..], to);
    }
  }

  /** A message of at most half a window gives rise to at most one report, after which half a window is free. */
  lemma {:induction false} AtMostOneReport(i: A.Ideal, from: nat, counts: seq<nat>, to: nat)
    requires A.Sorted(from, counts, to) && to <= i.mark + i.window + i.window / 2
    requires A.Final(from, counts) == to
    ensures
      var j := A.IdealChecks(i, counts);
      if to <= i.mark + i.window then j == i
      else counts != [] ==> exists x: nat :: j == i.(mark := i.mark + i.window, acks := i.acks + [x])
    decreases |counts|
  {
    if counts != [] {
      A.SortedBelow(counts[0], counts[1..], to);
      var i1 := A.IdealCheck(i, counts[0]);
      if i1 == i {
        assert counts[1..] == [] ==> counts[0] == to;
        if counts[1..] != [] {
          assert A.Final(counts[0], counts[1..]) == to;
          AtMostOneReport(i, counts[0], counts[1..], to);
        }
      } else {
        NoReport(i1, counts[0], counts[1..], to);
      }
    }
  }

  // ---------------------------------------------------------------- one message in one direction

  /** Messages that can be sent, with none but control messages on the control stream. */
  predicate Placed(m: Msg) {
    && Marshal(m).Some? && Marshal(m).value.csid < 64 && |Marshal(m).value.body| < LIMIT24
    && (IsControl(m) || Marshal(m).value.csid != CONTROL_STREAM)
  }

  /** Of these, the ones that change no settings and ask for no answer. */
  predicate Calm(m: Msg) {
    Placed(m) && (m.Acknowledge? || Marshal(m).value.csid != CONTROL_STREAM)
  }

  /** The receiver of one direction follows its sender, and has marked and reported what it should after `count`. */
  ghost predicate Agreed(streams: Streams, past: seq<Message>, state: A.Receiver, i: A.Ideal, count: nat) {
    && Following(streams, past) && QuietControl(past)
    && 4 * REPORT_SIZE <= i.window && 3 * i.window < LIMIT32
    && A.Shows(state, i) && A.Tight(i, count) && (i.acks == [] ==> i.mark == 0)
  }

  /** What is read of a deliverable message. */
  lemma Reads(streams: Streams, past: seq<Message>, m: Msg, chunkSize: U32)
    requires Placed(m) && chunkSize >= 1 && Following(streams, past) && QuietControl(past)
    requires Deliverable(StreamOf(past, Marshal(m).value.csid), m)
    ensures
      var raw := Marshal(m).value;
      var wire := WireOf(past, raw, chunkSize);
      var one := ReadOne(streams, chunkSize, wire);
      && one.Received? && one.used == |wire| && Decode(one.msg) == Some(m)
      && Following(one.streams, past + [raw]) && QuietControl(past + [raw])
  {
    var raw := Marshal(m).value;
    var h := StreamOf(past, raw.csid);
    assert Exact(h) && !Refused(h, raw);
    StaysQuiet(past, m);
    hide Marshal, Decode, Following, QuietControl, Refused, Exact, Carried, StreamOf, WireTime, ReadOne, InRange;
    hide Encodings, ChunksOf;
    var wire := WireOf(past, raw, chunkSize);
    assert wire + [] == wire;
    ReceiveFirst(streams, past, raw, chunkSize, []);
    StackStep(h, m);
  }

  lemma StaysQuiet(past: seq<Message>, m: Msg)
    requires Placed(m) && QuietControl(past)
    ensures QuietControl(past + [Marshal(m).value])
  {
    StreamOfAppend(past, Marshal(m).value, CONTROL_STREAM);
    hide StreamOf;
  }

  /** The counts the receiver goes through while it reads the message. */
  ghost function Counts(streams: Streams, past: seq<Message>, m: Msg, chunkSize: U32, count: nat): seq<nat>
    requires Calm(m) && chunkSize >= 1
  {
    CheckPositions(streams, chunkSize, WireOf(past, Marshal(m).value, chunkSize), count)
  }

  /** Nothing new is reported; or one count is, and half a window is free again. */
  ghost predicate ReportsOnce(i: A.Ideal, j: A.Ideal, end: nat) {
    if end <= i.mark + i.window then j == i
    else
      && |j.acks| == |i.acks| + 1 && j.acks[..|i.acks|] == i.acks
      && j.window == i.window && end <= j.mark + j.window / 2
  }

  lemma Counted(state: A.Receiver, i: A.Ideal, start: nat, counts: seq<nat>, end: nat)
    requires 0 < i.window && 3 * i.window < LIMIT32
    requires A.Shows(state, i) && A.Tight(i, start) && (i.acks == [] ==> i.mark == 0)
    requires start <= end <= start + i.window / 2
    requires A.Sorted(start, counts, end) && A.Final(start, counts) == end && counts != []
    ensures
      var j := A.IdealChecks(i, counts);
      && ReportsOnce(i, j, end) && j.window == i.window
      && A.Shows(A.Checks(state, counts), j) && A.Tight(j, end) && (j.acks == [] ==> j.mark == 0)
  {
    hide A.Sorted, A.Checks, A.IdealChecks, A.Shows;
    ReceiverAfter(state, i, start, A.Crossing([], counts, end));
    AtMostOneReport(i, start, counts, end);
  }

  /** The receiver after the message. */
  lemma Arrives(streams: Streams, past: seq<Message>, state: A.Receiver, i: A.Ideal, count: nat, m: Msg, chunkSize: U32)
    requires Calm(m) && chunkSize >= 1 && Agreed(streams, past, state, i, count)
    requires Deliverable(StreamOf(past, Marshal(m).value.csid), m)
    requires |WireOf(past, Marshal(m).value, chunkSize)| <= i.window / 2
    ensures
      var raw := Marshal(m).value;
      var wire := WireOf(past, raw, chunkSize);
      var one := ReadOne(streams, chunkSize, wire);
      var counts := Counts(streams, past, m, chunkSize, count);
      var j := A.IdealChecks(i, counts);
      && one.Received? && one.used == |wire| && Decode(one.msg) == Some(m)
      && Agreed(one.streams, past + [raw], A.Checks(state, counts), j, count + |wire|)
      && ReportsOnce(i, j, count + |wire|) && j.window == i.window
  {
    hide Marshal, Decode, Following, QuietControl, StreamOf, WireOf, ReadOne, Deliverable, CheckPositions;
    hide A.Sorted, A.Final, A.Checks, A.IdealChecks, A.Shows, A.Tight, ReportsOnce;
    Reads(streams, past, m, chunkSize);
    var wire := WireOf(past, Marshal(m).value, chunkSize);
    PositionsAreSorted(streams, chunkSize, wire, count);
    Counted(state, i, count, Counts(streams, past, m, chunkSize, count), count + |wire|);
  }

  // ---------------------------------------------------------------- room to send

  /**
   * The gate of a sender lets everything through up to half a window past `start`: the peer's state `state` of that
   * time is what the gate has heard of.
   */
  ghost predicate Heard(gate: Gate, state: A.Receiver, i: A.Ideal, start: nat) {
    && gate.window == i.window && 4 * REPORT_SIZE <= i.window && 3 * i.window < LIMIT32
    && A.Shows(state, i) && A.Tight(i, start) && (i.acks == [] ==> i.mark == 0)
    && gate.ackValue == A.AckValue(state)
  }

  /** No chunk of the message starts more than `room` bytes into it. */
  ghost predicate AsksWithin(past: seq<Message>, raw: Message, chunkSize: U32, room: int)
    requires chunkSize >= 1 && |raw.body| < LIMIT24
  {
    var cs := ChunksOf(MemoryOf(StreamOf(past, raw.csid)), raw, chunkSize);
    forall k :: 0 <= k < |cs| ==> |Encodings(cs[..k])| <= room
  }

  lemma AsksInside(past: seq<Message>, raw: Message, chunkSize: U32, room: int)
    requires chunkSize >= 1 && |raw.body| < LIMIT24 && |WireOf(past, raw, chunkSize)| <= room
    ensures AsksWithin(past, raw, chunkSize, room)
  {
    hide Encodings, ChunksOf, StreamOf, MemoryOf;
    var cs := ChunksOf(MemoryOf(StreamOf(past, raw.csid)), raw, chunkSize);
    forall k | 0 <= k < |cs|
      ensures |Encodings(cs[..k])| <= room
    {
      PrefixIsShorter(cs, k);
    }
  }

  lemma GateAdmits(gate: Gate, state: A.Receiver, i: A.Ideal, start: nat, l: Line, past: seq<Message>, raw: Message,
                   chunkSize: U32)
    requires chunkSize >= 1 && |raw.body| < LIMIT24 && Heard(gate, state, i, start) && Remembers(l.streams, past)
    requires start <= |l.out| && AsksWithin(past, raw, chunkSize, start + i.window / 2 - |l.out|)
    ensures
      Send(gate, chunkSize, l, raw)
      == Sending(Line(l.out + WireOf(past, raw, chunkSize),
                      l.streams[raw.csid := Remember(WriterOf(l.streams, raw.csid), raw)]), true)
    ensures
      Remembers(l.streams[raw.csid := Remember(WriterOf(l.streams, raw.csid), raw)], past + [raw])
  {
    hide Encodings, ChunksOf, Send, Remember, WireOf;
    SameWire(l, past, raw, chunkSize);
    RemembersMore(l.streams, past, raw);
    var cs := ChunksOf(WriterOf(l.streams, raw.csid), raw, chunkSize);
    assert WriterOf(l.streams, raw.csid) == MemoryOf(StreamOf(past, raw.csid));
    hide Remembers, StreamOf, MemoryOf;
    var ack := if i.acks == [] then 0 else i.acks[|i.acks| - 1];
    assert gate.ackValue == ack % LIMIT32;
    forall k | 0 <= k < |cs|
      ensures gate.Open(|l.out| + |Encodings(cs[..k])|)
    {
      A.AdmitsHalfWindow(i, start, ack, |l.out| + |Encodings(cs[..k])|);
    }
    SentIffOpen(gate, chunkSize, l, raw);
    SentWhole(gate, chunkSize, l, raw);
  }

  /** An acknowledgement is short, whatever the chunk size. */
  lemma ReportIsShort(past: seq<Message>, v: U32, chunkSize: U32)
    requires chunkSize >= 1
    ensures |WireOf(past, Marshal(Acknowledge(v)).value, chunkSize)| <= REPORT_SIZE
  {
    ShortIsShort(past, Marshal(Acknowledge(v)).value, chunkSize);
  }

  lemma ShortIsShort(past: seq<Message>, raw: Message, chunkSize: U32)
    requires chunkSize >= 1 && |raw.body| == 4
    ensures |WireOf(past, raw, chunkSize)| <= REPORT_SIZE
  {
    hide Chunk.Chunk.Encoding, StreamOf, MemoryOf;
    var w := MemoryOf(StreamOf(past, raw.csid));
    var cs := ChunksOf(w, raw, chunkSize);
    var first := Opening(w, raw, chunkSize);
    assert cs[0] == first && cs[1..] == Continuations(raw.csid, raw.body[|first.body|..], chunkSize);
    ContinuationsAreShort(raw.csid, raw.body[|first.body|..], chunkSize);
  }

  /** An acknowledgement of one chunk asks only before its first byte. */
  function Slack(chunkSize: U32): nat {
    if chunkSize >= 4 then 0 else REPORT_SIZE
  }

  lemma ReportAsksWithin(past: seq<Message>, v: U32, chunkSize: U32)
    requires chunkSize >= 1
    ensures AsksWithin(past, Marshal(Acknowledge(v)).value, chunkSize, Slack(chunkSize))
  {
    var raw := Marshal(Acknowledge(v)).value;
    if chunkSize >= 4 {
      hide Marshal, StreamOf, MemoryOf;
      var cs := ChunksOf(MemoryOf(StreamOf(past, raw.csid)), raw, chunkSize);
      assert |cs| == 1 && Encodings(cs[..0]) == [];
    } else {
      ReportIsShort(past, v, chunkSize);
      AsksInside(past, raw, chunkSize, REPORT_SIZE);
    }
  }

  /**
   * Why there must be: a window after the latest report the sender has heard of, and half a window of message later,
   * an acknowledgement of its own goes out whole exactly if it takes one chunk.
   */
  lemma LateReportIff(gate: Gate, l: Line, v: U32, chunkSize: U32)
    requires gate.enabled && 0 < gate.window && 3 * gate.window < LIMIT32 && gate.ackValue == 0 && chunkSize >= 1
    requires |l.out| == gate.window as int + gate.window as int / 2
    ensures Send(gate, chunkSize, l, Marshal(Acknowledge(v)).value).ok <==> chunkSize >= 4
  {
    hide Marshal, ChunksOf, Send, Chunk.Chunk.Encoding, Gate.Open;
    ReportBody(v);
    var raw := Marshal(Acknowledge(v)).value;
    var cs := ChunksOf(WriterOf(l.streams, raw.csid), raw, chunkSize);
    ShortChunks(WriterOf(l.streams, raw.csid), raw, chunkSize);
    assert Encodings(cs[..0]) == [];
    SentIffOpen(gate, chunkSize, l, raw);
    AtTheLimit(gate, |cs[0].Encoding()|);
    if chunkSize < 4 {
      assert cs[..1] == [cs[0]] && [cs[0]][1..] == [];
      assert Encodings(cs[..1]) == cs[0].Encoding() + Encodings([]);
      assert !gate.Open(|l.out| + |Encodings(cs[..1])|);
    }
  }

  lemma ShortChunks(w: WriterStream, raw: Message, chunkSize: U32)
    requires chunkSize >= 1 && |raw.body| == 4
    ensures
      var cs := ChunksOf(w, raw, chunkSize);
      (|cs| == 1 <==> chunkSize >= 4) && 0 < |cs[0].Encoding()| <= REPORT_SIZE
  {
    hide Chunk.Chunk.Encoding;
  }

  lemma AtTheLimit(gate: Gate, n: nat)
    requires gate.enabled && 0 < gate.window && 3 * gate.window < LIMIT32 && gate.ackValue == 0
    ensures
      var limit := gate.window as int + gate.window as int / 2;
      gate.Open(limit) && (0 < n < LIMIT32 / 2 ==> !gate.Open(limit + n))
  {
  }

  lemma MoreRoom(past: seq<Message>, raw: Message, chunkSize: U32, room: int, more: int)
    requires chunkSize >= 1 && |raw.body| < LIMIT24 && AsksWithin(past, raw, chunkSize, room) && room <= more
    ensures AsksWithin(past, raw, chunkSize, more)
  {
    hide Encodings, ChunksOf, StreamOf, MemoryOf;
  }

  lemma {:induction false} ContinuationsAreShort(csid: Byte, body: seq<Byte>, chunkSize: U32)
    requires chunkSize >= 1
    ensures |Encodings(Continuations(csid, body, chunkSize))| <= 2 * |body|
    decreases |body|
  {
    hide Chunk.Chunk.Encoding;
    if body != [] {
      var n := Min(|body|, chunkSize);
      var cs := Continuations(csid, body, chunkSize);
      ContinuationsAreShort(csid, body[n..], chunkSize);
      assert cs[0] == Chunk.Chunk3(csid, body[..n]) && cs[1..] == Continuations(csid, body[n..], chunkSize);
    }
  }

  // ---------------------------------------------------------------- one end reads

  /** Everything written in this direction has been read. */
  ghost predicate Caught(w: Writer, r: Reader, past: seq<Message>, i: A.Ideal)
    reads w, r, r.input
  {
    && r.Valid() && r.input.data == w.out && r.input.pos == |w.out|
    && w.chunkSize == r.chunkSize >= 1 && w.ackWindowSize == i.window
    && Remembers(w.chunkStreams, past) && Agreed(r.chunkStreams, past, r.AckState(), i, |w.out|)
  }

  /** The message can be sent now, and takes at most half a window. */
  ghost predicate Fits(past: seq<Message>, m: Msg, chunkSize: U32, window: nat)
    requires chunkSize >= 1
  {
    && Calm(m) && Deliverable(StreamOf(past, Marshal(m).value.csid), m)
    && |WireOf(past, Marshal(m).value, chunkSize)| <= window / 2
  }

  /** One message has been written that has not been delivered. */
  ghost predicate Owed(w: Writer, r: Reader, past: seq<Message>, i: A.Ideal, m: Msg)
    reads w, r, r.input
  {
    && r.Valid() && r.input.pos == |r.input.data|
    && w.chunkSize == r.chunkSize >= 1 && w.ackWindowSize == i.window
    && Fits(past, m, w.chunkSize, i.window)
    && w.out == r.input.data + WireOf(past, Marshal(m).value, w.chunkSize)
    && Remembers(w.chunkStreams, past + [Marshal(m).value])
    && Agreed(r.chunkStreams, past, r.AckState(), i, |r.input.data|)
  }

  /** What a message that is no ping brings about, besides one report or none. */
  lemma Reacts(gate: Gate, chunkSize: U32, l: Line, counts: seq<U32>, m: Msg)
    requires chunkSize >= 1 && !m.UserControl? && |counts| <= 1
    requires counts != [] ==> Send(gate, chunkSize, l, Marshal(Acknowledge(counts[0])).value).ok
    ensures
      React(gate, chunkSize, l, counts, Some(m))
      == Reaction(Some(m),
                  if counts == [] then l else Send(gate, chunkSize, l, Marshal(Acknowledge(counts[0])).value).line,
                  if m.Acknowledge? then m.value else gate.ackValue)
  {
    hide Send;
    if counts != [] {
      var raw := Marshal(Acknowledge(counts[0])).value;
      assert Reports(counts) == [raw] && [raw][1..] == [];
      assert SendAll(gate, chunkSize, Send(gate, chunkSize, l, raw).line, []).ok;
    }
  }

  /** The counts reported while the message was read: none, or the latest. */
  lemma NewReports(state: A.Receiver, i: A.Ideal, after: A.Receiver, j: A.Ideal, end: nat)
    requires A.Shows(state, i) && A.Shows(after, j) && ReportsOnce(i, j, end)
    ensures |state.acks| <= |after.acks|
    ensures after.acks[|state.acks|..] == if end <= i.mark + i.window then [] else [A.AckValue(after)]
    ensures if end <= i.mark + i.window then after.acks == state.acks && j == i else end <= j.mark + j.window / 2
  {
  }

  /** The reading end has reported the latest count, as its next message after `back`. */
  ghost predicate Reported(before: Line, after: Line, back: seq<Message>, v: U32, chunkSize: U32)
    requires chunkSize >= 1
  {
    var raw := Marshal(Acknowledge(v)).value;
    after.out == before.out + WireOf(back, raw, chunkSize) && Remembers(after.streams, back + [raw])
  }

  /**
   * The message on its way to `y` is delivered and read. `y` may report once, which it has the room for, through its
   * own writer; and it takes note of an acknowledgement.
   */
  method Hear(w: Writer, y: ReadWriter, ghost m: Msg, ghost past: seq<Message>, ghost i: A.Ideal,
              ghost back: seq<Message>, ghost state: A.Receiver, ghost j: A.Ideal, ghost start: nat)
    returns (got: Option<Msg>, ghost i1: A.Ideal)
    requires w != y.writer.w && Owed(w, y.reader.r, past, i, m)
    requires y.writer.w.chunkSize >= 1 && Remembers(y.writer.w.chunkStreams, back)
    requires Heard(y.writer.w.AckGate(), state, j, start)
    requires start <= |y.writer.w.out| && |y.writer.w.out| + Slack(y.writer.w.chunkSize) <= start + j.window / 2
    modifies y.reader.r, y.reader.r.input, y.writer.w
    ensures got == Some(m) && i1.window == i.window
    ensures Caught(w, y.reader.r, past + [Marshal(m).value], i1)
    ensures y.writer.Current() == old(y.writer.Current())
    ensures y.writer.w.ackValue == if m.Acknowledge? then m.value else old(y.writer.w.ackValue)
    ensures |w.out| <= i.mark + i.window ==>
      i1 == i && y.writer.w.Sent() == old(y.writer.w.Sent()) && y.reader.r.acks == old(y.reader.r.acks)
    ensures |w.out| > i.mark + i.window ==>
      && |w.out| <= i1.mark + i1.window / 2
      && Reported(old(y.writer.w.Sent()), y.writer.w.Sent(), back, A.AckValue(y.reader.r.AckState()),
                  y.writer.w.chunkSize)
  {
    hide Marshal, Remembers, Deliverable, StreamOf, WireOf, ReadOne, Decode, CheckPositions, Send, React;
    hide AsksWithin, A.Checks, A.IdealChecks, A.AckValue, Heard, ReportsOnce, Following, QuietControl, A.Tight;
    ghost var r, before, gate, size := y.reader.r, y.writer.w.Sent(), y.writer.w.AckGate(), w.chunkSize;
    ghost var streams, was, count := r.chunkStreams, r.AckState(), |r.input.data|;
    ghost var raw := Marshal(m).value;
    ghost var wire := WireOf(past, raw, size);
    ghost var counts := Counts(streams, past, m, size, count);
    ghost var after := A.Checks(was, counts);
    i1 := A.IdealChecks(i, counts);
    Arrives(streams, past, was, i, count, m, size);
    NewReports(was, i, after, i1, |w.out|);
    ghost var latest := A.AckValue(after);
    ReportBody(latest);
    ghost var report := Marshal(Acknowledge(latest)).value;
    ReportAsksWithin(back, latest, y.writer.w.chunkSize);
    MoreRoom(back, report, y.writer.w.chunkSize, Slack(y.writer.w.chunkSize), start + j.window / 2 - |before.out|);
    GateAdmits(gate, state, j, start, before, back, report, y.writer.w.chunkSize);
    CalmSettings(Settings(size, i.window), m);
    Reacts(gate, y.writer.w.chunkSize, before, after.acks[|was.acks|..], m);
    y.reader.r.input.Deliver(w.out[|y.reader.r.input.data|..]);
    assert w.out[count..] == wire && r.input.Rest() == wire;
    got := y.Read();
  }

  lemma ReportBody(v: U32)
    ensures Marshal(Acknowledge(v)).Some? && |Marshal(Acknowledge(v)).value.body| == 4
  {
  }

  lemma CalmSettings(s: Settings, m: Msg)
    requires Calm(m)
    ensures Apply(s, m) == s && !m.UserControl?
  {
  }

  // ---------------------------------------------------------------- both ends

  /** The two ends share nothing. */
  predicate Apart(a: ReadWriter, b: ReadWriter) {
    a.writer.w != b.writer.w && a.reader.r != b.reader.r && a.reader.r.input != b.reader.r.input
  }

  /** Both directions have been read to the end, and both ends know of the latest report. */
  ghost predicate Talking(a: ReadWriter, b: ReadWriter, ab: seq<Message>, ba: seq<Message>, i: A.Ideal, j: A.Ideal)
    reads a.writer.w, a.reader.r, a.reader.r.input, b.writer.w, b.reader.r, b.reader.r.input
  {
    && Apart(a, b)
    && Caught(a.writer.w, b.reader.r, ab, i) && a.writer.w.ackValue == A.AckValue(b.reader.r.AckState())
    && Caught(b.writer.w, a.reader.r, ba, j) && b.writer.w.ackValue == A.AckValue(a.reader.r.AckState())
  }

  /** The same messages, but for those on the control stream. */
  ghost predicate SameElsewhere(past: seq<Message>, other: seq<Message>) {
    forall csid: Byte :: csid != CONTROL_STREAM ==> StreamOf(past, csid) == StreamOf(other, csid)
  }

  lemma ReportFits(past: seq<Message>, v: U32, chunkSize: U32, window: nat)
    requires chunkSize >= 1 && QuietControl(past) && 4 * REPORT_SIZE <= window
    ensures
      var raw := Marshal(Acknowledge(v)).value;
      && Fits(past, Acknowledge(v), chunkSize, window)
      && 0 < |WireOf(past, raw, chunkSize)| <= REPORT_SIZE && SameElsewhere(past + [raw], past)
  {
    var m := Acknowledge(v);
    var raw := Marshal(m).value;
    ReportIsShort(past, v, chunkSize);
    assert forall k :: k in [m] ==> k == m;
    ControlDelivered(past, [m]);
    forall csid: Byte | csid != CONTROL_STREAM
      ensures StreamOf(past + [raw], csid) == StreamOf(past, csid)
    {
      StreamOfAppend(past, raw, csid);
    }
    hide QuietControl, StreamOf, MemoryOf, Deliverable;
  }

  /** A report that has been written is on its way. */
  lemma ReportIsOwed(w: Writer, r: Reader, past: seq<Message>, i: A.Ideal, before: Line, v: U32)
    requires r.Valid() && r.input.pos == |r.input.data| && r.input.data == before.out
    requires w.chunkSize == r.chunkSize >= 1 && w.ackWindowSize == i.window
    requires Agreed(r.chunkStreams, past, r.AckState(), i, |before.out|)
    requires Reported(before, w.Sent(), past, v, w.chunkSize)
    ensures Owed(w, r, past, i, Acknowledge(v)) && |before.out| < |w.out| <= |before.out| + REPORT_SIZE
    ensures SameElsewhere(past + [Marshal(Acknowledge(v)).value], past)
  {
    ReportFits(past, v, w.chunkSize, i.window);
    hide Fits, WireOf, Remembers, Following, QuietControl, A.Shows, A.Tight, SameElsewhere, Marshal;
    ReportBody(v);
  }

  /**
   * `b` has just reported: `a` reads the report. If `a` has now something to report itself, it does so before it takes
   * note of what it read, and `b` reads that; `b` then has nothing to report. `i` and `state` are of the time before
   * the message that `b` reported on, when `a` had written `start` bytes; `i1` is of now.
   */
  method Settle(a: ReadWriter, b: ReadWriter, ghost ab: seq<Message>, ghost ba: seq<Message>, ghost i: A.Ideal,
                ghost state: A.Receiver, ghost start: nat, ghost i1: A.Ideal, ghost j: A.Ideal)
    returns (ghost ab1: seq<Message>, ghost ba1: seq<Message>, ghost j1: A.Ideal)
    requires Apart(a, b) && Caught(a.writer.w, b.reader.r, ab, i1) && i1.window == i.window
    requires Owed(b.writer.w, a.reader.r, ba, j, Acknowledge(A.AckValue(b.reader.r.AckState())))
    requires |b.writer.w.out| <= |a.reader.r.input.data| + REPORT_SIZE
    requires b.writer.w.ackValue == A.AckValue(a.reader.r.AckState())
    requires Heard(a.writer.w.AckGate(), state, i, start)
    requires start <= |a.writer.w.out| && |a.writer.w.out| + Slack(a.writer.w.chunkSize) <= start + i.window / 2
    requires |a.writer.w.out| <= i1.mark + i1.window / 2
    modifies a.writer.w, a.reader.r, a.reader.r.input, b.writer.w, b.reader.r, b.reader.r.input
    ensures Talking(a, b, ab1, ba1, i1, j1) && j1.window == j.window
    ensures a.writer.Current() == old(a.writer.Current()) && b.writer.Current() == old(b.writer.Current())
    ensures SameElsewhere(ab1, ab) && SameElsewhere(ba1, ba)
  {
    hide Marshal, Remembers, Fits, StreamOf, WireOf, Following, QuietControl, A.Shows, A.Tight;
    ghost var wa, wb, ra, rb := a.writer.w, b.writer.w, a.reader.r, b.reader.r;
    ghost var stateJ, startB := ra.AckState(), |ra.input.data|;
    ghost var v := A.AckValue(rb.AckState());
    ghost var said := wa.Sent();
    ReportBody(v);
    ghost var report := Marshal(Acknowledge(v)).value;
    ReportElsewhere(ba, v);
    var heard;
    heard, j1 := Hear(b.writer.w, a, Acknowledge(v), ba, j, ab, state, i, start);
    ab1, ba1 := ab, ba + [report];
    ghost var u := A.AckValue(ra.AckState());
    if |wb.out| > j.mark + j.window {
      ReportIsOwed(wa, rb, ab, i1, said, u);
    }
    if |a.writer.w.out| > |b.reader.r.input.data| {
      ghost var i2;
      heard, i2 := Hear(a.writer.w, b, Acknowledge(u), ab, i1, ba1, stateJ, j, startB);
      ReportBody(u);
      ab1 := ab + [Marshal(Acknowledge(u)).value];
    }
  }

  lemma ReportElsewhere(past: seq<Message>, v: U32)
    ensures Marshal(Acknowledge(v)).Some? && SameElsewhere(past + [Marshal(Acknowledge(v)).value], past)
  {
    var raw := Marshal(Acknowledge(v)).value;
    forall csid: Byte | csid != CONTROL_STREAM
      ensures StreamOf(past + [raw], csid) == StreamOf(past, csid)
    {
      StreamOfAppend(past, raw, csid);
    }
  }

  /**
   * A message of the application that takes at most half a window. If an acknowledgement takes several chunks, there
   * must be room for one besides: the sender may have a report to make before it hears of the other's.
   */
  ghost predicate Small(past: seq<Message>, m: Msg, chunkSize: U32, window: nat)
    requires chunkSize >= 1
  {
    && Fits(past, m, chunkSize, window) && !m.Acknowledge?
    && |WireOf(past, Marshal(m).value, chunkSize)| + Slack(chunkSize) <= window / 2
  }

  /** `a` writes the message. */
  method Utter(a: ReadWriter, b: ReadWriter, m: Msg, ghost ab: seq<Message>, ghost ba: seq<Message>, ghost i: A.Ideal,
               ghost j: A.Ideal)
    returns (ok: bool)
    requires Talking(a, b, ab, ba, i, j) && Small(ab, m, a.writer.w.chunkSize, i.window)
    modifies a.writer.w
    ensures ok && Owed(a.writer.w, b.reader.r, ab, i, m)
    ensures a.writer.Current() == old(a.writer.Current()) && a.writer.w.ackValue == old(a.writer.w.ackValue)
    ensures |old(a.writer.w.out)| <= |a.writer.w.out|
    ensures |a.writer.w.out| + Slack(a.writer.w.chunkSize) <= |old(a.writer.w.out)| + i.window / 2
  {
    hide Marshal, Remembers, Deliverable, StreamOf, WireOf, Following, QuietControl, A.Shows, A.Tight, A.AckValue, Send;
    hide Remember, AsksWithin;
    ghost var w := a.writer.w;
    CalmSettings(a.writer.Current(), m);
    AsksInside(ab, Marshal(m).value, w.chunkSize, i.window / 2);
    GateAdmits(w.AckGate(), b.reader.r.AckState(), i, |w.out|, w.Sent(), ab, Marshal(m).value, w.chunkSize);
    ok := a.writer.Write(m);
  }

  /**
   * `a` says something to `b`, and both go on reading until nothing is on its way. Nothing that either of them writes
   * is held up, `b` hears what was said, and both are in touch again.
   */
  method Say(a: ReadWriter, b: ReadWriter, m: Msg, ghost ab: seq<Message>, ghost ba: seq<Message>, ghost i: A.Ideal,
             ghost j: A.Ideal)
    returns (ok: bool, got: Option<Msg>, ghost ab1: seq<Message>, ghost ba1: seq<Message>, ghost i1: A.Ideal,
             ghost j1: A.Ideal)
    requires Talking(a, b, ab, ba, i, j) && Small(ab, m, a.writer.w.chunkSize, i.window)
    modifies a.writer.w, a.reader.r, a.reader.r.input, b.writer.w, b.reader.r, b.reader.r.input
    ensures ok && got == Some(m)
    ensures Talking(a, b, ab1, ba1, i1, j1) && i1.window == i.window && j1.window == j.window
    ensures a.writer.Current() == old(a.writer.Current()) && b.writer.Current() == old(b.writer.Current())
    ensures SameElsewhere(ab1, ab + [Marshal(m).value]) && SameElsewhere(ba1, ba)
  {
    hide Marshal, Remembers, Deliverable, StreamOf, WireOf, Following, QuietControl, A.Shows, A.Tight;
    ghost var wa, wb, ra, rb := a.writer.w, b.writer.w, a.reader.r, b.reader.r;
    ghost var state, start, said := rb.AckState(), |wa.out|, wb.Sent();
    ok := Utter(a, b, m, ab, ba, i, j);
    got, i1 := Hear(a.writer.w, b, m, ab, i, ba, ra.AckState(), j, |wb.out|);
    ab1, ba1, j1 := ab + [Marshal(m).value], ba, j;
    if |wa.out| > i.mark + i.window {
      ReportIsOwed(wb, ra, ba, j, said, A.AckValue(rb.AckState()));
    }
    if |b.writer.w.out| > |a.reader.r.input.data| {
      ab1, ba1, j1 := Settle(a, b, ab1, ba, i, state, start, i1, j);
    }
  }

  // ---------------------------------------------------------------- whole conversations

  /** A message of one end to the other. */
  datatype Turn = Turn(byFirst: bool, msg: Msg)

  function Said(turns: seq<Turn>): seq<Msg> {
    seq(|turns|, k requires 0 <= k < |turns| => turns[k].msg)
  }

  /** Chunk size and window of one direction. */
  predicate Usable(s: Settings) {
    s.chunkSize >= 1 && 4 * REPORT_SIZE <= s.window && 3 * s.window < LIMIT32
  }

  /** Each message is small when it is sent; `ab` and `ba` are what has been sent, `s` and `t` the settings. */
  ghost predicate AllSmall(ab: seq<Message>, ba: seq<Message>, turns: seq<Turn>, s: Settings, t: Settings)
    requires Usable(s) && Usable(t)
    decreases |turns|
  {
    turns == [] ||
    (var m := turns[0].msg;
     if turns[0].byFirst then
       && Small(ab, m, s.chunkSize, s.window)
       && AllSmall(ab + [Marshal(m).value], ba, turns[1..], s, t)
     else
       && Small(ba, m, t.chunkSize, t.window)
       && AllSmall(ab, ba + [Marshal(m).value], turns[1..], s, t))
  }

  lemma SmallElsewhere(past: seq<Message>, other: seq<Message>, m: Msg, chunkSize: U32, window: nat)
    requires chunkSize >= 1 && SameElsewhere(past, other) && Small(past, m, chunkSize, window)
    ensures Small(other, m, chunkSize, window) && SameElsewhere(past + [Marshal(m).value], other + [Marshal(m).value])
  {
    hide StreamOf, MemoryOf, Marshal, Deliverable;
    var raw := Marshal(m).value;
    forall csid: Byte | csid != CONTROL_STREAM
      ensures StreamOf(past + [raw], csid) == StreamOf(other + [raw], csid)
    {
      StreamOfAppend(past, raw, csid);
      StreamOfAppend(other, raw, csid);
    }
  }

  /** What else goes on on the control stream is of no matter. */
  lemma {:induction false} AllSmallElsewhere(ab: seq<Message>, ba: seq<Message>, ab1: seq<Message>, ba1: seq<Message>,
                                             turns: seq<Turn>, s: Settings, t: Settings)
    requires Usable(s) && Usable(t) && AllSmall(ab, ba, turns, s, t)
    requires SameElsewhere(ab, ab1) && SameElsewhere(ba, ba1)
    ensures AllSmall(ab1, ba1, turns, s, t)
    decreases |turns|
  {
    hide Small, SameElsewhere, Marshal;
    if turns != [] {
      var m := turns[0].msg;
      if turns[0].byFirst {
        SmallElsewhere(ab, ab1, m, s.chunkSize, s.window);
        SmallIsPlaced(ab, m, s.chunkSize, s.window);
        var raw := Marshal(m).value;
        AllSmallElsewhere(ab + [raw], ba, ab1 + [raw], ba1, turns[1..], s, t);
      } else {
        SmallElsewhere(ba, ba1, m, t.chunkSize, t.window);
        SmallIsPlaced(ba, m, t.chunkSize, t.window);
        var raw := Marshal(m).value;
        AllSmallElsewhere(ab, ba + [raw], ab1, ba1 + [raw], turns[1..], s, t);
      }
    }
  }

  lemma SmallIsPlaced(past: seq<Message>, m: Msg, chunkSize: U32, window: nat)
    requires chunkSize >= 1 && Small(past, m, chunkSize, window)
    ensures Marshal(m).Some?
  {
  }

  lemma Elsewhere(past: seq<Message>, other: seq<Message>)
    requires SameElsewhere(past, other)
    ensures SameElsewhere(other, past)
  {
  }

  /** One turn, whichever end speaks. */
  method Take(a: ReadWriter, b: ReadWriter, turns: seq<Turn>, ghost ab: seq<Message>, ghost ba: seq<Message>,
              ghost i: A.Ideal, ghost j: A.Ideal)
    returns (ok: bool, got: Option<Msg>, ghost ab1: seq<Message>, ghost ba1: seq<Message>, ghost i1: A.Ideal,
             ghost j1: A.Ideal)
    requires Talking(a, b, ab, ba, i, j) && Usable(a.writer.Current()) && Usable(b.writer.Current())
    requires turns != [] && AllSmall(ab, ba, turns, a.writer.Current(), b.writer.Current())
    modifies a.writer.w, a.reader.r, a.reader.r.input, b.writer.w, b.reader.r, b.reader.r.input
    ensures ok && got == Some(turns[0].msg)
    ensures Talking(a, b, ab1, ba1, i1, j1)
    ensures a.writer.Current() == old(a.writer.Current()) && b.writer.Current() == old(b.writer.Current())
    ensures AllSmall(ab1, ba1, turns[1..], a.writer.Current(), b.writer.Current())
  {
    hide Caught, Small, SameElsewhere, Marshal;
    ghost var s, t := a.writer.Current(), b.writer.Current();
    ghost var m := turns[0].msg;
    SameWindows(a, b, ab, ba, i, j);
    if turns[0].byFirst {
      SmallIsPlaced(ab, m, s.chunkSize, s.window);
      ok, got, ab1, ba1, i1, j1 := Say(a, b, turns[0].msg, ab, ba, i, j);
      Elsewhere(ab1, ab + [Marshal(m).value]);
      Elsewhere(ba1, ba);
      AllSmallElsewhere(ab + [Marshal(m).value], ba, ab1, ba1, turns[1..], s, t);
    } else {
      SmallIsPlaced(ba, m, t.chunkSize, t.window);
      ok, got, ba1, ab1, j1, i1 := Say(b, a, turns[0].msg, ba, ab, j, i);
      Elsewhere(ba1, ba + [Marshal(m).value]);
      Elsewhere(ab1, ab);
      AllSmallElsewhere(ab, ba + [Marshal(m).value], ab1, ba1, turns[1..], s, t);
    }
  }

  lemma SameWindows(a: ReadWriter, b: ReadWriter, ab: seq<Message>, ba: seq<Message>, i: A.Ideal, j: A.Ideal)
    requires Talking(a, b, ab, ba, i, j)
    ensures a.writer.w.ackWindowSize == i.window && b.writer.w.ackWindowSize == j.window
  {
  }

  /**
   * A whole conversation of two ends that both check acknowledgements: when every message is small and both read what
   * has come before the next is written, no write of either fails, and each message is heard as it was said.
   */
  method Converse(a: ReadWriter, b: ReadWriter, turns: seq<Turn>, ghost ab: seq<Message>, ghost ba: seq<Message>,
                  ghost i: A.Ideal, ghost j: A.Ideal)
    returns (ok: bool, heard: seq<Msg>)
    requires Talking(a, b, ab, ba, i, j) && Usable(a.writer.Current()) && Usable(b.writer.Current())
    requires AllSmall(ab, ba, turns, a.writer.Current(), b.writer.Current())
    modifies a.writer.w, a.reader.r, a.reader.r.input, b.writer.w, b.reader.r, b.reader.r.input
    ensures ok && heard == Said(turns)
    decreases |turns|
  {
    hide Talking, AllSmall, Usable;
    if turns == [] {
      return true, [];
    }
    var got;
    ghost var ab1, ba1, i1, j1;
    ok, got, ab1, ba1, i1, j1 := Take(a, b, turns, ab, ba, i, j);
    var rest;
    ok, rest := Converse(a, b, turns[1..], ab1, ba1, i1, j1);
    heard := [got.value] + rest;
  }

  // ---------------------------------------------------------------- from the start

  /** A direction in which no window has been set yet. */
  ghost predicate Unset(w: Writer, r: Reader, past: seq<Message>)
    reads w, r, r.input
  {
    && r.Valid() && r.input.data == w.out && r.input.pos == |w.out|
    && w.chunkSize == r.chunkSize >= 1 && w.ackWindowSize == 0 && w.ackValue == 0
    && r.AckState() == A.Receiver(0, 0, [])
    && Remembers(w.chunkStreams, past) && Following(r.chunkStreams, past) && QuietControl(past)
  }

  lemma {:induction false} NoWindowNoReport(state: A.Receiver, counts: seq<nat>)
    requires state.window == 0
    ensures A.Checks(state, counts) == state
    decreases |counts|
  {
    if counts != [] {
      NoWindowNoReport(state, counts[1..]);
    }
  }

  /** The message that sets a window arrives. */
  lemma WindowArrives(streams: Streams, past: seq<Message>, v: U32, chunkSize: U32)
    requires chunkSize >= 1 && Following(streams, past) && QuietControl(past)
    ensures
      var m := SetWindowAckSize(v);
      var raw := Marshal(m).value;
      var wire := WireOf(past, raw, chunkSize);
      var one := ReadOne(streams, chunkSize, wire);
      && one.Received? && one.used == |wire| && Decode(one.msg) == Some(m) && |wire| <= REPORT_SIZE
      && Following(one.streams, past + [raw]) && QuietControl(past + [raw]) && SameElsewhere(past, past + [raw])
  {
    var m := SetWindowAckSize(v);
    assert forall k :: k in [m] ==> k == m;
    ControlDelivered(past, [m]);
    assert Placed(m) && Deliverable(StreamOf(past, Marshal(m).value.csid), m);
    Reads(streams, past, m, chunkSize);
    ShortIsShort(past, Marshal(m).value, chunkSize);
    forall csid: Byte | csid != CONTROL_STREAM
      ensures StreamOf(past + [Marshal(m).value], csid) == StreamOf(past, csid)
    {
      StreamOfAppend(past, Marshal(m).value, csid);
    }
    hide ReadOne, StreamOf, Following, QuietControl, WireOf, Decode;
  }

  lemma WindowIsSent(gate: Gate, l: Line, past: seq<Message>, raw: Message, chunkSize: U32)
    requires chunkSize >= 1 && |raw.body| < LIMIT24 && gate.window == 0 && Remembers(l.streams, past)
    ensures
      Send(gate, chunkSize, l, raw)
      == Sending(Line(l.out + WireOf(past, raw, chunkSize),
                      l.streams[raw.csid := Remember(WriterOf(l.streams, raw.csid), raw)]), true)
    ensures Remembers(l.streams[raw.csid := Remember(WriterOf(l.streams, raw.csid), raw)], past + [raw])
  {
    hide Encodings, ChunksOf, Send, Remember, WireOf;
    SameWire(l, past, raw, chunkSize);
    RemembersMore(l.streams, past, raw);
    hide Remembers;
    SentIffOpen(gate, chunkSize, l, raw);
    SentWhole(gate, chunkSize, l, raw);
  }

  /** `a` sets the window of its direction by a message, which `b` reads. */
  method Open(a: ReadWriter, b: ReadWriter, v: U32, ghost ab: seq<Message>) returns (ok: bool)
    requires Apart(a, b) && Unset(a.writer.w, b.reader.r, ab) && b.writer.w.chunkSize >= 1
    requires 4 * REPORT_SIZE <= v && 3 * v < LIMIT32 && |a.writer.w.out| + REPORT_SIZE <= v
    modifies a.writer.w, b.reader.r, b.reader.r.input, b.writer.w
    ensures ok && a.writer.Current() == Settings(old(a.writer.w.chunkSize), v)
    ensures Caught(a.writer.w, b.reader.r, ab + [Marshal(SetWindowAckSize(v)).value], A.Ideal(v, 0, []))
    ensures a.writer.w.ackValue == 0 && b.reader.r.acks == []
    ensures b.writer.Current() == old(b.writer.Current()) && b.writer.w.Sent() == old(b.writer.w.Sent())
    ensures b.writer.w.ackValue == old(b.writer.w.ackValue)
  {
    hide Remembers, StreamOf, WireOf, ReadOne, Decode, CheckPositions, Send, React, Following, QuietControl;
    hide A.Checks, Remember;
    ghost var m := SetWindowAckSize(v);
    ghost var w, r, size := a.writer.w, b.reader.r, a.writer.w.chunkSize;
    ghost var raw := Marshal(m).value;
    ghost var wire, count := WireOf(ab, raw, size), |w.out|;
    WindowArrives(r.chunkStreams, ab, v, size);
    WindowIsSent(w.AckGate(), w.Sent(), ab, raw, size);
    NoWindowNoReport(r.AckState(), CheckPositions(r.chunkStreams, size, wire, count));
    Reacts(b.writer.w.AckGate(), b.writer.w.chunkSize, b.writer.w.Sent(), [], m);
    ok := a.writer.Write(SetWindowAckSize(v));
    b.reader.r.input.Deliver(a.writer.w.out[|b.reader.r.input.data|..]);
    assert w.out[count..] == wire && r.input.Rest() == wire;
    var _ := b.Read();
  }

  /** A new end that has sent `sent` and received `received`, which is the handshake. */
  method NewEnd(check: bool, sent: seq<Byte>, received: seq<Byte>) returns (e: ReadWriter)
    ensures fresh(e.writer.w) && fresh(e.reader.r) && fresh(e.reader.r.input)
    ensures e.writer.w.Sent() == Line(sent, map[]) && e.writer.w.ackValue == 0 && e.writer.Current() == Settings(128, 0)
    ensures e.reader.r.Valid() && e.reader.r.input.data == received && e.reader.r.input.pos == |received|
    ensures e.reader.r.chunkStreams == map[] && e.reader.Current() == Settings(128, 0)
    ensures e.reader.r.AckState() == A.Receiver(0, 0, [])
  {
    var w := new Writer(check, sent);
    var input := new Chunk.Input(received);
    var _ := input.ReadFull(|received|);
    var r := new Reader(input);
    var reader := new MessageReader(r);
    var writer := new MessageWriter(w);
    e := new ReadWriter(reader, writer);
  }

  /** Two ends after the handshake; each sets its window. */
  method Connect(checkA: bool, checkB: bool, hello: seq<Byte>, reply: seq<Byte>, v: U32, u: U32)
    returns (ok: bool, a: ReadWriter, b: ReadWriter)
    requires Usable(Settings(128, v)) && |hello| + REPORT_SIZE <= v
    requires Usable(Settings(128, u)) && |reply| + REPORT_SIZE <= u
    ensures ok && a.writer.Current() == Settings(128, v) && b.writer.Current() == Settings(128, u)
    ensures
      Talking(a, b, [] + [Marshal(SetWindowAckSize(v)).value], [] + [Marshal(SetWindowAckSize(u)).value],
              A.Ideal(v, 0, []), A.Ideal(u, 0, []))
    ensures fresh(a.writer.w) && fresh(a.reader.r) && fresh(a.reader.r.input)
    ensures fresh(b.writer.w) && fresh(b.reader.r) && fresh(b.reader.r.input)
  {
    hide Following, Remembers, QuietControl;
    a := NewEnd(checkA, hello, reply);
    b := NewEnd(checkB, reply, hello);
    NothingSent();
    ok := Open(a, b, v, []);
    hide A.Tight, A.Shows;
    var also := Open(b, a, u, []);
    ok := ok && also;
  }

  /** The same from the start of a connection: a handshake, which both sides count, the two windows, then the talk. */
  method Dialogue(checkA: bool, checkB: bool, hello: seq<Byte>, reply: seq<Byte>, v: U32, u: U32, turns: seq<Turn>)
    returns (ok: bool, heard: seq<Msg>)
    requires Usable(Settings(128, v)) && |hello| + REPORT_SIZE <= v
    requires Usable(Settings(128, u)) && |reply| + REPORT_SIZE <= u
    requires AllSmall([], [], turns, Settings(128, v), Settings(128, u))
    ensures ok && heard == Said(turns)
  {
    hide AllSmall, SameElsewhere, Talking, Marshal;
    var a, b;
    ok, a, b := Connect(checkA, checkB, hello, reply, v, u);
    WindowElsewhere(v);
    WindowElsewhere(u);
    ghost var ab := [] + [Marshal(SetWindowAckSize(v)).value];
    ghost var ba := [] + [Marshal(SetWindowAckSize(u)).value];
    AllSmallElsewhere([], [], ab, ba, turns, Settings(128, v), Settings(128, u));
    var all;
    all, heard := Converse(a, b, turns, ab, ba, A.Ideal(v, 0, []), A.Ideal(u, 0, []));
    ok := ok && all;
  }

  lemma NothingSent()
    ensures Remembers(map[], []) && Following(map[], []) && QuietControl([])
  {
    NothingRemembered();
    NothingRead();
    forall csid: Byte
      ensures Exact(StreamOf([], csid))
    {
      assert StreamOf([], csid) == [];
    }
  }

  lemma WindowElsewhere(v: U32)
    ensures Marshal(SetWindowAckSize(v)).Some? && SameElsewhere([], [] + [Marshal(SetWindowAckSize(v)).value])
  {
    var raw := Marshal(SetWindowAckSize(v)).value;
    forall csid: Byte | csid != CONTROL_STREAM
      ensures StreamOf([] + [raw], csid) == StreamOf([], csid)
    {
      StreamOfAppend([], raw, csid);
    }
  }
}
