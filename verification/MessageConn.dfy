/** The message writer, reader and their wiring (internal/rtmp/message/writer.go, reader.go, readwriter.go). */
module MessageConn {
  import opened Bytes
  import opened RawMessage
  import RawRoundTrip
  import opened Messages
  import opened MessageStack
  import opened RawReader
  import opened RawWriter
  import AckWindow

  class MessageWriter {
    const w: Writer

    constructor (w: Writer)
      ensures this.w == w
    {
      this.w := w;
    }

    function Current(): Settings
      reads w
    {
      Settings(w.chunkSize, w.ackWindowSize)
    }

    /** Writes a message; the settings change only after it has gone out whole in the old ones. */
    method Write(m: Msg) returns (ok: bool)
      requires w.chunkSize >= 1
      requires Marshal(m).Some? ==> |Marshal(m).value.body| < LIMIT32
      modifies w
      ensures Marshal(m).None? ==> !ok && w.Sent() == old(w.Sent())
      ensures Marshal(m).Some? ==>
        Sending(w.Sent(), ok) == Send(old(w.AckGate()), old(w.chunkSize), old(w.Sent()), Marshal(m).value)
      ensures Current() == if ok then Apply(old(Current()), m) else old(Current())
      ensures w.ackValue == old(w.ackValue)
    {
      hide Marshal, Send;
      var raw := Marshal(m);
      if raw.None? {
        return false;
      }
      ok := w.Write(raw.value);
      if !ok {
        return;
      }
      match m
      case SetChunkSize(v) => w.SetChunkSize(v);
      case SetWindowAckSize(v) => w.SetWindowAckSize(v);
      case _ =>
    }
  }

  /** The bytes of one typed message after another, each with the table and the settings the one before left behind. */
  function TypedRun(streams: map<Byte, WriterStream>, s: Settings, ms: seq<Msg>): seq<Byte>
    requires Writable(s, ms)
    decreases |ms|
  {
    if ms == [] then []
    else
      var raw := Marshal(ms[0]).value;
      var w := WriterOf(streams, raw.csid);
      Encodings(ChunksOf(w, raw, s.chunkSize))
      + TypedRun(streams[raw.csid := Remember(w, raw)], Apply(s, ms[0]), ms[1..])
  }

  /** So what the message writer sends is what the law of the full stack speaks of. */
  lemma {:induction false} TypedRunIsSent(streams: map<Byte, WriterStream>, past: seq<Message>,
                                          s: Settings, ms: seq<Msg>)
    requires Writable(s, ms) && Remembers(streams, past)
    ensures TypedRun(streams, s, ms) == Sent(past, s, ms)
    decreases |ms|
  {
    if ms != [] {
      hide Marshal, Encodings, ChunksOf, Remember;
      var raw := Marshal(ms[0]).value;
      assert WriterOf(streams, raw.csid) == RawRoundTrip.MemoryOf(RawRoundTrip.StreamOf(past, raw.csid));
      RemembersMore(streams, past, raw);
      hide Remembers;
      var next := streams[raw.csid := Remember(WriterOf(streams, raw.csid), raw)];
      TypedRunIsSent(next, past + [raw], Apply(s, ms[0]), ms[1..]);
    }
  }

  class MessageReader {
    const r: Reader

    constructor (r: Reader)
      ensures this.r == r
    {
      this.r := r;
    }

    function Current(): Settings
      reads r
    {
      Settings(r.chunkSize, r.ackWindowSize)
    }

    /** Reads, dispatches and unmarshals a message, then applies it to the settings. */
    method Read() returns (m: Option<Msg>)
      requires r.Valid()
      modifies r, r.input`pos
      ensures r.Valid()
      ensures
        match ReadOne(old(r.chunkStreams), old(r.chunkSize), old(r.input.Rest()))
        case Broken(_) => m.None? && Current() == old(Current())
        case Received(s, raw, n) =>
          && m == Decode(raw) && r.chunkStreams == s && r.input.pos == old(r.input.pos) + n
          && Current() == if m.Some? then Apply(old(Current()), m.value) else old(Current())
      ensures
        var positions := CheckPositions(old(r.chunkStreams), old(r.chunkSize), old(r.input.Rest()), old(r.input.pos));
        var after := AckWindow.Checks(old(r.AckState()), positions);
        r.lastAckCount == after.mark && r.acks == after.acks
    {
      hide ReadOne, Decode, AckWindow.Checks, CheckPositions;
      var step := r.Read();
      if !step.Got? {
        return None;
      }
      m := Decode(step.msg);
      if m.None? {
        return;
      }
      match m.value
      case SetChunkSize(v) => r.SetChunkSize(v);
      case SetWindowAckSize(v) => r.SetWindowAckSize(v);
      case _ =>
    }
  }

  // ---------------------------------------------------------------- both directions

  /** The acknowledgements for the given counts, as they are sent. */
  function Reports(counts: seq<U32>): (ms: seq<Message>)
    ensures forall m :: m in ms ==> |m.body| == 4
  {
    seq(|counts|, k requires 0 <= k < |counts| => Marshal(Acknowledge(counts[k])).value)
  }

  function Pong(time: U32): (m: Message)
    ensures |m.body| == 6
  {
    Marshal(UserControl(PING_RESPONSE, time)).value
  }

  /** What a read comes to: its result, what has been sent by then, and the count the peer has acknowledged. */
  datatype Reaction = Reaction(msg: Option<Msg>, line: Line, ackValue: U32)

  /**
   * The reports go out first, and none may fail; then an acknowledgement moves the acknowledged count and a ping is
   * answered with its own time, as far as the gate lets the answer through.
   */
  function React(gate: Gate, chunkSize: U32, l: Line, counts: seq<U32>, next: Option<Msg>): Reaction
    requires chunkSize >= 1
  {
    var reported := SendAll(gate, chunkSize, l, Reports(counts));
    if !reported.ok || next.None? then Reaction(None, reported.line, gate.ackValue)
    else
      match next.value
      case Acknowledge(v) => Reaction(next, reported.line, v)
      case UserControl(code, time) =>
        if code == PING_REQUEST then
          Reaction(next, Send(gate, chunkSize, reported.line, Pong(time)).line, gate.ackValue)
        else Reaction(next, reported.line, gate.ackValue)
      case _ => Reaction(next, reported.line, gate.ackValue)
  }

  /** Short control messages that leave the settings alone. */
  predicate Plain(ms: seq<Msg>) {
    forall m :: m in ms ==> m.Acknowledge? || (m.UserControl? && SingleFieldCode(m.code))
  }

  function Raws(ms: seq<Msg>): (raws: seq<Message>)
    requires Plain(ms)
    ensures |raws| == |ms| && forall raw :: raw in raws ==> |raw.body| <= 6
  {
    seq(|ms|, k requires 0 <= k < |ms| => Marshal(ms[k]).value)
  }

  /** Once they have all gone out, what has been sent is what the full stack makes of them. */
  lemma {:induction false} SentIsTyped(gate: Gate, l: Line, s: Settings, ms: seq<Msg>)
    requires s.chunkSize >= 1 && Plain(ms) && Writable(s, ms)
    requires SendAll(gate, s.chunkSize, l, Raws(ms)).ok
    ensures SendAll(gate, s.chunkSize, l, Raws(ms)).line.out == l.out + TypedRun(l.streams, s, ms)
    decreases |ms|
  {
    hide Send, Encodings, ChunksOf, Remember, InRange;
    if ms != [] {
      var raw := Marshal(ms[0]).value;
      assert ms[0] in ms && Raws(ms)[0] == raw && Raws(ms)[1..] == Raws(ms[1..]);
      SentWhole(gate, s.chunkSize, l, raw);
      SentIsTyped(gate, Send(gate, s.chunkSize, l, raw).line, Apply(s, ms[0]), ms[1..]);
    }
  }

  /** What is sent in answer to what has come in. */
  function Answers(counts: seq<U32>, next: Option<Msg>): (ms: seq<Msg>)
    ensures Plain(ms)
  {
    var acks := seq(|counts|, k requires 0 <= k < |counts| => Acknowledge(counts[k]));
    if next.Some? && next.value.UserControl? && next.value.code == PING_REQUEST then
      acks + [UserControl(PING_RESPONSE, next.value.value)]
    else acks
  }

  lemma {:induction false} PlainIsWritable(s: Settings, ms: seq<Msg>)
    requires s.chunkSize >= 1 && Plain(ms)
    ensures Writable(s, ms)
    decreases |ms|
  {
    if ms != [] {
      assert ms[0] in ms;
      PlainIsWritable(Apply(s, ms[0]), ms[1..]);
    }
  }

  lemma ReactionSends(gate: Gate, chunkSize: U32, l: Line, counts: seq<U32>, next: Option<Msg>)
    requires chunkSize >= 1
    ensures
      SendAll(gate, chunkSize, l, Raws(Answers(counts, next))).line == React(gate, chunkSize, l, counts, next).line
  {
    hide Send, SendAll, Marshal;
    var acks := Answers(counts, None);
    assert Raws(acks) == Reports(counts);
    if next.Some? && next.value.UserControl? && next.value.code == PING_REQUEST {
      var pong := UserControl(PING_RESPONSE, next.value.value);
      assert Raws(acks + [pong]) == Raws(acks) + [Pong(next.value.value)];
      SendOneMore(gate, chunkSize, l, Reports(counts), Pong(next.value.value));
    }
  }

  /**
   * What the peer hears: when the gate lets all answers through, a peer that has followed so far receives exactly one
   * acknowledgement per report, then the answer to a ping with the ping's own time, and nothing else.
   */
  lemma AnswersAreHeard(gate: Gate, s: Settings, l: Line, past: seq<Message>, peer: Streams,
                        counts: seq<U32>, next: Option<Msg>)
    requires s.chunkSize >= 1 && Remembers(l.streams, past) && Following(peer, past) && QuietControl(past)
    requires SendAll(gate, s.chunkSize, l, Raws(Answers(counts, next))).ok
    ensures
      var out := React(gate, s.chunkSize, l, counts, next).line.out;
      var answers := Answers(counts, next);
      && l.out <= out
      && ReceiveAll(peer, s, out[|l.out|..]) == StackRun(answers, Trail(s, answers), Stopped(EndOfInput))
  {
    var answers := Answers(counts, next);
    PlainIsWritable(s, answers);
    PlainIsInRange(answers);
    hide Send, SendAll, Marshal, React, Following, QuietControl, Remembers, Answers;
    ReactionSends(gate, s.chunkSize, l, counts, next);
    SentIsTyped(gate, l, s, answers);
    TypedRunIsSent(l.streams, past, s, answers);
    ControlDelivered(past, answers);
    StackRoundTripFrom(peer, past, s, answers);
    assert (l.out + Sent(past, s, answers))[|l.out|..] == Sent(past, s, answers);
  }

  lemma PlainIsInRange(ms: seq<Msg>)
    requires Plain(ms)
    ensures forall m :: m in ms ==> IsControl(m) && InRange(m)
  {
  }

  /** Both directions of a connection. */
  class ReadWriter {
    const reader: MessageReader
    const writer: MessageWriter

    constructor (reader: MessageReader, writer: MessageWriter)
      ensures this.reader == reader && this.writer == writer
    {
      this.reader, this.writer := reader, writer;
    }

    /** Writes one acknowledgement per count, and fails with the first that cannot be written whole. */
    method WriteReports(counts: seq<U32>) returns (ok: bool)
      requires writer.w.chunkSize >= 1
      modifies writer.w
      ensures writer.Current() == old(writer.Current()) && writer.w.AckGate() == old(writer.w.AckGate())
      ensures
        Sending(writer.w.Sent(), ok)
        == SendAll(old(writer.w.AckGate()), old(writer.w.chunkSize), old(writer.w.Sent()), Reports(counts))
    {
      hide Marshal, Send;
      var left := counts;
      ghost var gate, size := writer.w.AckGate(), writer.w.chunkSize;
      ghost var all := SendAll(gate, size, writer.w.Sent(), Reports(counts));
      while left != []
        invariant writer.Current() == old(writer.Current()) && writer.w.AckGate() == gate
        invariant all == SendAll(gate, size, writer.w.Sent(), Reports(left))
        decreases |left|
      {
        FirstReport(left);
        ok := writer.Write(Acknowledge(left[0]));
        if !ok {
          return;
        }
        left := left[1..];
      }
      ok := true;
    }

    lemma FirstReport(counts: seq<U32>)
      requires counts != []
      ensures
        var raw := Marshal(Acknowledge(counts[0]));
        && raw.Some? && |raw.value.body| == 4
        && Reports(counts)[0] == raw.value && Reports(counts)[1..] == Reports(counts[1..])
    {
    }

    /** Reads a message and reacts to it, and to the bytes that have come in. */
    method Read() returns (m: Option<Msg>)
      requires reader.r.Valid() && writer.w.chunkSize >= 1
      modifies reader.r, reader.r.input`pos, writer.w
      ensures reader.r.Valid() && writer.Current() == old(writer.Current())
      ensures
        match ReadOne(old(reader.r.chunkStreams), old(reader.r.chunkSize), old(reader.r.input.Rest()))
        case Broken(_) => reader.Current() == old(reader.Current())
        case Received(s, raw, n) =>
          && reader.r.chunkStreams == s && reader.r.input.pos == old(reader.r.input.pos) + n
          && reader.Current()
             == if Decode(raw).Some? then Apply(old(reader.Current()), Decode(raw).value) else old(reader.Current())
      ensures
        var r := reader.r;
        var positions := CheckPositions(old(r.chunkStreams), old(r.chunkSize), old(r.input.Rest()), old(r.input.pos));
        var after := AckWindow.Checks(old(r.AckState()), positions);
        r.lastAckCount == after.mark && r.acks == after.acks
      ensures
        var r := reader.r;
        var one := ReadOne(old(r.chunkStreams), old(r.chunkSize), old(r.input.Rest()));
        var positions := CheckPositions(old(r.chunkStreams), old(r.chunkSize), old(r.input.Rest()), old(r.input.pos));
        var counts := AckWindow.Checks(old(r.AckState()), positions).acks;
        && old(r.acks) <= counts
        && Reaction(m, writer.w.Sent(), writer.w.ackValue)
           == React(old(writer.w.AckGate()), old(writer.w.chunkSize), old(writer.w.Sent()), counts[|old(r.acks)|..],
                    if one.Received? then Decode(one.msg) else None)
    {
      hide ReadOne, CheckPositions, Decode, Marshal, AckWindow.Checks, Send, SendAll, Reports;
      ghost var r := reader.r;
      ghost var positions := CheckPositions(r.chunkStreams, r.chunkSize, r.input.Rest(), r.input.pos);
      AckWindow.ReportsGrow(r.AckState(), positions);
      var already := |reader.r.acks|;
      m := reader.Read();
      var ok := WriteReports(reader.r.acks[already..]);
      if !ok {
        return None;
      }
      if m.None? {
        return;
      }
      if m.value.Acknowledge? {
        writer.w.SetAcknowledgeValue(m.value.value);
      } else if m.value.UserControl? && m.value.code == PING_REQUEST {
        PongIsMarshalled(m.value.value);
        var _ := writer.Write(UserControl(PING_RESPONSE, m.value.value));
      }
    }

    lemma PongIsMarshalled(time: U32)
      ensures Marshal(UserControl(PING_RESPONSE, time)) == Some(Pong(time))
    {
    }
  }
}
