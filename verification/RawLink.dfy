/** A writer and a reader on the two ends of a connection: what is written is read, and acknowledged in time. */
module RawLink {
  import opened Bytes
  import opened Chunk
  import opened RawMessage
  import opened RawRoundTrip
  import opened RawReader
  import opened RawWriter
  import A = AckWindow

  // ---------------------------------------------------------------- the counts of one message

  /** The reader's checks on a message never go back and end with the message. */
  lemma {:induction false} PositionsAreSorted(streams: Streams, chunkSize: U32, input: seq<Byte>, start: nat)
    requires ReadOne(streams, chunkSize, input).Received?
    ensures
      var end := start + ReadOne(streams, chunkSize, input).used;
      var positions := CheckPositions(streams, chunkSize, input, start);
      A.Sorted(start, positions, end) && A.Final(start, positions) == end && positions != []
    decreases |input|
  {
    hide ReadOne, CheckPositions, NextChunk;
    ReadOneUnrolled(streams, chunkSize, input);
    CheckPositionsUnrolled(streams, chunkSize, input, start);
    var o := NextChunk(streams, chunkSize, input);
    var here := start + o.used;
    if o.MoreNeeded? {
      var s := streams[StreamId(input) := o.stream];
      PositionsAreSorted(s, chunkSize, input[o.used..], here);
      var more := CheckPositions(s, chunkSize, input[o.used..], here);
      A.SortedFrom(start, here, more, here + ReadOne(s, chunkSize, input[o.used..]).used);
    } else {
      A.SortedFrom(start, here, [], here);
      assert [here] + [] == [here];
    }
  }

  /** The counts at which the writer asks whether it may go on. */
  ghost function SentCounts(start: nat, cs: seq<Chunk>): seq<nat> {
    seq(|cs|, k requires 0 <= k < |cs| => start + |Encodings(cs[..k])|)
  }

  lemma {:induction false} PrefixIsShorter(cs: seq<Chunk>, k: nat)
    requires k <= |cs|
    ensures |Encodings(cs[..k])| <= |Encodings(cs)|
    decreases |cs|
  {
    hide Chunk.Encoding;
    if k > 0 {
      PrefixIsShorter(cs[1..], k - 1);
      assert cs[..k][1..] == cs[1..][..k - 1];
    }
  }

  /** The message's way from the writer to the reader, as the acknowledgement window sees it. */
  ghost function CrossingOf(l: Line, streams: Streams, m: Message, chunkSize: U32): A.Crossing
    requires chunkSize >= 1 && |m.body| < LIMIT24
  {
    var cs := ChunksOf(WriterOf(l.streams, m.csid), m, chunkSize);
    A.Crossing(SentCounts(|l.out|, cs),
               CheckPositions(streams, chunkSize, Encodings(cs), |l.out|),
               |l.out| + |Encodings(cs)|)
  }

  /** The bytes of the next message. */
  function WireOf(past: seq<Message>, m: Message, chunkSize: U32): seq<Byte>
    requires chunkSize >= 1 && |m.body| < LIMIT24
  {
    Encodings(ChunksOf(MemoryOf(StreamOf(past, m.csid)), m, chunkSize))
  }

  /** A message of at most half a window that is not refused makes a fair crossing. */
  lemma CrossingIsFair(l: Line, streams: Streams, past: seq<Message>, m: Message, chunkSize: U32, window: nat)
    requires chunkSize >= 1 && m.csid < 64 && |m.body| < LIMIT24
    requires Remembers(l.streams, past) && TracksAll(streams, past) && !Refused(StreamOf(past, m.csid), m)
    requires |WireOf(past, m, chunkSize)| <= window / 2
    ensures A.Fair(window, |l.out|, CrossingOf(l, streams, m, chunkSize))
  {
    hide ReadOne, CheckPositions, Encodings, ChunksOf, TracksAll, Refused, StreamOf, WireTime, MemoryOf, A.Sorted;
    var cs := ChunksOf(WriterOf(l.streams, m.csid), m, chunkSize);
    var wire := Encodings(cs);
    assert wire == WireOf(past, m, chunkSize) && wire + [] == wire;
    hide Remembers;
    ReadNext(streams, past, m, chunkSize, []);
    PositionsAreSorted(streams, chunkSize, wire, |l.out|);
    forall k | 0 <= k < |cs|
      ensures |Encodings(cs[..k])| <= |wire|
    {
      PrefixIsShorter(cs, k);
    }
  }

  // ---------------------------------------------------------------- the two objects

  /**
   * Writer and reader are in touch: everything written has been read, each remembers `past` on every chunk stream,
   * the settings are the same, the window is a reasonable one, and the writer knows the latest report. `i` is the
   * receiver on counters that never wrap.
   */
  ghost predicate InTouch(w: Writer, r: Reader, past: seq<Message>, i: A.Ideal)
    reads w, r, r.input
  {
    && r.Valid() && r.input.data == w.out && r.input.pos == |w.out|
    && w.chunkSize == r.chunkSize >= 1
    && Remembers(w.chunkStreams, past) && TracksAll(r.chunkStreams, past)
    && w.ackWindowSize == i.window && 0 < i.window && 3 * i.window < LIMIT32
    && A.Shows(r.AckState(), i) && A.Tight(i, |w.out|) && (i.acks == [] ==> i.mark == 0)
    && w.ackValue == A.AckValue(r.AckState())
  }

  /** The message can be sent, takes at most half a window, and is not refused. */
  ghost predicate Easy(past: seq<Message>, m: Message, chunkSize: U32, window: nat)
    requires chunkSize >= 1
  {
    && m.csid < 64 && |m.body| < LIMIT24
    && !Refused(StreamOf(past, m.csid), m) && |WireOf(past, m, chunkSize)| <= window / 2
  }

  /** The gate is open at every count of a fair crossing. */
  lemma GateStaysOpen(gate: Gate, r: A.Receiver, i: A.Ideal, l: Line, streams: Streams, m: Message, chunkSize: U32)
    requires chunkSize >= 1 && |m.body| < LIMIT24
    requires 0 < i.window && 3 * i.window < LIMIT32 && A.Shows(r, i) && A.Tight(i, |l.out|)
    requires (i.acks == [] ==> i.mark == 0) && gate.window == i.window && gate.ackValue == A.AckValue(r)
    requires A.Fair(i.window, |l.out|, CrossingOf(l, streams, m, chunkSize))
    ensures Send(gate, chunkSize, l, m).ok
  {
    hide CheckPositions, Encodings, ChunksOf, A.Sorted, Send;
    SentIffOpen(gate, chunkSize, l, m);
    var cs := ChunksOf(WriterOf(l.streams, m.csid), m, chunkSize);
    var sent := CrossingOf(l, streams, m, chunkSize).sent;
    var ack := if i.acks == [] then 0 else i.acks[|i.acks| - 1];
    assert gate.ackValue == ack % LIMIT32;
    forall k | 0 <= k < |cs|
      ensures gate.Open(|l.out| + |Encodings(cs[..k])|)
    {
      assert sent[k] == |l.out| + |Encodings(cs[..k])|;
      A.AdmitsHalfWindow(i, |l.out|, ack, sent[k]);
    }
  }

  /** The receiver after a fair crossing. */
  lemma ReceiverAfter(r: A.Receiver, i: A.Ideal, start: nat, c: A.Crossing)
    requires 0 < i.window && 3 * i.window < LIMIT32 && A.Shows(r, i) && A.Tight(i, start)
    requires (i.acks == [] ==> i.mark == 0) && A.Fair(i.window, start, c)
    ensures
      var j := A.IdealChecks(i, c.received);
      && j.window == i.window && A.Shows(A.Checks(r, c.received), j) && A.Tight(j, c.end)
      && (j.acks == [] ==> j.mark == 0)
  {
    hide A.Checks, A.IdealChecks, A.Shows, A.Tight;
    A.SortedIsGradual(i.window, start, c.received, c.end);
    A.ReceiverRefines(r, i, start, c.received);
    A.WindowsStay(i, c.received);
    A.NoReportMeansClose(i, c.received);
  }

  /**
   * One message from end to end: it is written, what was written arrives and is read, and what the reader reports
   * reaches the writer. Writing succeeds, the message is read with the time the wire carries, and both stay in touch.
   */
  method Carry(w: Writer, r: Reader, m: Message, ghost past: seq<Message>, ghost i: A.Ideal)
    returns (ok: bool, step: Step, ghost j: A.Ideal)
    requires InTouch(w, r, past, i) && Easy(past, m, w.chunkSize, i.window)
    modifies w, r, r.input
    ensures ok && step == Got(m.(timestamp := WireTime(StreamOf(past, m.csid) + [m]) * MILLISECOND))
    ensures InTouch(w, r, past + [m], j) && j.window == i.window && w.chunkSize == old(w.chunkSize)
  {
    hide Encodings, ChunksOf, TracksAll, Remembers, Refused, StreamOf, WireTime, MemoryOf, Remember;
    hide ReadOne, CheckPositions, Send, A.Fair, A.Shows, A.Tight, A.Checks;
    ghost var before, streams, state := w.Sent(), r.chunkStreams, r.AckState();
    ghost var c := CrossingOf(before, streams, m, w.chunkSize);
    CrossingIsFair(before, streams, past, m, w.chunkSize, i.window);
    GateStaysOpen(w.AckGate(), state, i, before, streams, m, w.chunkSize);
    SentWhole(w.AckGate(), w.chunkSize, before, m);
    RemembersMore(before.streams, past, m);
    SameWire(before, past, m, w.chunkSize);
    ReadNext(streams, past, m, w.chunkSize, []);
    ReceiverAfter(state, i, |before.out|, c);
    A.ReportsGrow(state, c.received);
    var from, reported := |w.out|, |r.acks|;
    ok := w.Write(m);
    ghost var wire := WireOf(past, m, w.chunkSize);
    assert w.out == before.out + wire;
    assert w.out[from..] == wire && wire + [] == wire;
    r.input.Deliver(w.out[from..]);
    assert r.input.Rest() == wire;
    step := r.Read();
    j := A.IdealChecks(i, c.received);
    if |r.acks| > reported {
      w.SetAcknowledgeValue(r.acks[|r.acks| - 1]);
    }
  }

  lemma SameWire(l: Line, past: seq<Message>, m: Message, chunkSize: U32)
    requires chunkSize >= 1 && |m.body| < LIMIT24 && Remembers(l.streams, past)
    ensures Encodings(ChunksOf(WriterOf(l.streams, m.csid), m, chunkSize)) == WireOf(past, m, chunkSize)
  {
    hide Encodings, ChunksOf, StreamOf, MemoryOf;
  }

  ghost predicate AllEasy(past: seq<Message>, msgs: seq<Message>, chunkSize: U32, window: nat)
    requires chunkSize >= 1
    decreases |msgs|
  {
    msgs == [] || (Easy(past, msgs[0], chunkSize, window) && AllEasy(past + [msgs[0]], msgs[1..], chunkSize, window))
  }

  /**
   * The joint law of the acknowledgement window, for the objects: when every message takes at most half a window and
   * is read, and its reports delivered, before the next is written, no write fails, and every message arrives.
   */
  method CarryAll(w: Writer, r: Reader, msgs: seq<Message>, ghost past: seq<Message>, ghost i: A.Ideal)
    returns (got: seq<Message>, ok: bool)
    requires InTouch(w, r, past, i) && AllEasy(past, msgs, w.chunkSize, i.window)
    modifies w, r, r.input
    ensures ok && Expected(past, msgs) == Run(got, EndOfInput)
    decreases |msgs|
  {
    hide InTouch, AllEasy, Expected;
    if msgs == [] {
      NothingExpected(past);
      return [], true;
    }
    var first;
    ghost var j;
    ok, first, j := CarryFirst(w, r, msgs, past, i);
    got, ok := CarryAll(w, r, msgs[1..], past + [msgs[0]], j);
    got := [first] + got;
  }

  method CarryFirst(w: Writer, r: Reader, msgs: seq<Message>, ghost past: seq<Message>, ghost i: A.Ideal)
    returns (ok: bool, m: Message, ghost j: A.Ideal)
    requires InTouch(w, r, past, i) && msgs != [] && AllEasy(past, msgs, w.chunkSize, i.window)
    modifies w, r, r.input
    ensures ok && w.chunkSize == old(w.chunkSize) && j.window == i.window
    ensures InTouch(w, r, past + [msgs[0]], j) && AllEasy(past + [msgs[0]], msgs[1..], w.chunkSize, i.window)
    ensures
      var rest := Expected(past + [msgs[0]], msgs[1..]);
      Expected(past, msgs) == Run([m] + rest.msgs, rest.error)
  {
    assert w.chunkSize >= 1;
    hide InTouch, Easy, AllEasy, Expected, StreamOf, WireTime;
    var step;
    FirstIsEasy(past, msgs, w.chunkSize, i.window);
    ok, step, j := Carry(w, r, msgs[0], past, i);
    m := step.msg;
  }

  lemma NothingExpected(past: seq<Message>)
    ensures Expected(past, []) == Run([], EndOfInput)
  {
  }

  lemma FirstIsEasy(past: seq<Message>, msgs: seq<Message>, chunkSize: U32, window: nat)
    requires chunkSize >= 1 && msgs != [] && AllEasy(past, msgs, chunkSize, window)
    ensures Easy(past, msgs[0], chunkSize, window) && AllEasy(past + [msgs[0]], msgs[1..], chunkSize, window)
    ensures
      var m, rest := msgs[0], Expected(past + [msgs[0]], msgs[1..]);
      Expected(past, msgs)
      == Run([m.(timestamp := WireTime(StreamOf(past, m.csid) + [m]) * MILLISECOND)] + rest.msgs, rest.error)
  {
    hide StreamOf, Refused, WireTime;
  }

  /** The same from the start of a connection; `prelude` is the handshake, which both sides count. */
  method Exchange(prelude: seq<Byte>, check: bool, window: U32, chunkSize: U32, msgs: seq<Message>)
    returns (got: seq<Message>, ok: bool)
    requires 0 < window && 3 * window < LIMIT32 && |prelude| <= window && chunkSize >= 1
    requires AllEasy([], msgs, chunkSize, window)
    ensures ok && Expected([], msgs) == Run(got, EndOfInput)
  {
    hide AllEasy, Expected;
    var w := new Writer(check, prelude);
    var input := new Input(prelude);
    var _ := input.ReadFull(|prelude|);
    var r := new Reader(input);
    w.SetChunkSize(chunkSize);
    w.SetWindowAckSize(window);
    r.SetChunkSize(chunkSize);
    r.SetWindowAckSize(window);
    NothingRead();
    NothingRemembered();
    got, ok := CarryAll(w, r, msgs, [], A.Ideal(window, 0, []));
  }

  // ---------------------------------------------------------------- without acknowledgements

  /** Writes messages one after another with an object that does not ask for acknowledgements. */
  method WriteAll(w: Writer, msgs: seq<Message>) returns (ok: bool)
    requires !w.checkAcknowledge && w.chunkSize >= 1 && Sendable(msgs)
    modifies w`out, w`chunkStreams
    ensures ok && w.out == old(w.out) + WriteRun(old(w.chunkStreams), msgs, w.chunkSize)
  {
    hide Encodings, ChunksOf, Remember, WriteRun, Send;
    ok := true;
    var left := msgs;
    ghost var whole := w.out + WriteRun(w.chunkStreams, msgs, w.chunkSize);
    while left != []
      invariant ok && Sendable(left) && whole == w.out + WriteRun(w.chunkStreams, left, w.chunkSize)
      decreases |left|
    {
      assert left[0] in left;
      WriteRunFirst(w.chunkStreams, left, w.chunkSize);
      OpenGate(w.AckGate(), w.chunkSize, w.Sent(), left[0]);
      ok := w.Write(left[0]);
      left := left[1..];
    }
    WriteRunFirst(w.chunkStreams, left, w.chunkSize);
  }

  lemma WriteRunFirst(streams: map<Byte, WriterStream>, msgs: seq<Message>, chunkSize: U32)
    requires chunkSize >= 1 && Sendable(msgs)
    ensures msgs != [] ==> msgs[0] in msgs
    ensures
      WriteRun(streams, msgs, chunkSize)
      == if msgs == [] then []
         else
           var s := WriterOf(streams, msgs[0].csid);
           Encodings(ChunksOf(s, msgs[0], chunkSize))
           + WriteRun(streams[msgs[0].csid := Remember(s, msgs[0])], msgs[1..], chunkSize)
  {
    hide Encodings, ChunksOf, Remember;
  }

  lemma OpenGate(gate: Gate, chunkSize: U32, l: Line, m: Message)
    requires !gate.enabled && chunkSize >= 1 && |m.body| < LIMIT32
    ensures Send(gate, chunkSize, l, m).ok
    ensures
      var s := WriterOf(l.streams, m.csid);
      Send(gate, chunkSize, l, m).line
      == Line(l.out + Encodings(ChunksOf(s, m, chunkSize)), l.streams[m.csid := Remember(s, m)])
  {
    hide Encodings, ChunksOf, Remember, Send;
    SentIffOpen(gate, chunkSize, l, m);
    SentWhole(gate, chunkSize, l, m);
  }

  lemma ReadAllFirst(streams: Streams, chunkSize: U32, input: seq<Byte>)
    ensures
      ReadAll(streams, chunkSize, input)
      == match ReadOne(streams, chunkSize, input)
         case Broken(e) => Run([], e)
         case Received(s, m, n) =>
           var rest := ReadAll(s, chunkSize, input[n..]);
           Run([m] + rest.msgs, rest.error)
  {
    hide ReadOne;
  }

  /** Reads messages until there are no more. */
  method ReadMessages(r: Reader) returns (run: Run)
    requires r.Valid()
    modifies r, r.input
    ensures run == ReadAll(old(r.chunkStreams), old(r.chunkSize), old(r.input.Rest()))
  {
    hide ReadOne, ReadAll;
    var got := [];
    ghost var all := ReadAll(r.chunkStreams, r.chunkSize, r.input.Rest());
    while true
      invariant r.Valid() && r.chunkSize == old(r.chunkSize) && r.input.data == old(r.input.data)
      invariant
        var rest := ReadAll(r.chunkStreams, r.chunkSize, r.input.Rest());
        all == Run(got + rest.msgs, rest.error)
      decreases |r.input.data| - r.input.pos
    {
      ghost var input := r.input.Rest();
      ReadAllFirst(r.chunkStreams, r.chunkSize, input);
      var step := r.Read();
      match step
      case Got(m) =>
        assert r.input.Rest() == input[|input| - |r.input.Rest()|..];
        got := got + [m];
      case Error(e) => return Run(got, e);
      case More =>
    }
  }

  /** A writer, then a reader on what it wrote: exactly the messages, if and only if each can be carried. */
  method WriteThenRead(msgs: seq<Message>, chunkSize: U32) returns (run: Run)
    requires chunkSize >= 1 && Sendable(msgs)
    ensures run == Run(msgs, EndOfInput) <==> AllCarried([], msgs)
  {
    hide ReadAll, WriteRun, AllCarried;
    var w := new Writer(false, []);
    w.SetChunkSize(chunkSize);
    var ok := WriteAll(w, msgs);
    assert w.out == WriteRun(map[], msgs, chunkSize);
    var input := new Input(w.out);
    var r := new Reader(input);
    r.SetChunkSize(chunkSize);
    assert input.Rest() == w.out;
    run := ReadMessages(r);
    TablesRoundTrip(msgs, chunkSize);
  }
}
