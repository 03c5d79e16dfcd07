/** The raw message writer (internal/rtmp/rawmessage/writer.go). */
module RawWriter {
  import opened Bytes
  import opened Chunk
  import opened RawMessage
  import opened RawRoundTrip
  import AckWindow

  lemma {:induction false} EncodingsAppend(cs: seq<Chunk>, c: Chunk)
    ensures Encodings(cs + [c]) == Encodings(cs) + c.Encoding()
    decreases |cs|
  {
    if cs == [] {
      assert cs + [c] == [c];
    } else {
      assert (cs + [c])[1..] == cs[1..] + [c];
      EncodingsAppend(cs[1..], c);
    }
  }

  lemma EncodingsTake(cs: seq<Chunk>, k: nat)
    requires k < |cs|
    ensures Encodings(cs[..k + 1]) == Encodings(cs[..k]) + cs[k].Encoding()
  {
    assert cs[..k + 1] == cs[..k] + [cs[k]];
    EncodingsAppend(cs[..k], cs[k]);
  }

  /** What the acknowledgement check depends on besides the byte count. */
  datatype Gate = Gate(enabled: bool, window: U32, ackValue: U32) {
    predicate Open(count: nat) {
      AckWindow.Admits(enabled, window, ackValue, count)
    }
  }

  /** How many of the chunks go out, from the given byte count on, before a check fails. */
  function Progress(gate: Gate, count: nat, cs: seq<Chunk>): (n: nat)
    ensures n <= |cs|
    decreases |cs|
  {
    if cs == [] || !gate.Open(count) then 0
    else 1 + Progress(gate, count + |cs[0].Encoding()|, cs[1..])
  }

  /** `Progress` is the first check that fails, or all chunks if none does. */
  lemma {:induction false} ProgressIsFirstFailure(gate: Gate, count: nat, cs: seq<Chunk>)
    ensures
      var n := Progress(gate, count, cs);
      && (forall k :: 0 <= k < n ==> gate.Open(count + |Encodings(cs[..k])|))
      && (n < |cs| ==> !gate.Open(count + |Encodings(cs[..n])|))
    decreases |cs|
  {
    hide Chunk.Encoding, Gate.Open;
    if cs != [] && gate.Open(count) {
      var n := Progress(gate, count, cs);
      ProgressIsFirstFailure(gate, count + |cs[0].Encoding()|, cs[1..]);
      hide Encodings;
      forall k | 0 <= k <= |cs|
        ensures |Encodings(cs[..k])| == if k == 0 then 0 else |cs[0].Encoding()| + |Encodings(cs[1..][..k - 1])|
      {
        EncodingsOfPrefix(cs, k);
      }
    }
  }

  lemma EncodingsOfPrefix(cs: seq<Chunk>, k: nat)
    requires cs != [] && k <= |cs|
    ensures |Encodings(cs[..k])| == if k == 0 then 0 else |cs[0].Encoding()| + |Encodings(cs[1..][..k - 1])|
  {
    hide Chunk.Encoding;
    if k > 0 {
      assert cs[..k][1..] == cs[1..][..k - 1];
    }
  }

  // ---------------------------------------------------------------- one message, then several

  /** What the writer has sent and what it remembers of it. */
  datatype Line = Line(out: seq<Byte>, streams: map<Byte, WriterStream>)

  datatype Sending = Sending(line: Line, ok: bool)

  /**
   * Sends a message: all its chunks when every acknowledgement check passes, otherwise those before the first check
   * that fails. The stream's memory moves on as soon as the first chunk is out.
   */
  function Send(gate: Gate, chunkSize: U32, l: Line, m: Message): Sending
    requires chunkSize >= 1 && |m.body| < LIMIT32
  {
    var w := WriterOf(l.streams, m.csid);
    var cs := ChunksOf(w, m, chunkSize);
    var n := Progress(gate, |l.out|, cs);
    Sending(Line(l.out + Encodings(cs[..n]), l.streams[m.csid := if n == 0 then w else Remember(w, m)]), n == |cs|)
  }

  /** Sends messages one after another, up to the first that fails. */
  function SendAll(gate: Gate, chunkSize: U32, l: Line, ms: seq<Message>): Sending
    requires chunkSize >= 1 && forall m :: m in ms ==> |m.body| < LIMIT32
    decreases |ms|
  {
    if ms == [] then Sending(l, true)
    else
      var one := Send(gate, chunkSize, l, ms[0]);
      if one.ok then SendAll(gate, chunkSize, one.line, ms[1..]) else one
  }

  lemma {:induction false} SendOneMore(gate: Gate, chunkSize: U32, l: Line, ms: seq<Message>, m: Message)
    requires chunkSize >= 1 && |m.body| < LIMIT32 && forall m :: m in ms ==> |m.body| < LIMIT32
    ensures
      var all := SendAll(gate, chunkSize, l, ms);
      SendAll(gate, chunkSize, l, ms + [m]) == if all.ok then Send(gate, chunkSize, all.line, m) else all
    decreases |ms|
  {
    hide Send;
    if ms == [] {
      assert ms + [m] == [m] && [m][1..] == [];
      assert SendAll(gate, chunkSize, Send(gate, chunkSize, l, m).line, []).ok;
    } else {
      assert (ms + [m])[1..] == ms[1..] + [m];
      SendOneMore(gate, chunkSize, Send(gate, chunkSize, l, ms[0]).line, ms[1..], m);
    }
  }

  lemma SentWhole(gate: Gate, chunkSize: U32, l: Line, m: Message)
    requires chunkSize >= 1 && |m.body| < LIMIT32 && Send(gate, chunkSize, l, m).ok
    ensures
      var w := WriterOf(l.streams, m.csid);
      Send(gate, chunkSize, l, m).line
      == Line(l.out + Encodings(ChunksOf(w, m, chunkSize)), l.streams[m.csid := Remember(w, m)])
  {
    hide Encodings, Remember, Progress;
    var cs := ChunksOf(WriterOf(l.streams, m.csid), m, chunkSize);
    assert cs[..|cs|] == cs;
  }

  /** A message goes out whole if and only if the gate is open at each of the counts at which it is asked. */
  lemma SentIffOpen(gate: Gate, chunkSize: U32, l: Line, m: Message)
    requires chunkSize >= 1 && |m.body| < LIMIT32
    ensures
      var cs := ChunksOf(WriterOf(l.streams, m.csid), m, chunkSize);
      Send(gate, chunkSize, l, m).ok <==>
        forall k :: 0 <= k < |cs| ==> gate.Open(|l.out| + |Encodings(cs[..k])|)
  {
    hide Encodings, ChunksOf, Gate.Open, Remember, Progress;
    ProgressIsFirstFailure(gate, |l.out|, ChunksOf(WriterOf(l.streams, m.csid), m, chunkSize));
  }

  // ---------------------------------------------------------------- whole connections

  /** The stream table holds, for every chunk stream, the memory of what was sent on it. */
  ghost predicate Remembers(streams: map<Byte, WriterStream>, past: seq<Message>) {
    forall csid: Byte :: WriterOf(streams, csid) == MemoryOf(StreamOf(past, csid))
  }

  /** The bytes of one message after another, each with the table the one before left behind. */
  function WriteRun(streams: map<Byte, WriterStream>, msgs: seq<Message>, chunkSize: U32): seq<Byte>
    requires chunkSize >= 1 && Sendable(msgs)
    decreases |msgs|
  {
    if msgs == [] then []
    else
      var m := msgs[0];
      var w := WriterOf(streams, m.csid);
      Encodings(ChunksOf(w, m, chunkSize)) + WriteRun(streams[m.csid := Remember(w, m)], msgs[1..], chunkSize)
  }

  lemma RemembersMore(streams: map<Byte, WriterStream>, past: seq<Message>, m: Message)
    requires Remembers(streams, past)
    ensures Remembers(streams[m.csid := Remember(WriterOf(streams, m.csid), m)], past + [m])
  {
    hide Remember, StreamOf;
    var next := streams[m.csid := Remember(WriterOf(streams, m.csid), m)];
    forall csid: Byte
      ensures WriterOf(next, csid) == MemoryOf(StreamOf(past + [m], csid))
    {
      StreamOfAppend(past, m, csid);
      assert WriterOf(streams, csid) == MemoryOf(StreamOf(past, csid));
      assert (StreamOf(past, csid) + [m])[..|StreamOf(past, csid)|] == StreamOf(past, csid);
    }
  }

  lemma NothingRemembered()
    ensures Remembers(map[], [])
  {
    forall csid: Byte
      ensures WriterOf(map[], csid) == MemoryOf(StreamOf([], csid))
    {
      assert StreamOf([], csid) == [];
    }
  }

  /** So what the writer object sends is what the law of reading back speaks of. */
  lemma {:induction false} WriteRunIsWritten(streams: map<Byte, WriterStream>, past: seq<Message>,
                                             msgs: seq<Message>, chunkSize: U32)
    requires chunkSize >= 1 && Sendable(msgs) && Remembers(streams, past)
    ensures WriteRun(streams, msgs, chunkSize) == Written(past, msgs, chunkSize)
    decreases |msgs|
  {
    if msgs != [] {
      var m := msgs[0];
      assert WriterOf(streams, m.csid) == MemoryOf(StreamOf(past, m.csid));
      RemembersMore(streams, past, m);
      hide Remembers, Encodings, ChunksOf, Remember, StreamOf, MemoryOf;
      WriteRunIsWritten(streams[m.csid := Remember(WriterOf(streams, m.csid), m)], past + [m], msgs[1..], chunkSize);
    }
  }

  /** From table to table: a fresh reader gets from a fresh writer exactly what can be carried. */
  lemma TablesRoundTrip(msgs: seq<Message>, chunkSize: U32)
    requires chunkSize >= 1 && Sendable(msgs)
    ensures
      ReadAll(map[], chunkSize, WriteRun(map[], msgs, chunkSize)) == Run(msgs, EndOfInput) <==> AllCarried([], msgs)
  {
    NothingRemembered();
    WriteRunIsWritten(map[], [], msgs, chunkSize);
    RoundTrip(msgs, chunkSize);
  }

  class Writer {
    const checkAcknowledge: bool
    var out: seq<Byte>                       // everything handed to the connection
    var chunkSize: U32
    var ackWindowSize: U32
    var ackValue: U32
    var chunkStreams: map<Byte, WriterStream>

    /** `out` is what has been sent on the connection already: the counter counts the handshake, too. */
    constructor (checkAcknowledge: bool, out: seq<Byte>)
      ensures this.checkAcknowledge == checkAcknowledge && this.out == out
      ensures chunkSize == 128 && ackWindowSize == 0 && ackValue == 0 && chunkStreams == map[]
    {
      this.checkAcknowledge, this.out := checkAcknowledge, out;
      chunkSize, ackWindowSize, ackValue, chunkStreams := 128, 0, 0, map[];
    }

    function AckGate(): Gate
      reads this
    {
      Gate(checkAcknowledge, ackWindowSize, ackValue)
    }

    method WriteChunk(c: Chunk) returns (ok: bool)
      modifies this`out
      ensures ok == AckGate().Open(|old(out)|)
      ensures out == if ok then old(out) + c.Encoding() else old(out)
    {
      if checkAcknowledge && ackWindowSize != 0 {
        var diff := Sub32(|out| % LIMIT32, ackValue);
        if diff > ackWindowSize * 3 % LIMIT32 / 2 {
          return false;
        }
      }
      var buf := Marshal(c);
      out := out + buf[..];
      ok := true;
    }

    function Sent(): Line
      reads this
    {
      Line(out, chunkStreams)
    }

    method Write(msg: Message) returns (ok: bool)
      requires chunkSize >= 1 && |msg.body| < LIMIT32
      modifies this`out, this`chunkStreams
      ensures Sending(Sent(), ok) == Send(AckGate(), chunkSize, old(Sent()), msg)
    {
      hide Encodings, ChunksOf, Remember, Progress;
      if msg.csid !in chunkStreams {
        chunkStreams := chunkStreams[msg.csid := NEW_WRITER];
      }
      ok := WriteMessage(msg);
    }

    method WriteMessage(msg: Message) returns (ok: bool)
      requires chunkSize >= 1 && |msg.body| < LIMIT32 && msg.csid in chunkStreams
      modifies this`out, this`chunkStreams
      ensures
        var w := old(chunkStreams)[msg.csid];
        var cs := ChunksOf(w, msg, chunkSize);
        var n := Progress(AckGate(), |old(out)|, cs);
        && ok == (n == |cs|)
        && out == old(out) + Encodings(cs[..n])
        && chunkStreams == old(chunkStreams)[msg.csid := if n == 0 then w else Remember(w, msg)]
    {
      hide Opening, Encodings, Remember, Gate.Open, Chunk.Encoding, Continuations, ChunksOf, Progress;
      var wc := chunkStreams[msg.csid];
      ghost var cs := ChunksOf(wc, msg, chunkSize);
      ghost var n := 0;
      var bodyLen := |msg.body|;
      var pos := 0;
      var firstChunk := true;
      NothingEncoded(cs);
      while true
        invariant 0 <= n < |cs| && 0 <= pos <= bodyLen
        invariant firstChunk <==> n == 0
        invariant firstChunk ==> pos == 0 && chunkStreams == old(chunkStreams)
        invariant !firstChunk ==>
          && pos < bodyLen && cs[n..] == Continuations(msg.csid, msg.body[pos..], chunkSize)
          && chunkStreams == old(chunkStreams)[msg.csid := Remember(wc, msg)]
        invariant out == old(out) + Encodings(cs[..n])
        invariant Progress(AckGate(), |old(out)|, cs) == n + Progress(AckGate(), |out|, cs[n..])
        decreases |cs| - n
      {
        var chunkBodyLen := bodyLen - pos;
        if chunkBodyLen > chunkSize {
          chunkBodyLen := chunkSize;
        }
        var c;
        if firstChunk {
          c := Opening(wc, msg, chunkSize);
        } else {
          c := Chunk3(msg.csid, msg.body[pos..pos + chunkBodyLen]);
        }
        NextChunk(wc, msg, cs, n, pos, chunkBodyLen);
        ProgressStep(AckGate(), |out|, cs, n);
        var sent := WriteChunk(c);
        if !sent {
          return false;
        }
        EncodingsTake(cs, n);
        assert out == old(out) + (Encodings(cs[..n]) + c.Encoding());
        if firstChunk {
          firstChunk := false;
          chunkStreams := chunkStreams[msg.csid := Remember(wc, msg)];
        }
        pos := pos + chunkBodyLen;
        n := n + 1;
        if bodyLen - pos == 0 {
          return true;
        }
      }
    }

    lemma ProgressStep(gate: Gate, count: nat, cs: seq<Chunk>, n: nat)
      requires n < |cs|
      ensures Progress(gate, count, cs[n..])
           == if gate.Open(count) then 1 + Progress(gate, count + |cs[n].Encoding()|, cs[n + 1..]) else 0
      ensures n + 1 == |cs| ==> cs[..n + 1] == cs && Progress(gate, count + |cs[n].Encoding()|, cs[n + 1..]) == 0
    {
      assert cs[n..][0] == cs[n] && cs[n..][1..] == cs[n + 1..];
    }

    lemma NothingEncoded(cs: seq<Chunk>)
      ensures Encodings(cs[..0]) == [] && cs[0..] == cs
    {
    }

    /** The chunk the loop builds is the next one of the message, and what follows it carries the rest of the body. */
    lemma NextChunk(wc: WriterStream, msg: Message, cs: seq<Chunk>, n: nat, pos: nat, len: nat)
      requires chunkSize >= 1 && |msg.body| < LIMIT32 && cs == ChunksOf(wc, msg, chunkSize) && n < |cs|
      requires pos <= |msg.body| && len == Min(|msg.body| - pos, chunkSize)
      requires n == 0 ==> pos == 0
      requires n > 0 ==> pos < |msg.body| && cs[n..] == Continuations(msg.csid, msg.body[pos..], chunkSize)
      ensures cs[n] == if n == 0 then Opening(wc, msg, chunkSize) else Chunk3(msg.csid, msg.body[pos..pos + len])
      ensures n + 1 < |cs| <==> pos + len < |msg.body|
      ensures cs[n + 1..] == Continuations(msg.csid, msg.body[pos + len..], chunkSize)
    {
      hide Opening;
      if n == 0 {
        assert cs[1..] == Continuations(msg.csid, msg.body[len..], chunkSize);
      } else {
        assert msg.body[pos..][..len] == msg.body[pos..pos + len];
        assert msg.body[pos..][len..] == msg.body[pos + len..];
        var rest := Continuations(msg.csid, msg.body[pos + len..], chunkSize);
        assert cs[n..] == [Chunk3(msg.csid, msg.body[pos..pos + len])] + rest;
        assert cs[n..][1..] == rest;
      }
    }

    method SetChunkSize(v: U32)
      modifies this`chunkSize
      ensures chunkSize == v
    {
      chunkSize := v;
    }

    method SetWindowAckSize(v: U32)
      modifies this`ackWindowSize
      ensures ackWindowSize == v
    {
      ackWindowSize := v;
    }

    method SetAcknowledgeValue(v: U32)
      modifies this`ackValue
      ensures ackValue == v
    {
      ackValue := v;
    }
  }
}
