/** The raw message reader (internal/rtmp/rawmessage/reader.go). */
module RawReader {
  import opened Bytes
  import opened Chunk
  import opened RawMessage
  import AckWindow

  datatype Step = Got(msg: Message) | More | Error(error: ReadError)

  class Reader {
    const input: Input
    var chunkSize: U32
    var ackWindowSize: U32
    var lastAckCount: U32
    var acks: seq<U32>                       // the counts passed to the acknowledgement callback
    var chunkStreams: Streams
    var c0: Chunk                            // scratch chunks, shared by all chunk streams
    var c1: Chunk
    var c2: Chunk
    var c3: Chunk

    ghost predicate Valid()
      reads this, input
    {
      input.Valid()
    }

    function AckState(): AckWindow.Receiver
      reads this
    {
      AckWindow.Receiver(ackWindowSize, lastAckCount, acks)
    }

    constructor (input: Input)
      requires input.Valid()
      ensures Valid() && this.input == input
      ensures chunkSize == 128 && chunkStreams == map[] && AckState() == AckWindow.Receiver(0, 0, [])
    {
      this.input := input;
      chunkSize, ackWindowSize, lastAckCount, acks := 128, 0, 0, [];
      chunkStreams := map[];
      c0, c1, c2, c3 := Chunk3(0, []), Chunk3(0, []), Chunk3(0, []), Chunk3(0, []);
    }

    /** Reads a chunk, then reports the byte count if a window has passed since the last mark. */
    method ReadChunk(format: nat, limit: U32) returns (c: Option<Chunk>)
      requires Valid() && format < 4
      modifies this`lastAckCount, this`acks, input`pos
      ensures Valid()
      ensures c == Parse(format, limit, old(input.Rest()))
      ensures c.Some? ==>
        && input.pos == old(input.pos) + |c.value.Encoding()|
        && input.Rest() == old(input.Rest())[|c.value.Encoding()|..]
        && AckState() == AckWindow.Check(old(AckState()), input.pos)
      ensures c.None? ==> AckState() == old(AckState())
    {
      c := input.ReadChunk(format, limit);
      if c.None? {
        return;
      }
      if ackWindowSize != 0 {
        var count := input.pos % LIMIT32;
        var diff := Sub32(count, lastAckCount);
        if diff > ackWindowSize {
          acks := acks + [count];
          lastAckCount := Add32(lastAckCount, ackWindowSize);
        }
      }
    }

    /** What one chunk did to the stream table and the input, told by the specification. */
    ghost predicate Did(before: Streams, rest: seq<Byte>, csid: Byte, format: nat, step: Step)
      requires Valid() && format < 4
      reads this, input
    {
      match RawMessage.ReadChunk(ReaderOf(before, csid), csid, format, chunkSize, rest)
      case Failed(e) => step == Error(e)
      case Delivered(r, m, n) => step == Got(m) && chunkStreams == before[csid := r] && input.Rest() == rest[n..]
      case MoreNeeded(r, n) => step == More && chunkStreams == before[csid := r] && input.Rest() == rest[n..]
    }

    /** The acknowledgement was checked once, at the new position, unless reading failed. */
    ghost predicate Checked(before: AckWindow.Receiver, step: Step)
      reads this, input
    {
      AckState() == if step.Error? then before else AckWindow.Check(before, input.pos)
    }

    lemma ParsedBodyHere(format: nat, limit: U32)
      requires Valid() && format < 4
      ensures
        var c := Parse(format, limit, input.Rest());
        c.Some? ==> |c.value.body| == if format < 2 then Min(c.value.MessageLen(), limit) else limit
    {
      if Parse(format, limit, input.Rest()).Some? {
        ParsedBody(format, limit, input.Rest());
      }
    }

    method ReadForm0(csid: Byte) returns (step: Step)
      requires Valid()
      modifies this`lastAckCount, this`acks, this`chunkStreams, this`c0, input`pos
      ensures Valid()
      ensures Did(old(chunkStreams), old(input.Rest()), csid, 0, step)
      ensures Checked(old(AckState()), step)
    {
      hide Parse, Chunk.Encoding, AckWindow.Check;
      var rc := ReaderOf(chunkStreams, csid);
      if rc.body.Some? {
        return Error(UnexpectedChunk(0));
      }
      ParsedBodyHere(0, chunkSize);
      var c := ReadChunk(0, chunkSize);
      if c.None? {
        return Error(EndOfInput);
      }
      c0 := c.value;
      rc := ReaderMemory(Some(c0.timestamp), Some(c0.typ), Some(c0.msid), Some(c0.bodyLen), None, None);
      step := Complete(csid, rc, c0.body);
    }

    method ReadForm1(csid: Byte) returns (step: Step)
      requires Valid()
      modifies this`lastAckCount, this`acks, this`chunkStreams, this`c1, input`pos
      ensures Valid()
      ensures Did(old(chunkStreams), old(input.Rest()), csid, 1, step)
      ensures Checked(old(AckState()), step)
    {
      hide Parse, Chunk.Encoding, AckWindow.Check;
      var rc := ReaderOf(chunkStreams, csid);
      if rc.timestamp.None? {
        return Error(NoPreviousChunk(1));
      }
      if rc.body.Some? {
        return Error(UnexpectedChunk(1));
      }
      ParsedBodyHere(1, chunkSize);
      var c := ReadChunk(1, chunkSize);
      if c.None? {
        return Error(EndOfInput);
      }
      c1 := c.value;
      rc := rc.(timestamp := Some(Add32(rc.timestamp.value, c1.delta)), typ := Some(c1.typ),
                bodyLen := Some(c1.bodyLen), delta := Some(c1.delta));
      step := Complete(csid, rc, c1.body);
    }

    method ReadForm2(csid: Byte) returns (step: Step)
      requires Valid()
      modifies this`lastAckCount, this`acks, this`chunkStreams, this`c2, input`pos
      ensures Valid()
      ensures Did(old(chunkStreams), old(input.Rest()), csid, 2, step)
      ensures Checked(old(AckState()), step)
    {
      hide Parse, Chunk.Encoding, AckWindow.Check;
      var rc := ReaderOf(chunkStreams, csid);
      if rc.timestamp.None? {
        return Error(NoPreviousChunk(2));
      }
      if rc.body.Some? {
        return Error(UnexpectedChunk(2));
      }
      var limit := Min(rc.bodyLen.value, chunkSize);
      ParsedBodyHere(2, limit);
      var c := ReadChunk(2, limit);
      if c.None? {
        return Error(EndOfInput);
      }
      c2 := c.value;
      rc := rc.(timestamp := Some(Add32(rc.timestamp.value, c2.delta)), delta := Some(c2.delta));
      step := Complete(csid, rc, c2.body);
    }

    method ReadForm3(csid: Byte) returns (step: Step)
      requires Valid()
      modifies this`lastAckCount, this`acks, this`chunkStreams, this`c3, input`pos
      ensures Valid()
      ensures Did(old(chunkStreams), old(input.Rest()), csid, 3, step)
      ensures Checked(old(AckState()), step)
    {
      hide Parse, Chunk.Encoding, AckWindow.Check;
      var rc := ReaderOf(chunkStreams, csid);
      if rc.body.None? && rc.delta.None? {
        return Error(NoPreviousChunk(3));
      }
      if rc.body.Some? {
        var limit := Min(rc.bodyLen.value - |rc.body.value|, chunkSize);
        ParsedBodyHere(3, limit);
        var c := ReadChunk(3, limit);
        if c.None? {
          return Error(EndOfInput);
        }
        c3 := c.value;
        step := Complete(csid, rc, rc.body.value + c3.body);
      } else {
        var limit := Min(rc.bodyLen.value, chunkSize);
        ParsedBodyHere(3, limit);
        var c := ReadChunk(3, limit);
        if c.None? {
          return Error(EndOfInput);
        }
        c3 := c.value;
        rc := rc.(timestamp := Some(Add32(rc.timestamp.value, rc.delta.value)));
        step := Complete(csid, rc, c3.body);
      }
    }

    /** One chunk of a known stream and form. */
    method ReadMessage(csid: Byte, format: nat) returns (step: Step)
      requires Valid() && format < 4
      modifies this`lastAckCount, this`acks, this`chunkStreams, this`c0, this`c1, this`c2, this`c3, input`pos
      ensures Valid()
      ensures Did(old(chunkStreams), old(input.Rest()), csid, format, step)
      ensures Checked(old(AckState()), step)
    {
      match format
      case 0 => step := ReadForm0(csid);
      case 1 => step := ReadForm1(csid);
      case 2 => step := ReadForm2(csid);
      case _ => step := ReadForm3(csid);
    }

    /** Stores the stream's memory and delivers the message if its body is complete. */
    method Complete(csid: Byte, rc: ReaderStream, body: seq<Byte>) returns (step: Step)
      requires rc.timestamp.Some? && |body| <= rc.bodyLen.value
      modifies this`chunkStreams
      ensures
        match Finish(rc, csid, body, 1)
        case Delivered(r, m, _) => step == Got(m) && chunkStreams == old(chunkStreams)[csid := r]
        case MoreNeeded(r, _) => step == More && chunkStreams == old(chunkStreams)[csid := r]
        case Failed(_) => false
    {
      if rc.bodyLen.value != |body| {
        chunkStreams := chunkStreams[csid := rc.(body := Some(body))];
        return More;
      }
      chunkStreams := chunkStreams[csid := rc.(body := None)];
      step := Got(Message(csid, rc.timestamp.value * MILLISECOND, rc.typ.value, rc.msid.value, body));
    }

    /** The whole call's outcome and the acknowledgement state at its end, given what is left to do. */
    ghost predicate Remaining(whole: ReadOutcome, consumed: nat, end: AckWindow.Receiver)
      requires Valid()
      reads this, input
    {
      && (match ReadOne(chunkStreams, chunkSize, input.Rest())
          case Broken(e) => whole == Broken(e)
          case Received(s, m, n) => whole == Received(s, m, consumed + n))
      && end == AckWindow.Checks(AckState(), CheckPositions(chunkStreams, chunkSize, input.Rest(), input.pos))
    }

    /**
     * Reads a message: chunks of any streams until one completes a message. The outcome, the stream table and the
     * bytes consumed are those of the specification, and the acknowledgement is checked at the end of every chunk.
     */
    method Read() returns (step: Step)
      requires Valid()
      modifies this`lastAckCount, this`acks, this`chunkStreams, this`c0, this`c1, this`c2, this`c3, input`pos
      ensures Valid()
      ensures
        match ReadOne(old(chunkStreams), chunkSize, old(input.Rest()))
        case Broken(e) => step == Error(e)
        case Received(s, m, n) => step == Got(m) && chunkStreams == s && input.pos == old(input.pos) + n
      ensures
        var positions := CheckPositions(old(chunkStreams), chunkSize, old(input.Rest()), old(input.pos));
        AckState() == AckWindow.Checks(old(AckState()), positions)
    {
      hide ReadOne, CheckPositions, RawMessage.ReadChunk, AckWindow.Check, AckWindow.Checks;
      ghost var whole := ReadOne(chunkStreams, chunkSize, input.Rest());
      ghost var end := AckWindow.Checks(AckState(), CheckPositions(chunkStreams, chunkSize, input.Rest(), input.pos));
      ghost var start := input.pos;
      while true
        invariant Valid() && start <= input.pos
        invariant Remaining(whole, input.pos - start, end)
        decreases |input.data| - input.pos
      {
        if input.pos == |input.data| {
          EmptyInput(chunkStreams, AckState());
          return Error(EndOfInput);
        }
        ghost var streams, rest, state := chunkStreams, input.Rest(), AckState();
        var byt := input.data[input.pos];
        var typ := byt as int / 64;
        var csid := byt as int % 64;
        if csid !in chunkStreams {
          chunkStreams := chunkStreams[csid := NEW_READER];
        }
        ghost var at := input.pos;
        step := ReadMessage(csid, typ);
        SameStreams(streams, csid, typ, rest, step);
        ReadOneUnrolled(streams, chunkSize, rest);
        ChecksUnrolled(streams, rest, at, state);
        if !step.More? {
          return;
        }
      }
    }

    method SetChunkSize(v: U32)
      modifies this`chunkSize
      ensures chunkSize == v
    {
      chunkSize := v;
    }

    method SetWindowAckSize(v: U32)
      modifies this`ackWindowSize
      ensures ackWindowSize == v
    {
      ackWindowSize := v;
    }

    lemma EmptyInput(streams: Streams, state: AckWindow.Receiver)
      ensures ReadOne(streams, chunkSize, []) == Broken(EndOfInput)
      ensures AckWindow.Checks(state, CheckPositions(streams, chunkSize, [], input.pos)) == state
    {
    }

    /** The checks of a message are the one after its next chunk and those of what is left. */
    lemma ChecksUnrolled(streams: Streams, rest: seq<Byte>, at: nat, state: AckWindow.Receiver)
      requires rest != []
      ensures
        var o := NextChunk(streams, chunkSize, rest);
        AckWindow.Checks(state, CheckPositions(streams, chunkSize, rest, at))
        == if o.Failed? then state
           else if o.Delivered? then AckWindow.Check(state, at + o.used)
           else
             var s := streams[StreamId(rest) := o.stream];
             AckWindow.Checks(AckWindow.Check(state, at + o.used),
                              CheckPositions(s, chunkSize, rest[o.used..], at + o.used))
    {
      hide CheckPositions, NextChunk, AckWindow.Check, AckWindow.Checks;
      CheckPositionsUnrolled(streams, chunkSize, rest, at);
      var o := NextChunk(streams, chunkSize, rest);
      AckWindow.ChecksFirst(state, []);
      if o.MoreNeeded? {
        var more := CheckPositions(streams[StreamId(rest) := o.stream], chunkSize, rest[o.used..], at + o.used);
        AckWindow.ChecksFirst(state, [at + o.used] + more);
        assert ([at + o.used] + more)[1..] == more;
      } else if o.Delivered? {
        AckWindow.ChecksFirst(state, [at + o.used]);
        assert [at + o.used][1..] == [];
        AckWindow.ChecksFirst(AckWindow.Check(state, at + o.used), []);
      }
    }

    /** Adding an empty memory for a new stream changes nothing. */
    lemma SameStreams(streams: Streams, csid: Byte, format: nat, rest: seq<Byte>, step: Step)
      requires Valid() && format < 4
      requires Did(if csid in streams then streams else streams[csid := NEW_READER], rest, csid, format, step)
      ensures Did(streams, rest, csid, format, step)
    {
      hide RawMessage.ReadChunk;
      var o := RawMessage.ReadChunk(ReaderOf(streams, csid), csid, format, chunkSize, rest);
      if !o.Failed? {
        assert streams[csid := NEW_READER][csid := o.stream] == streams[csid := o.stream];
      }
    }
  }
}
