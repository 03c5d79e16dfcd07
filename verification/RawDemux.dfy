/** Chunk streams sharing a connection do not disturb each other. */
module RawDemux {
  import opened Bytes
  import opened Chunk
  import opened RawMessage
  import opened RawRoundTrip

  /** The bytes of one chunk. */
  type Wire = c: seq<Byte> | c != [] witness [0]

  function Concat(cs: seq<Wire>): seq<Byte> {
    if cs == [] then [] else cs[0] + Concat(cs[1..])
  }

  /** The chunks of one stream, in order. */
  function ChunksFor(cs: seq<Wire>, csid: Byte): seq<Wire>
  {
    if cs == [] then []
    else
      var rest := ChunksFor(cs[1..], csid);
      if StreamId(cs[0]) == csid then [cs[0]] + rest else rest
  }

  /** One chunk string of one stream: what reading it, and nothing else, gives. */
  function ReadAlone(r: ReaderStream, chunkSize: U32, c: Wire): ChunkOutcome
  {
    ReadChunk(r, StreamId(c), c[0] as int / 64, chunkSize, c)
  }

  /** A stream's chunk strings are each a whole chunk that the reader accepts in its turn. */
  predicate WellFormed(r: ReaderStream, chunkSize: U32, cs: seq<Wire>)
    decreases |cs|
  {
    cs == [] ||
    (var o := ReadAlone(r, chunkSize, cs[0]);
     !o.Failed? && o.used == |cs[0]| && WellFormed(o.stream, chunkSize, cs[1..]))
  }

  /** The messages those chunk strings complete. */
  function Messages(r: ReaderStream, chunkSize: U32, cs: seq<Wire>): seq<Message>
    requires WellFormed(r, chunkSize, cs)
    decreases |cs|
  {
    if cs == [] then []
    else
      var o := ReadAlone(r, chunkSize, cs[0]);
      (if o.Delivered? then [o.msg] else []) + Messages(o.stream, chunkSize, cs[1..])
  }

  /** Reading on after one chunk, whether or not it completed a message. */
  lemma ReadAllStep(streams: Streams, chunkSize: U32, input: Wire)
    requires !NextChunk(streams, chunkSize, input).Failed?
    ensures
      var o := NextChunk(streams, chunkSize, input);
      var rest := ReadAll(streams[StreamId(input) := o.stream], chunkSize, input[o.used..]);
      ReadAll(streams, chunkSize, input) == Run((if o.Delivered? then [o.msg] else []) + rest.msgs, rest.error)
  {
    hide NextChunk;
    var o := NextChunk(streams, chunkSize, input);
    if o.MoreNeeded? {
      var s := streams[StreamId(input) := o.stream];
      var more := ReadOne(s, chunkSize, input[o.used..]);
      if more.Received? {
        assert input[o.used..][more.used..] == input[o.used + more.used..];
      }
    }
  }

  lemma FirstChunk(streams: Streams, chunkSize: U32, c: Wire, rest: seq<Byte>)
    requires
      var o := ReadAlone(ReaderOf(streams, StreamId(c)), chunkSize, c);
      !o.Failed? && o.used == |c|
    ensures
      var o := ReadAlone(ReaderOf(streams, StreamId(c)), chunkSize, c);
      var more := ReadAll(streams[StreamId(c) := o.stream], chunkSize, rest);
      ReadAll(streams, chunkSize, c + rest) == Run((if o.Delivered? then [o.msg] else []) + more.msgs, more.error)
  {
    NextChunkIgnoresRest(streams, chunkSize, c, rest);
    hide ReadAll, NextChunk;
    assert StreamId(c + rest) == StreamId(c);
    assert (c + rest)[|c|..] == rest;
    ReadAllStep(streams, chunkSize, c + rest);
    OwnOutcome(streams, chunkSize, c);
  }

  lemma OwnOutcome(streams: Streams, chunkSize: U32, c: Wire)
    ensures NextChunk(streams, chunkSize, c) == ReadAlone(ReaderOf(streams, StreamId(c)), chunkSize, c)
    ensures
      var o := NextChunk(streams, chunkSize, c);
      o.Delivered? ==> o.msg.csid == StreamId(c)
  {
  }

  /** The chunk strings of one stream read on their own. */
  lemma {:induction false} SingleStream(streams: Streams, csid: Byte, chunkSize: U32, cs: seq<Wire>)
    requires ChunksFor(cs, csid) == cs
    requires WellFormed(ReaderOf(streams, csid), chunkSize, cs)
    ensures ReadAll(streams, chunkSize, Concat(cs)) == Run(Messages(ReaderOf(streams, csid), chunkSize, cs), EndOfInput)
    decreases |cs|
  {
    if cs != [] {
      OwnChunks(cs, csid);
      hide ReadAll, ReadAlone;
      var o := ReadAlone(ReaderOf(streams, csid), chunkSize, cs[0]);
      FirstChunk(streams, chunkSize, cs[0], Concat(cs[1..]));
      SingleStream(streams[csid := o.stream], csid, chunkSize, cs[1..]);
    }
  }

  lemma OwnChunks(cs: seq<Wire>, csid: Byte)
    requires cs != [] && ChunksFor(cs, csid) == cs
    ensures StreamId(cs[0]) == csid && ChunksFor(cs[1..], csid) == cs[1..]
  {
    ChunksForShorter(cs[1..], csid);
    assert ([cs[0]] + ChunksFor(cs[1..], csid))[1..] == ChunksFor(cs[1..], csid);
  }

  lemma {:induction false} ChunksForShorter(cs: seq<Wire>, csid: Byte)
    ensures |ChunksFor(cs, csid)| <= |cs|
  {
    if cs != [] {
      ChunksForShorter(cs[1..], csid);
    }
  }

  lemma {:induction false} OwnChunksOnly(cs: seq<Wire>, csid: Byte)
    ensures ChunksFor(ChunksFor(cs, csid), csid) == ChunksFor(cs, csid)
  {
    if cs != [] {
      OwnChunksOnly(cs[1..], csid);
      var own := ChunksFor(cs[1..], csid);
      if StreamId(cs[0]) == csid {
        assert ([cs[0]] + own)[1..] == own;
      }
    }
  }

  lemma {:induction false} StreamOfFirst(m: Message, msgs: seq<Message>, csid: Byte)
    ensures StreamOf([m] + msgs, csid) == (if m.csid == csid then [m] else []) + StreamOf(msgs, csid)
    decreases |msgs|
  {
    if msgs == [] {
      assert [m] + msgs == [] + [m];
      StreamOfAppend([], m, csid);
    } else {
      var shorter := msgs[..|msgs| - 1];
      StreamOfFirst(m, shorter, csid);
      assert [m] + msgs == ([m] + shorter) + [Last(msgs)];
      StreamOfAppend([m] + shorter, Last(msgs), csid);
      assert msgs == shorter + [Last(msgs)];
      StreamOfAppend(shorter, Last(msgs), csid);
    }
  }

  /** Every stream of an interleaving is well formed by itself. */
  ghost predicate EachWellFormed(streams: Streams, chunkSize: U32, cs: seq<Wire>)
  {
    forall csid: Byte :: csid < 64 ==> WellFormed(ReaderOf(streams, csid), chunkSize, ChunksFor(cs, csid))
  }

  /** The first chunk of an interleaving leaves every stream well formed, and only its own stream moves on. */
  lemma FirstOfMany(streams: Streams, chunkSize: U32, cs: seq<Wire>, csid: Byte)
    requires cs != [] && EachWellFormed(streams, chunkSize, cs) && csid < 64
    ensures
      var id := StreamId(cs[0]);
      var o := ReadAlone(ReaderOf(streams, id), chunkSize, cs[0]);
      && !o.Failed? && o.used == |cs[0]|
      && var r := ReaderOf(streams[id := o.stream], csid);
         && WellFormed(r, chunkSize, ChunksFor(cs[1..], csid))
         && Messages(ReaderOf(streams, csid), chunkSize, ChunksFor(cs, csid))
            == (if o.Delivered? && id == csid then [o.msg] else []) + Messages(r, chunkSize, ChunksFor(cs[1..], csid))
  {
    hide ReadAlone, WellFormed, Messages;
    var c, rest := cs[0], cs[1..];
    var id := StreamId(c);
    assert WellFormed(ReaderOf(streams, id), chunkSize, ChunksFor(cs, id));
    assert WellFormed(ReaderOf(streams, csid), chunkSize, ChunksFor(cs, csid));
    FirstOfOne(ReaderOf(streams, id), chunkSize, c, ChunksFor(rest, id));
  }

  lemma FirstOfOne(r: ReaderStream, chunkSize: U32, c: Wire, more: seq<Wire>)
    requires WellFormed(r, chunkSize, [c] + more)
    ensures
      var o := ReadAlone(r, chunkSize, c);
      && !o.Failed? && o.used == |c| && WellFormed(o.stream, chunkSize, more)
      && Messages(r, chunkSize, [c] + more)
         == (if o.Delivered? then [o.msg] else []) + Messages(o.stream, chunkSize, more)
  {
    hide ReadAlone;
    assert ([c] + more)[1..] == more;
  }

  /** The connection as a whole delivers, for each stream, what that stream's chunks complete. */
  lemma {:induction false} Interleaved(streams: Streams, chunkSize: U32, cs: seq<Wire>, csid: Byte)
    requires EachWellFormed(streams, chunkSize, cs) && csid < 64
    ensures
      var run := ReadAll(streams, chunkSize, Concat(cs));
      && run.error == EndOfInput
      && StreamOf(run.msgs, csid) == Messages(ReaderOf(streams, csid), chunkSize, ChunksFor(cs, csid))
    decreases |cs|
  {
    if cs == [] {
      return;
    }
    hide ReadAlone, ReadAll, StreamOf, ChunksFor, Messages, WellFormed;
    var c, rest := cs[0], cs[1..];
    var id := StreamId(c);
    FirstOfMany(streams, chunkSize, cs, csid);
    var o := ReadAlone(ReaderOf(streams, id), chunkSize, c);
    var s := streams[id := o.stream];
    FirstChunk(streams, chunkSize, c, Concat(rest));
    OwnOutcome(streams, chunkSize, c);
    forall other: Byte | other < 64
      ensures WellFormed(ReaderOf(s, other), chunkSize, ChunksFor(rest, other))
    {
      FirstOfMany(streams, chunkSize, cs, other);
    }
    Interleaved(s, chunkSize, rest, csid);
    var later := ReadAll(s, chunkSize, Concat(rest)).msgs;
    if o.Delivered? {
      StreamOfFirst(o.msg, later, csid);
    } else {
      assert [] + later == later;
    }
  }

  /**
   * Demultiplexing is free of interference: for any interleaving, at chunk boundaries, of well-formed streams, the
   * messages delivered for one stream are those that stream's chunks deliver on a connection of their own.
   */
  lemma NonInterference(chunkSize: U32, cs: seq<Wire>, csid: Byte)
    requires csid < 64
    requires EachWellFormed(map[], chunkSize, cs)
    ensures
      var together := ReadAll(map[], chunkSize, Concat(cs));
      var alone := ReadAll(map[], chunkSize, Concat(ChunksFor(cs, csid)));
      && StreamOf(together.msgs, csid) == alone.msgs
      && together.error == alone.error == EndOfInput
  {
    hide ReadAll, StreamOf;
    Interleaved(map[], chunkSize, cs, csid);
    OwnChunksOnly(cs, csid);
    SingleStream(map[], csid, chunkSize, ChunksFor(cs, csid));
  }
}
