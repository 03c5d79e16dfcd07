/** Chunks byte by byte: what the writer puts on the wire, and what the reader makes of any bytes (internal/rtmp). */
module ChunkWire {
  import opened Bytes
  import opened Chunk
  import opened RawMessage
  import opened RawRoundTrip

  function Number24(b: seq<Byte>, at: nat): int
    requires at + 3 <= |b|
  {
    65536 * (b[at] as int) + 256 * (b[at + 1] as int) + b[at + 2]
  }

  function Number32(b: seq<Byte>, at: nat): int
    requires at + 4 <= |b|
  {
    16777216 * (b[at] as int) + 65536 * (b[at + 1] as int) + 256 * (b[at + 2] as int) + b[at + 3]
  }

  // ---------------------------------------------------------------- what is written

  /** The bytes of each of the four forms. */
  lemma EncodingBytes(c: Chunk)
    requires c.csid < 64
    ensures
      var e := c.Encoding();
      match c
      case Chunk0(csid, t, typ, msid, n, body) =>
        && |e| >= 12 && e[0] == csid && Number24(e, 1) == t % 16777216 && Number24(e, 4) == n % 16777216
        && e[7] == typ && Number32(e, 8) == msid && e[12..] == body
      case Chunk1(csid, d, typ, n, body) =>
        && |e| >= 8 && e[0] == 64 + csid && Number24(e, 1) == d % 16777216 && Number24(e, 4) == n % 16777216
        && e[7] == typ && e[8..] == body
      case Chunk2(csid, d, body) =>
        |e| >= 4 && e[0] == 128 + csid && Number24(e, 1) == d % 16777216 && e[4..] == body
      case Chunk3(csid, body) => |e| >= 1 && e[0] == 192 + csid && e[1..] == body
  {
    FirstByteSplits(c);
    HeaderFields(c);
    HeaderValues(c);
    hide Chunk.Header, Chunk.FirstByte, Be24, Be32;
    var e, h := c.Encoding(), c.Header();
    assert e[..|h|] == h && e[|h|..] == c.body;
  }

  /** The chunk that opens a message, contents and all, told from the messages sent before on its chunk stream. */
  lemma OpeningContents(h: seq<Message>, m: Message, chunkSize: U32)
    requires |m.body| < LIMIT24
    ensures
      var c := Opening(MemoryOf(h), m, chunkSize);
      var body := m.body[..Min(|m.body|, chunkSize)];
      if Restarts(h, m) then c == Chunk0(m.csid, Millis(m.timestamp), m.typ, m.msid, |m.body|, body)
      else
        var step := Millis(SubDuration(m.timestamp, Last(h).timestamp));
        if m.typ != Last(h).typ || |m.body| != |Last(h).body| then c == Chunk1(m.csid, step, m.typ, |m.body|, body)
        else if Repeats(h, m) then c == Chunk3(m.csid, body)
        else c == Chunk2(m.csid, step, body)
  {
    MemoryIsLatest(h);
    hide SubDuration, Millis;
  }

  /** A whole number of milliseconds is what is counted in. */
  lemma MillisIs(n: nat, rest: nat)
    requires n * 1_000_000 + rest < 0x8000_0000_0000_0000 && rest < 1_000_000
    ensures Millis(n * 1_000_000 + rest) == n % 0x1_0000_0000
  {
  }

  /** Every chunk but the last of a message is full, none is overfull, and all but the first have one-byte headers. */
  lemma {:induction false} PiecesAreFull(csid: Byte, body: seq<Byte>, chunkSize: U32, k: nat)
    requires chunkSize >= 1 && k < |Continuations(csid, body, chunkSize)|
    ensures
      var cs := Continuations(csid, body, chunkSize);
      && cs[k].Chunk3? && cs[k].csid == csid && 0 < |cs[k].body| <= chunkSize
      && (k + 1 < |cs| ==> |cs[k].body| == chunkSize)
    decreases |body|
  {
    var n := Min(|body|, chunkSize);
    if k > 0 {
      PiecesAreFull(csid, body[n..], chunkSize, k - 1);
    } else if body[n..] == [] {
      assert Continuations(csid, body[n..], chunkSize) == [];
    }
  }

  lemma ChunksAreFull(w: WriterStream, m: Message, chunkSize: U32, k: nat)
    requires chunkSize >= 1 && |m.body| < LIMIT32 && k < |ChunksOf(w, m, chunkSize)|
    ensures
      var cs := ChunksOf(w, m, chunkSize);
      && cs[k].csid == m.csid && (k > 0 ==> cs[k].Chunk3?)
      && |cs[k].body| <= chunkSize && (k + 1 < |cs| ==> |cs[k].body| == chunkSize)
  {
    var first := Opening(w, m, chunkSize);
    var left := m.body[|first.body|..];
    if k > 0 {
      PiecesAreFull(m.csid, left, chunkSize, k - 1);
    } else if left == [] {
      assert Continuations(m.csid, left, chunkSize) == [];
    }
  }

  // ---------------------------------------------------------------- what is read

  /** How long a header is, by the two top bits of its first byte. */
  function HeaderSize(first: Byte): nat {
    if first < 64 then 12 else if first < 128 then 8 else if first < 192 then 4 else 1
  }

  /**
   * Why the next chunk is refused before it is read, for any bytes: a message is under way on its stream and this is
   * not its next piece; or the header leaves out what no chunk before has told.
   */
  predicate UnderWay(r: ReaderStream, first: Byte) {
    first < 192 && r.body.Some?
  }

  predicate Unheard(r: ReaderStream, first: Byte) {
    (64 <= first < 192 && r.timestamp.None?) || (first >= 192 && r.body.None? && r.delta.None?)
  }

  lemma RefusalIff(streams: Streams, chunkSize: U32, input: seq<Byte>)
    requires input != []
    ensures
      var r, first := ReaderOf(streams, input[0] as int % 64), input[0];
      var o := NextChunk(streams, chunkSize, input);
      && (UnderWay(r, first) <==> o == Failed(UnexpectedChunk(first as int / 64)))
      && (Unheard(r, first) <==> o == Failed(NoPreviousChunk(first as int / 64)))
      && (o.Failed? ==> UnderWay(r, first) || Unheard(r, first) || o.error == EndOfInput)
  {
    hide Parse, ApplyHeader;
  }

  /** The length of the message the next chunk belongs to, and how much of it this chunk brings. */
  function LengthOf(r: ReaderStream, input: seq<Byte>): nat
    requires input != [] && |input| >= HeaderSize(input[0]) && !Unheard(r, input[0])
  {
    if input[0] < 128 then Number24(input, 4) else r.bodyLen.value
  }

  function PieceOf(r: ReaderStream, chunkSize: U32, input: seq<Byte>): nat
    requires input != [] && |input| >= HeaderSize(input[0]) && !Unheard(r, input[0]) && !UnderWay(r, input[0])
  {
    Min(LengthOf(r, input) - (if r.body.Some? then |r.body.value| else 0), chunkSize)
  }

  /** The time, in milliseconds, of that message. */
  function TimeOf(r: ReaderStream, input: seq<Byte>): int
    requires input != [] && |input| >= HeaderSize(input[0]) && !Unheard(r, input[0])
  {
    if input[0] < 64 then Number24(input, 1)
    else if input[0] < 192 then (r.timestamp.value + Number24(input, 1)) % 0x1_0000_0000
    else if r.body.Some? then r.timestamp.value
    else (r.timestamp.value + r.delta.value) % 0x1_0000_0000
  }

  /** What the reader knows of the chunk stream after the chunk, but for the body. */
  ghost predicate Noted(r: ReaderStream, s: ReaderStream, input: seq<Byte>)
    requires input != [] && |input| >= HeaderSize(input[0]) && !Unheard(r, input[0])
  {
    && s.timestamp == Some(TimeOf(r, input)) && s.bodyLen == Some(LengthOf(r, input))
    && s.typ == (if input[0] < 128 then Some(input[7]) else r.typ)
    && s.msid == (if input[0] < 64 then Some(Number32(input, 8)) else r.msid)
    && s.delta == if input[0] < 64 then None else if input[0] < 192 then Some(Number24(input, 1)) else r.delta
  }

  lemma Field24(input: seq<Byte>, h: nat, at: nat)
    requires at + 3 <= h <= |input|
    ensures FromBe24(input[..h][at..at + 3]) == Number24(input, at)
  {
    var part := input[..h][at..at + 3];
    assert part[0] == input[at] && part[1] == input[at + 1] && part[2] == input[at + 2];
  }

  lemma Field32(input: seq<Byte>, h: nat, at: nat)
    requires at + 4 <= h <= |input|
    ensures FromBe32(input[..h][at..at + 4]) == Number32(input, at)
  {
    var part := input[..h][at..at + 4];
    assert part[0] == input[at] && part[1] == input[at + 1] && part[2] == input[at + 2] && part[3] == input[at + 3];
  }

  lemma Fields(input: seq<Byte>, h: nat)
    requires |input| >= h
    ensures h >= 4 ==> FromBe24(input[..h][1..4]) == Number24(input, 1)
    ensures h >= 8 ==> FromBe24(input[..h][4..7]) == Number24(input, 4)
    ensures h >= 12 ==> FromBe32(input[..h][8..12]) == Number32(input, 8)
  {
    hide FromBe24, FromBe32, Number24, Number32;
    if h >= 4 {
      Field24(input, h, 1);
    }
    if h >= 8 {
      Field24(input, h, 4);
    }
    if h >= 12 {
      Field32(input, h, 8);
    }
  }

  /** The fields of a chunk of any bytes. */
  predicate ParsedAs(c: Chunk, input: seq<Byte>)
    requires input != [] && |input| >= HeaderSize(input[0])
  {
    match c
    case Chunk0(_, t, typ, msid, n, _) =>
      && input[0] < 64 && t == Number24(input, 1) && typ == input[7] && msid == Number32(input, 8)
      && n == Number24(input, 4)
    case Chunk1(_, d, typ, n, _) =>
      64 <= input[0] < 128 && d == Number24(input, 1) && typ == input[7] && n == Number24(input, 4)
    case Chunk2(_, d, _) => 128 <= input[0] < 192 && d == Number24(input, 1)
    case Chunk3(_, _) => 192 <= input[0]
  }

  lemma ParsedBytes(limit: U32, input: seq<Byte>)
    requires input != []
    ensures
      var h, parsed := HeaderSize(input[0]), Parse(input[0] as int / 64, limit, input);
      if |input| < h then parsed.None?
      else
        var n := if input[0] < 128 then Min(Number24(input, 4), limit) else limit;
        if |input| < h + n then parsed.None?
        else
          && parsed.Some? && parsed.value.body == input[h..h + n] && |parsed.value.Encoding()| == h + n
          && ParsedAs(parsed.value, input)
  {
    hide FromBe24, FromBe32, Number24, Number32;
    var h := HeaderSize(input[0]);
    assert HeaderLen(input[0] as int / 64) == h;
    if |input| >= h {
      Fields(input, h);
      assert input[..h][0] == input[0] && (h >= 8 ==> input[..h][7] == input[7]);
    }
  }

  lemma NotedFrom(r: ReaderStream, c: Chunk, input: seq<Byte>)
    requires input != [] && |input| >= HeaderSize(input[0]) && !Unheard(r, input[0]) && !UnderWay(r, input[0])
    requires ParsedAs(c, input)
    ensures Noted(r, ApplyHeader(r, c), input) && ApplyHeader(r, c).body == r.body
  {
    hide Number24, Number32;
  }

  /**
   * What the next chunk brings, for any bytes that are not refused: it is read exactly if all of it is there; header
   * fields left out are those of the chunk before; and the message is delivered exactly when its body is whole.
   */
  lemma ReadsBytes(streams: Streams, chunkSize: U32, input: seq<Byte>)
    requires input != []
    requires !UnderWay(ReaderOf(streams, input[0] as int % 64), input[0])
    requires !Unheard(ReaderOf(streams, input[0] as int % 64), input[0])
    ensures
      var csid, h := input[0] as int % 64, HeaderSize(input[0]);
      var r, o := ReaderOf(streams, csid), NextChunk(streams, chunkSize, input);
      if |input| < h || |input| < h + PieceOf(r, chunkSize, input) then o == Failed(EndOfInput)
      else
        var piece := PieceOf(r, chunkSize, input);
        var body := (if r.body.Some? then r.body.value else []) + input[h..h + piece];
        && !o.Failed? && o.used == h + piece && Noted(r, o.stream, input)
        && (o.Delivered? <==> |body| == LengthOf(r, input))
        && (o.MoreNeeded? ==> o.stream.body == Some(body))
        && (o.Delivered? ==>
              && o.stream.body.None?
              && o.msg == Message(csid, TimeOf(r, input) * 1_000_000, o.stream.typ.value, o.stream.msid.value, body))
  {
    hide Parse, ParsedAs, ApplyHeader, Number24, Number32, TimeOf, Chunk.Encoding;
    var format := input[0] as int / 64;
    var r := ReaderOf(streams, input[0] as int % 64);
    var limit := BodyLimit(r, format, chunkSize);
    ParsedBytes(limit, input);
    var parsed := Parse(format, limit, input);
    if parsed.Some? {
      NotedFrom(r, parsed.value, input);
      assert [] + parsed.value.body == parsed.value.body;
    }
  }
}
