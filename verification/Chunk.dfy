/** The four RTMP chunk forms: header layout, marshalling and parsing (internal/rtmp/chunk). */
module Chunk {
  import opened Bytes
  import opened Buffers

  datatype Chunk =
    | Chunk0(csid: Byte, timestamp: U32, typ: Byte, msid: U32, bodyLen: U32, body: seq<Byte>)
    | Chunk1(csid: Byte, delta: U32, typ: Byte, bodyLen: U32, body: seq<Byte>)
    | Chunk2(csid: Byte, delta: U32, body: seq<Byte>)
    | Chunk3(csid: Byte, body: seq<Byte>)
  {
    function Format(): (f: nat)
      ensures f < 4
    {
      match this
      case Chunk0(_, _, _, _, _, _) => 0
      case Chunk1(_, _, _, _, _) => 1
      case Chunk2(_, _, _) => 2
      case Chunk3(_, _) => 3
    }

    /** The two format bits above the six bits of the chunk stream ID. */
    function FirstByte(): Byte {
      OrByte(64 * Format(), csid)
    }

    /** The message length, which only forms 0 and 1 carry. */
    function MessageLen(): nat {
      if Chunk0? || Chunk1? then bodyLen else 0
    }

    function Header(): (h: seq<Byte>)
      ensures |h| == HeaderLen(Format())
    {
      match this
      case Chunk0(_, t, typ, msid, n, _) => [FirstByte()] + Be24(t) + Be24(n) + [typ] + Be32(msid)
      case Chunk1(_, d, typ, n, _) => [FirstByte()] + Be24(d) + Be24(n) + [typ]
      case Chunk2(_, d, _) => [FirstByte()] + Be24(d)
      case Chunk3(_, _) => [FirstByte()]
    }

    /** The bytes of the chunk on the wire. */
    function Encoding(): (e: seq<Byte>)
      ensures |e| == HeaderLen(Format()) + |body|
    {
      Header() + body
    }

    /** The chunk with its time and length fields reduced to the 24 bits the header has for each. */
    function Narrowed(): Chunk {
      match this
      case Chunk0(_, t, _, _, n, _) => this.(timestamp := t % LIMIT24, bodyLen := n % LIMIT24)
      case Chunk1(_, d, _, n, _) => this.(delta := d % LIMIT24, bodyLen := n % LIMIT24)
      case Chunk2(_, d, _) => this.(delta := d % LIMIT24)
      case Chunk3(_, _) => this
    }

    /** The chunk carries as much of the message as a reader will expect of it when allowed `limit` bytes. */
    predicate Fits(limit: U32) {
      && csid < 64
      && match this
         case Chunk0(_, _, _, _, n, b) => |b| == Min(n % LIMIT24, limit)
         case Chunk1(_, _, _, n, b) => |b| == Min(n % LIMIT24, limit)
         case Chunk2(_, _, b) => |b| == limit
         case Chunk3(_, b) => |b| == limit
    }
  }

  function HeaderLen(format: nat): nat {
    if format == 0 then 12 else if format == 1 then 8 else if format == 2 then 4 else 1
  }

  /** The body length a header calls for: forms 0 and 1 carry the message length, the others take `limit`. */
  function BodySize(format: nat, limit: U32, header: seq<Byte>): nat
    requires |header| == HeaderLen(format)
  {
    if format < 2 then Min(FromBe24(header[4..7]), limit) else limit
  }

  function FromParts(format: nat, h: seq<Byte>, body: seq<Byte>): (c: Chunk)
    requires format < 4 && |h| == HeaderLen(format)
    ensures c.Format() == format && c.body == body
  {
    var csid := h[0] as int % 64;
    if format == 0 then Chunk0(csid, FromBe24(h[1..4]), h[7], FromBe32(h[8..12]), FromBe24(h[4..7]), body)
    else if format == 1 then Chunk1(csid, FromBe24(h[1..4]), h[7], FromBe24(h[4..7]), body)
    else if format == 2 then Chunk2(csid, FromBe24(h[1..4]), body)
    else Chunk3(csid, body)
  }

  /**
   * What reading a chunk of the given form yields when the input starts with `input`;
   * None when the input ends inside the chunk. `limit` is the largest body for forms 0 and 1
   * and the exact body length for forms 2 and 3.
   */
  function Parse(format: nat, limit: U32, input: seq<Byte>): (c: Option<Chunk>)
    requires format < 4
    ensures c.Some? ==> c.value.Format() == format && |c.value.Encoding()| <= |input|
  {
    var h := HeaderLen(format);
    if |input| < h then None
    else
      var n := BodySize(format, limit, input[..h]);
      if |input| < h + n then None else Some(FromParts(format, input[..h], input[h..h + n]))
  }

  lemma ParsedBody(format: nat, limit: U32, input: seq<Byte>)
    requires format < 4 && Parse(format, limit, input).Some?
    ensures
      var c := Parse(format, limit, input).value;
      |c.body| == if format < 2 then Min(c.MessageLen(), limit) else limit
  {
  }

  lemma FirstByteSplits(c: Chunk)
    requires c.csid < 64
    ensures c.FirstByte() == 64 * c.Format() + c.csid
    ensures c.FirstByte() as int / 64 == c.Format() && c.FirstByte() as int % 64 == c.csid
  {
    assert Pow2(6) == 64 by { assert Pow2(3) == 8; }
    assert Shift(c.Format(), 6) == 64 * c.Format() by { assert Shift(c.Format(), 3) == 8 * c.Format(); }
    OrOfShift(c.Format(), c.csid, 6);
  }

  /** Where the fields sit in the header. */
  lemma HeaderFields(c: Chunk)
    ensures c.Header()[0] == c.FirstByte()
    ensures c.Chunk0? ==> c.Header()[1..4] == Be24(c.timestamp) && c.Header()[8..12] == Be32(c.msid)
    ensures c.Chunk1? || c.Chunk2? ==> c.Header()[1..4] == Be24(c.delta)
    ensures c.Chunk0? || c.Chunk1? ==> c.Header()[4..7] == Be24(c.bodyLen) && c.Header()[7] == c.typ
  {
  }

  /** The field values a reader finds in the header. */
  lemma HeaderValues(c: Chunk)
    requires c.csid < 64
    ensures c.Header()[0] as int % 64 == c.csid
    ensures c.Chunk0? ==>
      FromBe24(c.Header()[1..4]) == c.timestamp as int % LIMIT24 && FromBe32(c.Header()[8..12]) == c.msid
    ensures c.Chunk1? || c.Chunk2? ==> FromBe24(c.Header()[1..4]) == c.delta as int % LIMIT24
    ensures c.Chunk0? || c.Chunk1? ==>
      FromBe24(c.Header()[4..7]) == c.bodyLen as int % LIMIT24 && c.Header()[7] == c.typ
  {
    hide Chunk.Header, Chunk.FirstByte, Be24, Be32, FromBe24, FromBe32;
    HeaderFields(c);
    FirstByteSplits(c);
    if c.Chunk0? {
      Be24RoundTrip(c.timestamp);
      Be32RoundTrip(c.msid);
    }
    if c.Chunk1? || c.Chunk2? {
      Be24RoundTrip(c.delta);
    }
    if c.Chunk0? || c.Chunk1? {
      Be24RoundTrip(c.bodyLen);
    }
  }

  lemma PartsOfChunk(c: Chunk, limit: U32)
    requires c.Fits(limit)
    ensures FromParts(c.Format(), c.Header(), c.body) == c.Narrowed()
    ensures BodySize(c.Format(), limit, c.Header()) == |c.body|
  {
    HeaderValues(c);
    hide Chunk.Header, FromBe24, FromBe32;
  }

  /** A marshalled chunk is read back, whatever follows it, with its time and length fields cut to 24 bits. */
  lemma ParseEncoding(c: Chunk, limit: U32, rest: seq<Byte>)
    requires c.Fits(limit)
    ensures Parse(c.Format(), limit, c.Encoding() + rest) == Some(c.Narrowed())
  {
    var h := HeaderLen(c.Format());
    var input := c.Encoding() + rest;
    assert input[..h] == c.Header();
    assert input[h..h + |c.body|] == c.body;
    PartsOfChunk(c, limit);
  }

  /** Bytes after a complete chunk do not change how it is read. */
  lemma ParseIgnoresRest(format: nat, limit: U32, input: seq<Byte>, rest: seq<Byte>)
    requires format < 4 && Parse(format, limit, input).Some?
    ensures Parse(format, limit, input + rest) == Parse(format, limit, input)
  {
    var h := HeaderLen(format);
    var n := BodySize(format, limit, input[..h]);
    assert (input + rest)[..h] == input[..h];
    assert (input + rest)[h..h + n] == input[h..h + n];
  }

  /** Marshalling: a fresh buffer whose header is filled by index and whose body is copied behind it. */
  method Marshal(c: Chunk) returns (buf: array<Byte>)
    ensures fresh(buf) && buf[..] == c.Encoding()
  {
    var h := HeaderLen(c.Format());
    buf := new Byte[h + |c.body|](i requires 0 <= i =>
      if i < h then 0 else if i - h < |c.body| then c.body[i - h] else 0);
    assert buf[h..] == c.body;
    match c {
      case Chunk0(_, _, _, _, _, _) => FillHeader0(buf, c);
      case Chunk1(_, _, _, _, _) => FillHeader1(buf, c);
      case Chunk2(_, _, _) => FillHeader2(buf, c);
      case Chunk3(_, _) => buf[0] := c.FirstByte();
    }
    assert buf[..] == buf[..h] + buf[h..];
  }

  method FillHeader0(buf: array<Byte>, c: Chunk)
    requires c.Chunk0? && 12 <= buf.Length
    modifies buf
    ensures buf[..12] == c.Header() && buf[12..] == old(buf[12..])
  {
    HeaderFields(c);
    buf[0] := c.FirstByte();
    PutBe24(buf, 1, c.timestamp);
    PutBe24(buf, 4, c.bodyLen);
    buf[7] := c.typ;
    PutBe32(buf, 8, c.msid);
  }

  method FillHeader1(buf: array<Byte>, c: Chunk)
    requires c.Chunk1? && 8 <= buf.Length
    modifies buf
    ensures buf[..8] == c.Header() && buf[8..] == old(buf[8..])
  {
    buf[0] := c.FirstByte();
    PutBe24(buf, 1, c.delta);
    PutBe24(buf, 4, c.bodyLen);
    buf[7] := c.typ;
  }

  method FillHeader2(buf: array<Byte>, c: Chunk)
    requires c.Chunk2? && 4 <= buf.Length
    modifies buf
    ensures buf[..4] == c.Header() && buf[4..] == old(buf[4..])
  {
    buf[0] := c.FirstByte();
    PutBe24(buf, 1, c.delta);
  }

  /** The incoming connection: received bytes and how many of them have been consumed. */
  class Input {
    var data: seq<Byte>                      // everything received so far
    var pos: nat

    ghost predicate Valid()
      reads this
    {
      pos <= |data|
    }

    function Rest(): seq<Byte>
      requires Valid()
      reads this
    {
      data[pos..]
    }

    constructor (data: seq<Byte>)
      ensures Valid() && this.data == data && pos == 0
    {
      this.data, pos := data, 0;
    }

    /** More bytes arrive. */
    method Deliver(bytes: seq<Byte>)
      requires Valid()
      modifies this`data
      ensures Valid() && data == old(data) + bytes && Rest() == old(Rest()) + bytes
    {
      data := data + bytes;
    }

    /** All `n` bytes or nothing; a short input is consumed to its end. */
    method ReadFull(n: nat) returns (bytes: Option<seq<Byte>>)
      requires Valid()
      modifies this`pos
      ensures Valid()
      ensures bytes.Some? <==> n <= |old(Rest())|
      ensures bytes.None? ==> Rest() == []
      ensures bytes.Some? ==> bytes.value == old(Rest())[..n] && pos == old(pos) + n && Rest() == old(Rest())[n..]
    {
      if |data| - pos < n {
        pos := |data|;
        return None;
      }
      bytes := Some(data[pos..pos + n]);
      pos := pos + n;
      assert data[old(pos)..][..n] == bytes.value;
    }

    /** Reads a chunk of a known form: first its header, then as much body as the header and `limit` say. */
    method ReadChunk(format: nat, limit: U32) returns (c: Option<Chunk>)
      requires Valid() && format < 4
      modifies this`pos
      ensures Valid()
      ensures c == Parse(format, limit, old(Rest()))
      ensures c.Some? ==> pos == old(pos) + |c.value.Encoding()| && Rest() == old(Rest())[|c.value.Encoding()|..]
    {
      ghost var input := Rest();
      var header := ReadFull(HeaderLen(format));
      if header.None? {
        return None;
      }
      var body := ReadFull(BodySize(format, limit, header.value));
      if body.None? {
        return None;
      }
      assert body.value == input[|header.value|..|header.value| + |body.value|];
      c := Some(FromParts(format, header.value, body.value));
    }
  }
}
