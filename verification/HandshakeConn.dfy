/** The handshake on a connection: packets filled and signed in place, then read and written in turn. */
module HandshakeConn {
  import opened Buffers
  import opened Bytes
  import opened Handshake
  import opened HandshakePeer
  import Chunk

  function First(b: seq<Byte>, n: nat): int
    requires |b| == 4 && n <= 4
  {
    if n == 0 then 0 else First(b, n - 1) + b[n - 1] as int
  }

  method CalcDigestPos(p: array<Byte>, base: nat) returns (pos: nat)
    requires p.Length == SIZE && (base == 8 || base == 772)
    ensures pos == DigestPos(p[..], base)
  {
    var sum: int := 0;
    var i := 0;
    while i < 4
      invariant 0 <= i <= 4
      invariant sum == First(p[base..base + 4], i)
    {
      sum := sum + p[base + i];
      i := i + 1;
    }
    ghost var b := p[base..base + 4];
    assert First(b, 4) == First(b, 3) + b[3] && First(b, 3) == First(b, 2) + b[2] && First(b, 2) == b[0] as int + b[1];
    pos := sum % 728 + base + 4;
  }

  /** The two directions of a connection: what the peer sends, and what has been sent to it. */
  class Conn {
    const input: Chunk.Input
    var output: seq<Byte>

    constructor (input: Chunk.Input)
      ensures this.input == input && output == []
    {
      this.input := input;
      output := [];
    }

    method Write(bytes: seq<Byte>)
      modifies this`output
      ensures output == old(output) + bytes
    {
      output := output + bytes;
    }

    method WriteVersion()
      modifies this`output
      ensures output == old(output) + [VERSION]
    {
      Write([VERSION]);
    }

    method ReadVersion() returns (e: Option<Error>)
      requires input.Valid()
      modifies input`pos
      ensures input.Valid()
      ensures
        var rest := old(input.Rest());
        && (e.None? <==> |rest| >= 1 && rest[0] == VERSION)
        && (e.None? ==> input.Rest() == rest[1..])
        && (e.Some? ==> e.value == if |rest| < 1 then ShortRead else BadVersion)
    {
      var b := input.ReadFull(1);
      if b.None? {
        return Some(ShortRead);
      }
      if b.value[0] != VERSION {
        return Some(BadVersion);
      }
      return None;
    }
  }

  /** C1 or S1. */
  class FirstPacket {
    var time: U32
    var random: Option<seq<Byte>>
    var digest: Option<Digest>

    constructor ()
      ensures time == 0 && random.None? && digest.None?
    {
      time, random, digest := 0, None, None;
    }

    method Read(mac: Mac, input: Chunk.Input, isC1: bool, validate: bool) returns (e: Option<Error>)
      requires input.Valid()
      modifies this, input`pos
      ensures input.Valid()
      ensures
        var rest := old(input.Rest());
        if |rest| < SIZE then e == Some(ShortRead)
        else if validate && Read1(mac, rest[..SIZE], isC1).None? then e == Some(BadSignature1)
        else
          && e.None? && input.Rest() == rest[SIZE..]
          && time == FromBe32(rest[..4]) && random == Some(rest[8..SIZE])
          && digest == if Read1(mac, rest[..SIZE], isC1).None? then old(digest) else Read1(mac, rest[..SIZE], isC1)
    {
      hide Read1;
      var bytes := input.ReadFull(SIZE);
      if bytes.None? {
        return Some(ShortRead);
      }
      var p: Packet := bytes.value;
      var found := Read1(mac, p, isC1);
      if found.None? {
        if validate {
          return Some(BadSignature1);
        }
      } else {
        digest := found;
      }
      time := FromBe32(p[..4]);
      random := Some(p[8..]);
      assert p[..4] == old(input.Rest())[..4] && p[8..] == old(input.Rest())[8..SIZE];
      return None;
    }

    /** `entropy` is what the random source would deliver. */
    method Write(mac: Mac, conn: Conn, isC1: bool, entropy: seq<Byte>)
      requires |entropy| == SIZE - 8
      modifies this, conn`output
      ensures time == old(time)
      ensures
        var w := Write1(mac, time, if old(random).None? then entropy else old(random).value, isC1);
        && conn.output == old(conn.output) + w.packet
        && digest == Some(w.key)
        && random == if old(random).None? then Some(w.packet[8..]) else old(random)
    {
      hide ClientPartialKey, ServerPartialKey, ClientFullKey, ServerFullKey, DigestPos, MakeDigest;
      var buf := new Byte[SIZE](_ => 0);
      var content := if random.None? then entropy else random.value;
      Fill(buf, time, [0, 0, 0, 0], content);
      ghost var p: Packet := buf[..];
      var key := if isC1 then ClientPartialKey() else ServerPartialKey();
      var peerKey := if isC1 then ServerFullKey() else ClientFullKey();
      DigestWindows(p);
      SignedIsFound(mac, p, key);
      var gap := CalcDigestPos(buf, 8);
      var signature: seq<Byte> := MakeDigest(mac, key, buf[..], gap);
      CopyInto(buf, gap, signature);
      assert signature[..32] == signature && buf[..] == Sign1(mac, p, key);
      var pos := FindDigest(mac, buf[..], key, 8);
      digest := Some(mac(peerKey, buf[pos.value..pos.value + 32]));
      assert buf[pos.value..pos.value + 32] == buf[..][gap..gap + 32];
      if random.None? {
        random := Some(buf[8..]);
      }
      conn.Write(buf[..]);
    }
  }

  /** The layout all four packets share. */
  method Fill(buf: array<Byte>, time: U32, second: seq<Byte>, random: seq<Byte>)
    requires buf.Length == SIZE && |second| == 4 && forall i :: 0 <= i < SIZE ==> buf[i] == 0
    modifies buf
    ensures buf[..] == Be32(time) + second + Padded(random)
  {
    hide Be32, Padded;
    ghost var b := buf[..];
    CopyInto(buf, 0, Be32(time));
    assert buf[..] == Be32(time) + b[4..];
    CopyInto(buf, 4, second);
    assert buf[..] == Be32(time) + second + b[8..];
    CopyInto(buf, 8, random);
    var n := Min(|random|, SIZE - 8);
    assert buf[..] == Be32(time) + second + (random[..n] + b[8 + n..]);
    PaddedTail(random, b[8 + n..], n);
  }

  lemma PaddedTail(random: seq<Byte>, zeros: seq<Byte>, n: nat)
    requires n == Min(|random|, SIZE - 8) && |zeros| == SIZE - 8 - n && forall i :: 0 <= i < |zeros| ==> zeros[i] == 0
    ensures random[..n] + zeros == Padded(random)
  {
  }

  /** C2 or S2. */
  class SecondPacket {
    var time: U32
    var time2: U32
    var random: seq<Byte>
    var digest: Option<Digest>

    constructor (time: U32, random: seq<Byte>, digest: Option<Digest>)
      ensures this.time == time && time2 == 0 && this.random == random && this.digest == digest
    {
      this.time, this.time2, this.random, this.digest := time, 0, random, digest;
    }

    method Read(mac: Mac, input: Chunk.Input, validate: bool) returns (e: Option<Error>)
      requires input.Valid() && digest.Some?
      modifies this, input`pos
      ensures input.Valid()
      ensures e == ReadFinal(mac, old(input.Rest()), old(digest).value, validate)
      ensures e.None? ==> |old(input.Rest())| >= SIZE
      ensures e.None? ==>
        var rest := old(input.Rest());
        && input.Rest() == rest[SIZE..] && digest == old(digest)
        && time == FromBe32(rest[..4]) && time2 == FromBe32(rest[4..8]) && random == rest[8..SIZE]
    {
      hide MakeDigest;
      var bytes := input.ReadFull(SIZE);
      if bytes.None? {
        return Some(ShortRead);
      }
      var p: Packet := bytes.value;
      if validate {
        var gap := |p| - 32;
        var signature := MakeDigest(mac, digest.value, p, gap);
        assert p[gap..gap + 32] == p[SIZE - 32..];
        if p[gap..gap + 32] != signature {
          return Some(BadSignature2);
        }
      }
      time := FromBe32(p[..4]);
      time2 := FromBe32(p[4..8]);
      random := p[8..];
      ghost var rest := old(input.Rest());
      assert p[..4] == rest[..4] && p[4..8] == rest[4..8] && p[8..] == rest[8..SIZE];
      return None;
    }

    method Write(mac: Mac, conn: Conn)
      modifies conn`output
      ensures conn.output == old(conn.output) + Write2(mac, time, time2, random, digest)
    {
      hide MakeDigest;
      var buf := new Byte[SIZE](_ => 0);
      Fill(buf, time, Be32(time2), random);
      ghost var p: Packet := buf[..];
      if digest.Some? {
        var gap := buf.Length - 32;
        var signature: seq<Byte> := MakeDigest(mac, digest.value, buf[..], gap);
        CopyInto(buf, gap, signature);
        assert signature[..32] == signature && buf[..] == Overwrite(p, gap, signature);
      }
      conn.Write(buf[..]);
    }
  }

  /** Version and first packet, written. */
  method SayHello(mac: Mac, conn: Conn, isC1: bool, entropy: seq<Byte>) returns (own: FirstPacket)
    requires |entropy| == SIZE - 8
    modifies conn`output
    ensures fresh(own) && conn.output == old(conn.output) + Hello(mac, entropy, isC1)
    ensures own.digest == Some(Write1(mac, 0, entropy, isC1).key)
  {
    hide Write1;
    conn.WriteVersion();
    own := new FirstPacket();
    own.Write(mac, conn, isC1, entropy);
  }

  /** Version and first packet, read. */
  method HearHello(mac: Mac, conn: Conn, isC1: bool, validate: bool) returns (e: Option<Error>, peer: FirstPacket)
    requires conn.input.Valid()
    modifies conn.input`pos
    ensures conn.input.Valid() && fresh(peer)
    ensures e == ReadHello(mac, old(conn.input.Rest()), isC1, validate)
    ensures e.None? ==> |old(conn.input.Rest())| >= 1 + SIZE
    ensures e.None? ==>
      var p: Packet := old(conn.input.Rest())[1..1 + SIZE];
      && conn.input.Rest() == old(conn.input.Rest())[1 + SIZE..]
      && peer.time == FromBe32(p[..4]) && peer.random == Some(p[8..]) && peer.digest == Read1(mac, p, isC1)
  {
    hide Read1, FromBe32;
    ghost var input := conn.input.Rest();
    peer := new FirstPacket();
    e := conn.ReadVersion();
    if e.Some? {
      return;
    }
    e := peer.Read(mac, conn.input, isC1, validate);
    assert |input| >= 1 + SIZE ==> input[1..][..SIZE] == input[1..1 + SIZE];
    if e.Some? {
      return;
    }
    ghost var p: Packet := input[1..1 + SIZE];
    assert input[1..][..4] == p[..4] && input[1..][8..SIZE] == p[8..];
  }

  method DoClient(mac: Mac, conn: Conn, validate: bool, entropy: seq<Byte>) returns (e: Option<Error>)
    requires conn.input.Valid() && |entropy| == SIZE - 8
    modifies conn`output, conn.input`pos
    ensures conn.input.Valid()
    ensures
      var side := Client(mac, entropy, validate, old(conn.input.Rest()));
      && e == side.error && conn.output == old(conn.output) + side.output
      && (e.None? ==> conn.input.Rest() == side.rest)
    ensures e.None? ==> SentEcho(old(conn.input.Rest()), conn.output[|old(conn.output)|..])
  {
    hide Write1, Read1, Write2, Check2, FromBe32, SentEcho, ReadHello, ReadFinal;
    ghost var input := conn.input.Rest();
    var c1 := SayHello(mac, conn, true, entropy);
    var s1;
    e, s1 := HearHello(mac, conn, false, validate);
    if e.Some? {
      return;
    }
    var s2 := new SecondPacket(0, [], c1.digest);
    e := s2.Read(mac, conn.input, validate);
    if e.Some? {
      return;
    }
    ghost var p: Packet := input[1..1 + SIZE];
    assert conn.input.Rest() == input[1 + 2 * SIZE..];
    var c2 := new SecondPacket(s1.time, s1.random.value, s1.digest);
    c2.Write(mac, conn);
    assert conn.output == old(conn.output) + (Hello(mac, entropy, true) + Echo(mac, p, false));
    assert conn.output[|old(conn.output)|..] == Hello(mac, entropy, true) + Echo(mac, p, false);
    ClientAnswers(mac, entropy, validate, input);
  }

  method DoServer(mac: Mac, conn: Conn, validate: bool, entropy: seq<Byte>) returns (e: Option<Error>)
    requires conn.input.Valid() && |entropy| == SIZE - 8
    modifies conn`output, conn.input`pos
    ensures conn.input.Valid()
    ensures
      var side := Server(mac, entropy, validate, old(conn.input.Rest()));
      && e == side.error && conn.output == old(conn.output) + side.output
      && (e.None? ==> conn.input.Rest() == side.rest)
    ensures e.None? ==> SentEcho(old(conn.input.Rest()), conn.output[|old(conn.output)|..])
  {
    hide Write1, Read1, Write2, Check2, FromBe32, SentEcho, ReadHello, ReadFinal;
    ghost var input := conn.input.Rest();
    var c1;
    e, c1 := HearHello(mac, conn, true, validate);
    if e.Some? {
      return;
    }
    ghost var p: Packet := input[1..1 + SIZE];
    var s1 := SayHello(mac, conn, false, entropy);
    var s2 := new SecondPacket(c1.time, c1.random.value, c1.digest);
    s2.Write(mac, conn);
    assert conn.output == old(conn.output) + (Hello(mac, entropy, false) + Echo(mac, p, true));
    var c2 := new SecondPacket(0, [], s1.digest);
    e := c2.Read(mac, conn.input, validate);
    if e.Some? {
      return;
    }
    assert conn.input.Rest() == input[1 + 2 * SIZE..];
    assert conn.output[|old(conn.output)|..] == Hello(mac, entropy, false) + Echo(mac, p, true);
    ServerAnswersAny(mac, entropy, validate, input);
  }
}
