/** The handshake against any peer, byte by byte: what is sent, what is accepted, and which error comes otherwise. */
module HandshakePeer {
  import opened Bytes
  import opened Handshake

  // ---------------------------------------------------------------- digests

  /** The 32 bytes at a place are the hash of all others. */
  predicate SignedAt(mac: Mac, p: Packet, key: seq<Byte>, at: nat)
    requires at + 32 <= 1536
  {
    p[at..at + 32] == mac(key, p[..at] + p[at + 32..])
  }

  function FirstPlace(p: Packet): (at: nat)
    ensures 12 <= at <= 739
  {
    12 + (p[8] as int + p[9] as int + p[10] as int + p[11] as int) % 728
  }

  function SecondPlace(p: Packet): (at: nat)
    ensures 776 <= at <= 1503
  {
    776 + (p[772] as int + p[773] as int + p[774] as int + p[775] as int) % 728
  }

  /** The text each side signs its first packet with. */
  function Signature(isC1: bool): seq<Byte> {
    Ascii(if isC1 then "Genuine Adobe Flash Player 001" else "Genuine Adobe Flash Media Server 001")
  }

  function FullKey(isC1: bool): seq<Byte> {
    Signature(isC1) + [
      0xF0, 0xEE, 0xC2, 0x4A, 0x80, 0x68, 0xBE, 0xE8, 0x2E, 0x00, 0xD0, 0xD1, 0x02, 0x9E, 0x7E, 0x57,
      0x6E, 0xEC, 0x5D, 0x2D, 0x29, 0x80, 0x6F, 0xAB, 0x93, 0xB8, 0xE6, 0x36, 0xCF, 0xEB, 0x31, 0xAE]
  }

  lemma Texts()
    ensures Signature(true) == ClientPartialKey() && Signature(false) == ServerPartialKey()
    ensures FullKey(true) == ClientFullKey() && FullKey(false) == ServerFullKey()
  {
  }

  /**
   * Any first packet: a key is derived from it exactly if it is signed at one of the two places, from the second if it
   * is signed there, with the text of the other side and the fixed bytes behind it.
   */
  lemma DerivedIff(mac: Mac, p: Packet, isC1: bool)
    ensures
      var second := SignedAt(mac, p, Signature(isC1), SecondPlace(p));
      var first := SignedAt(mac, p, Signature(isC1), FirstPlace(p));
      var full := FullKey(!isC1);
      && (Read1(mac, p, isC1).Some? <==> second || first)
      && (second ==> Read1(mac, p, isC1) == Some(mac(full, p[SecondPlace(p)..SecondPlace(p) + 32])))
      && (first && !second ==> Read1(mac, p, isC1) == Some(mac(full, p[FirstPlace(p)..FirstPlace(p) + 32])))
  {
    hide ClientPartialKey, ServerPartialKey, ClientFullKey, ServerFullKey, Signature, FullKey;
    Texts();
    assert DigestPos(p, 8) == FirstPlace(p) && DigestPos(p, 772) == SecondPlace(p);
    hide DigestPos, FirstPlace, SecondPlace;
  }

  lemma SignedBytes(mac: Mac, p: Packet, key: seq<Byte>)
    ensures
      var w, at := Sign1(mac, p, key), FirstPlace(p);
      && FirstPlace(w) == at && SignedAt(mac, w, key, at)
      && w[..at] == p[..at] && w[at + 32..] == p[at + 32..]
  {
    SignedIsFound(mac, p, key);
    var w, at := Sign1(mac, p, key), DigestPos(p, 8);
    SamePlace(p, w);
    assert at == FirstPlace(p);
    hide DigestPos, FirstPlace;
    assert w[..at] == p[..at] && w[at + 32..] == p[at + 32..];
  }

  lemma SamePlace(p: Packet, w: Packet)
    requires w[..12] == p[..12]
    ensures FirstPlace(w) == FirstPlace(p)
  {
    assert w[8] == w[..12][8] == p[8] && w[9] == w[..12][9] == p[9];
    assert w[10] == w[..12][10] == p[10] && w[11] == w[..12][11] == p[11];
  }

  lemma LaidOut(p: Packet, w: Packet, time: seq<Byte>, random: seq<Byte>, at: nat)
    requires |time| == 4 && |random| == 1528 && p == time + [0, 0, 0, 0] + random && 12 <= at <= 739
    requires w[..at] == p[..at] && w[at + 32..] == p[at + 32..]
    ensures w[..4] == time && w[4..8] == [0, 0, 0, 0]
    ensures w[8..at] == random[..at - 8] && w[at + 32..] == random[at + 24..]
  {
    assert w[..4] == w[..at][..4] == p[..at][..4] == time;
    assert w[4..8] == w[..at][4..8] == p[..at][4..8] == [0, 0, 0, 0];
    assert w[8..at] == w[..at][8..] == p[..at][8..] == random[..at - 8];
    assert p[at + 32..] == random[at + 24..];
  }

  /**
   * The first packet a side sends: time, four zeros, random bytes, and over 32 of these the signature. The key it
   * expects the echo to be signed with is derived from that.
   */
  lemma FirstPacketBytes(mac: Mac, time: U32, random: seq<Byte>, isC1: bool)
    requires |random| == 1528
    ensures
      var w := Write1(mac, time, random, isC1);
      var at := FirstPlace(w.packet);
      && w.packet[..4] == Be32(time) && w.packet[4..8] == [0, 0, 0, 0]
      && w.packet[8..at] == random[..at - 8] && w.packet[at + 32..] == random[at + 24..]
      && SignedAt(mac, w.packet, Signature(isC1), at)
      && w.key == mac(FullKey(!isC1), w.packet[at..at + 32])
  {
    hide ClientPartialKey, ServerPartialKey, ClientFullKey, ServerFullKey, Signature, FullKey, Be32, SignedAt, Sign1;
    Texts();
    var p: Packet := Be32(time) + [0, 0, 0, 0] + random;
    assert Padded(random) == random;
    var w := Write1(mac, time, random, isC1);
    SignedBytes(mac, p, Signature(isC1));
    assert DigestPos(p, 8) == FirstPlace(p);
    hide DigestPos, FirstPlace, Padded;
    LaidOut(p, w.packet, Be32(time), random, FirstPlace(p));
  }

  // ---------------------------------------------------------------- the echo

  lemma Within(s: seq<Byte>, a: nat, b: nat, from: nat, to: nat)
    requires a <= b <= |s| && from <= to <= b - a
    ensures s[a..b][from..to] == s[a + from..a + to]
  {
    var part := s[a..b];
    forall i | 0 <= i < to - from
      ensures part[from..to][i] == s[a + from..a + to][i]
    {
      assert part[from + i] == s[a + (from + i)];
    }
  }

  /** The answer to any first packet: its time, four zeros and its random bytes, the last 32 signed if it gave a key. */
  lemma EchoBytes(mac: Mac, p: Packet, isC1: bool)
    ensures
      var e, key := Echo(mac, p, isC1), Read1(mac, p, isC1);
      && e[..4] == p[..4] && e[4..8] == [0, 0, 0, 0] && e[8..1504] == p[8..1504]
      && e[1504..] == if key.None? then p[1504..] else mac(key.value, e[..1504])
  {
    hide Read1, Be32, FromBe32, MakeDigest;
    Be32OfBytes(p[..4]);
    ZeroBytes();
    assert Padded(p[8..]) == p[8..];
    var q: Packet := p[..4] + [0, 0, 0, 0] + p[8..];
    var e, key := Echo(mac, p, isC1), Read1(mac, p, isC1);
    assert e == if key.None? then q else Overwrite(q, 1504, MakeDigest(mac, key.value, q, 1504));
    assert e[..1504] == q[..1504];
    Headed(p, q, e);
    if key.Some? {
      Unsigned(mac, q, key.value);
    }
  }

  lemma Headed(p: Packet, q: Packet, e: Packet)
    requires q == p[..4] + [0, 0, 0, 0] + p[8..] && e[..1504] == q[..1504]
    ensures e[..4] == p[..4] && e[4..8] == [0, 0, 0, 0] && e[8..1504] == p[8..1504] && q[1504..] == p[1504..]
  {
    Within(e, 0, 1504, 0, 4);
    Within(e, 0, 1504, 4, 8);
    Within(e, 0, 1504, 8, 1504);
    Within(q, 0, 1504, 0, 4);
    Within(q, 0, 1504, 4, 8);
    Within(q, 0, 1504, 8, 1504);
    assert e[0..1504] == e[..1504] && q[0..1504] == q[..1504];
    assert q[0..4] == p[..4] && q[4..8] == [0, 0, 0, 0] && q[8..1504] == p[8..1504] && q[1504..] == p[1504..];
  }

  lemma Unsigned(mac: Mac, q: Packet, key: Digest)
    ensures MakeDigest(mac, key, q, 1504) == mac(key, q[..1504])
  {
    assert q[..1504] + q[1536..] == q[..1504];
  }

  lemma ZeroBytes()
    ensures Be32(0) == [0, 0, 0, 0]
  {
  }

  // ---------------------------------------------------------------- the two sides

  /** A second packet is signed with the key. */
  predicate EndsSigned(mac: Mac, p: seq<Byte>, key: Digest)
    requires |p| == 1536
  {
    p[1504..] == mac(key, p[..1504])
  }

  lemma CheckIff(mac: Mac, p: Packet, key: Digest)
    ensures Check2(mac, p, key) <==> EndsSigned(mac, p, key)
  {
    assert p[..1504] + p[1536..] == p[..1504];
  }

  /** Version and first packet of the peer are there and acceptable. */
  predicate Greeted(mac: Mac, input: seq<Byte>, isC1: bool, validate: bool) {
    |input| >= 1537 && input[0] == 3 && (validate ==> Read1(mac, input[1..1537], isC1).Some?)
  }

  /** Which error a side ends with, if any, for any input; `key` is the one it expects the echo to be signed with. */
  predicate EndsWith(mac: Mac, input: seq<Byte>, isC1: bool, validate: bool, key: Digest, error: Option<Error>) {
    && (error == Some(BadVersion) <==> |input| >= 1 && input[0] != 3)
    && (error == Some(BadSignature1) <==>
          |input| >= 1537 && input[0] == 3 && validate && Read1(mac, input[1..1537], isC1).None?)
    && (error == Some(BadSignature2) <==>
          && Greeted(mac, input, isC1, validate) && |input| >= 3073
          && validate && !EndsSigned(mac, input[1537..3073], key))
    && (error.None? <==>
          && Greeted(mac, input, isC1, validate) && |input| >= 3073
          && (validate ==> EndsSigned(mac, input[1537..3073], key)))
  }

  /** The echo of the peer's first packet, as it stands in what a side has sent. */
  predicate SentEcho(input: seq<Byte>, output: seq<Byte>) {
    && |input| >= 1537 && |output| == 3073
    && output[1537..1541] == input[1..5] && output[1541..1545] == [0, 0, 0, 0]
    && output[1545..3041] == input[9..1505]
  }

  lemma EchoIsSent(mac: Mac, hello: seq<Byte>, input: seq<Byte>, isC1: bool)
    requires |hello| == 1537 && |input| >= 1537
    ensures SentEcho(input, hello + Echo(mac, input[1..1537], isC1))
  {
    hide Echo, Read1;
    var p: Packet := input[1..1537];
    EchoBytes(mac, p, isC1);
    EchoInPlace(hello, input, p, Echo(mac, p, isC1));
  }

  lemma EchoInPlace(hello: seq<Byte>, input: seq<Byte>, p: Packet, e: Packet)
    requires |hello| == 1537 && |input| >= 1537 && p == input[1..1537]
    requires e[..4] == p[..4] && e[4..8] == [0, 0, 0, 0] && e[8..1504] == p[8..1504]
    ensures SentEcho(input, hello + e)
  {
    var output := hello + e;
    assert output[1537..3073] == e;
    Within(input, 1, 1537, 0, 4);
    Within(input, 1, 1537, 8, 1504);
    Within(output, 1537, 3073, 0, 4);
    Within(output, 1537, 3073, 4, 8);
    Within(output, 1537, 3073, 8, 1504);
  }

  lemma FinalIff(mac: Mac, input: seq<Byte>, key: Digest, validate: bool)
    requires |input| >= 1537
    ensures
      var e := ReadFinal(mac, input[1537..], key, validate);
      if |input| < 3073 then e == Some(ShortRead)
      else e == if validate && !EndsSigned(mac, input[1537..3073], key) then Some(BadSignature2) else None
  {
    if |input| >= 3073 {
      assert input[1537..][..1536] == input[1537..3073];
      CheckIff(mac, input[1537..3073], key);
    }
  }

  /** What a client has done, given its own first packet and all that it received. */
  predicate ClientDid(mac: Mac, w: Half, validate: bool, input: seq<Byte>, side: Side) {
    && EndsWith(mac, input, false, validate, w.key, side.error)
    && |side.output| >= 1537 && side.output[..1537] == [3] + w.packet
    && (side.error.Some? ==> |side.output| == 1537)
    && (side.error.None? ==> SentEcho(input, side.output) && |input| >= 3073 && side.rest == input[3073..])
    && side.own == Some(w.key)
    && (side.error.None? && |input| >= 1537 ==> side.peer == Read1(mac, input[1..1537], false))
  }

  predicate ServerDid(mac: Mac, w: Half, validate: bool, input: seq<Byte>, side: Side) {
    && EndsWith(mac, input, true, validate, w.key, side.error)
    && (if Greeted(mac, input, true, validate) then
          SentEcho(input, side.output) && side.output[..1537] == [3] + w.packet
        else side.output == [])
    && (side.error.None? ==> |input| >= 3073 && side.rest == input[3073..])
    && (Greeted(mac, input, true, validate) ==>
          side.own == Some(w.key) && side.peer == Read1(mac, input[1..1537], true))
  }

  /**
   * A client and any server: it sends its version and first packet at once; its error, if any, is the one the input
   * calls for; and it answers with time and random bytes of what it received, only when all is well.
   */
  lemma ClientIff(mac: Mac, random: seq<Byte>, validate: bool, input: seq<Byte>)
    ensures ClientDid(mac, Write1(mac, 0, random, true), validate, input, Client(mac, random, validate, input))
  {
    hide Write1, Read1, Echo, ReadFinal, EndsSigned;
    var key := Write1(mac, 0, random, true).key;
    var hello := Hello(mac, random, true);
    if |input| >= 1537 {
      FinalIff(mac, input, key, validate);
      EchoIsSent(mac, hello, input, false);
    }
    hide SentEcho;
    assert hello == hello[..1537];
  }

  /** A server and any client: it answers a good first packet at once. */
  lemma ServerIff(mac: Mac, random: seq<Byte>, validate: bool, input: seq<Byte>)
    ensures ServerDid(mac, Write1(mac, 0, random, false), validate, input, Server(mac, random, validate, input))
  {
    hide Write1, Read1, Echo, ReadFinal, EndsSigned;
    var key := Write1(mac, 0, random, false).key;
    var hello := Hello(mac, random, false);
    if |input| >= 1537 {
      FinalIff(mac, input, key, validate);
      EchoIsSent(mac, hello, input, true);
      assert (hello + Echo(mac, input[1..1537], true))[..1537] == hello;
    }
    hide SentEcho;
  }

  lemma ClientAnswers(mac: Mac, random: seq<Byte>, validate: bool, input: seq<Byte>)
    requires Client(mac, random, validate, input).error.None?
    ensures SentEcho(input, Client(mac, random, validate, input).output)
  {
    hide SentEcho, EndsWith, Client, Write1, Read1;
    ClientIff(mac, random, validate, input);
  }

  lemma ServerAnswersAny(mac: Mac, random: seq<Byte>, validate: bool, input: seq<Byte>)
    requires Server(mac, random, validate, input).error.None?
    ensures SentEcho(input, Server(mac, random, validate, input).output)
  {
    hide SentEcho, Server, Write1, Read1;
    ServerIff(mac, random, validate, input);
  }
}
