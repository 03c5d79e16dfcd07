/** The digest handshake of an RTMP connection (internal/rtmp/handshake), with the keyed hash as a parameter. */
module Handshake {
  import opened Bytes

  const SIZE: nat := 1536
  const VERSION: Byte := 3

  type Digest = d: seq<Byte> | |d| == 32 witness seq(32, _ => 0)
  type Packet = p: seq<Byte> | |p| == SIZE witness seq(SIZE, _ => 0)

  /** HMAC-SHA256, of a key and some data. */
  type Mac = (seq<Byte>, seq<Byte>) -> Digest

  const SUFFIX: seq<Byte> := [
    0xF0, 0xEE, 0xC2, 0x4A, 0x80, 0x68, 0xBE, 0xE8, 0x2E, 0x00, 0xD0, 0xD1, 0x02, 0x9E, 0x7E, 0x57,
    0x6E, 0xEC, 0x5D, 0x2D, 0x29, 0x80, 0x6F, 0xAB, 0x93, 0xB8, 0xE6, 0x36, 0xCF, 0xEB, 0x31, 0xAE]

  function Ascii(s: string): seq<Byte> {
    seq(|s|, i requires 0 <= i < |s| => s[i] as int % 0x100)
  }

  function ClientPartialKey(): seq<Byte> { Ascii("Genuine Adobe Flash Player 001") }
  function ServerPartialKey(): seq<Byte> { Ascii("Genuine Adobe Flash Media Server 001") }
  function ClientFullKey(): seq<Byte> { ClientPartialKey() + SUFFIX }
  function ServerFullKey(): seq<Byte> { ServerPartialKey() + SUFFIX }

  // ---------------------------------------------------------------- digests

  /** The digest's place, chosen by the four bytes at `base`. */
  function DigestPos(p: Packet, base: nat): nat
    requires base == 8 || base == 772
  {
    (p[base] + p[base + 1] + p[base + 2] + p[base + 3]) % 728 + base + 4
  }

  /** Both places lie inside the packet, after their own offset bytes, and apart from each other and the other's. */
  lemma DigestWindows(p: Packet)
    ensures 8 + 4 <= DigestPos(p, 8) && DigestPos(p, 8) + 32 <= 771 < 772
    ensures 772 + 4 <= DigestPos(p, 772) && DigestPos(p, 772) + 32 <= SIZE - 1
  {
  }

  /** The hash of `src` without the 32 bytes at `gap`, or of all of it. */
  function MakeDigest(mac: Mac, key: seq<Byte>, src: seq<Byte>, gap: int): Digest
    requires gap > 0 ==> gap + 32 <= |src|
  {
    if gap <= 0 then mac(key, src) else mac(key, src[..gap] + src[gap + 32..])
  }

  function FindDigest(mac: Mac, p: Packet, key: seq<Byte>, base: nat): Option<nat>
    requires base == 8 || base == 772
  {
    var gap := DigestPos(p, base);
    if p[gap..gap + 32] == MakeDigest(mac, key, p, gap) then Some(gap) else None
  }

  /** Finds the peer's digest, at the second place first, and derives a key from it. */
  function Parse1(mac: Mac, p: Packet, peerKey: seq<Byte>, key: seq<Byte>): Option<Digest> {
    var second := FindDigest(mac, p, peerKey, 772);
    var pos := if second.Some? then second else FindDigest(mac, p, peerKey, 8);
    if pos.None? then None else Some(mac(key, p[pos.value..pos.value + 32]))
  }

  /** Puts bytes over part of a packet. */
  function Overwrite(p: Packet, at: nat, bytes: seq<Byte>): Packet
    requires at + |bytes| <= SIZE
  {
    p[..at] + bytes + p[at + |bytes|..]
  }

  function Sign1(mac: Mac, p: Packet, key: seq<Byte>): Packet {
    Overwrite(p, DigestPos(p, 8), MakeDigest(mac, key, p, DigestPos(p, 8)))
  }

  /** Signing does not move the digest's place or change what is hashed, so the digest is found again. */
  lemma SignedIsFound(mac: Mac, p: Packet, key: seq<Byte>)
    ensures
      var gap := DigestPos(p, 8);
      var signed := Sign1(mac, p, key);
      && FindDigest(mac, signed, key, 8) == Some(gap)
      && signed[gap..gap + 32] == MakeDigest(mac, key, p, gap)
      && signed[..12] == p[..12] && signed[771..] == p[771..]
  {
    DigestWindows(p);
    var gap := DigestPos(p, 8);
    var signed := Sign1(mac, p, key);
    assert signed[8] == p[8] && signed[9] == p[9] && signed[10] == p[10] && signed[11] == p[11];
    assert signed[..gap] + signed[gap + 32..] == p[..gap] + p[gap + 32..];
  }

  // ---------------------------------------------------------------- packets

  /** Random bytes as they are copied in: cut to the room there is, or followed by zeros. */
  function Padded(random: seq<Byte>): (r: seq<Byte>)
    ensures |r| == SIZE - 8
  {
    if |random| >= SIZE - 8 then random[..SIZE - 8] else random + seq(SIZE - 8 - |random|, _ => 0)
  }

  datatype Half = Half(packet: Packet, key: Digest)

  /** C1 or S1 as it is written, with the key its writer derives. */
  function Write1(mac: Mac, time: U32, random: seq<Byte>, isC1: bool): Half {
    var p := Be32(time) + [0, 0, 0, 0] + Padded(random);
    var signed := Sign1(mac, p, if isC1 then ClientPartialKey() else ServerPartialKey());
    var gap := DigestPos(p, 8);
    Half(signed, mac(if isC1 then ServerFullKey() else ClientFullKey(), signed[gap..gap + 32]))
  }

  /** The key the reader of C1 or S1 derives, if it finds the digest. */
  function Read1(mac: Mac, p: Packet, isC1: bool): Option<Digest> {
    if isC1 then Parse1(mac, p, ClientPartialKey(), ServerFullKey())
    else Parse1(mac, p, ServerPartialKey(), ClientFullKey())
  }

  /** A digest that happens to be valid at the second place, which is looked at first. */
  predicate Accident(mac: Mac, p: Packet, isC1: bool) {
    FindDigest(mac, p, if isC1 then ClientPartialKey() else ServerPartialKey(), 772).Some?
  }

  /** Reader and writer of C1 or S1: the signature is always found, and the keys agree but for an accident. */
  lemma KeysAgree(mac: Mac, time: U32, random: seq<Byte>, isC1: bool)
    ensures
      var w := Write1(mac, time, random, isC1);
      && Read1(mac, w.packet, isC1).Some?
      && (!Accident(mac, w.packet, isC1) ==> Read1(mac, w.packet, isC1) == Some(w.key))
      && FromBe32(w.packet[..4]) == time
  {
    hide ClientPartialKey, ServerPartialKey, ClientFullKey, ServerFullKey, DigestPos, FindDigest, Sign1, MakeDigest;
    hide Be32, FromBe32, Padded;
    var p: Packet := Be32(time) + [0, 0, 0, 0] + Padded(random);
    var key := if isC1 then ClientPartialKey() else ServerPartialKey();
    SignedIsFound(mac, p, key);
    SameTime(p, Sign1(mac, p, key), time);
  }

  lemma SameTime(p: Packet, signed: Packet, time: U32)
    requires p[..4] == Be32(time) && signed[..12] == p[..12]
    ensures FromBe32(signed[..4]) == time
  {
    assert signed[..4] == signed[..12][..4] == p[..12][..4] == p[..4];
    Be32RoundTrip(time);
  }

  /** C2 or S2 as it is written: signed over its last 32 bytes when there is a key. */
  function Write2(mac: Mac, time: U32, time2: U32, random: seq<Byte>, key: Option<Digest>): Packet {
    var p := Be32(time) + Be32(time2) + Padded(random);
    if key.None? then p else Overwrite(p, SIZE - 32, MakeDigest(mac, key.value, p, SIZE - 32))
  }

  predicate Check2(mac: Mac, p: Packet, key: Digest) {
    p[SIZE - 32..] == MakeDigest(mac, key, p, SIZE - 32)
  }

  lemma Signed2Checks(mac: Mac, time: U32, time2: U32, random: seq<Byte>, key: Digest)
    ensures
      var p := Write2(mac, time, time2, random, Some(key));
      && Check2(mac, p, key)
      && p[..SIZE - 32] == (Be32(time) + Be32(time2) + Padded(random))[..SIZE - 32]
  {
    var p: Packet := Be32(time) + Be32(time2) + Padded(random);
    var signed := Write2(mac, time, time2, random, Some(key));
    assert signed[..SIZE - 32] == p[..SIZE - 32];
    assert signed[SIZE - 32..][32..] == p[SIZE - 32..][32..] == [];
  }

  // ---------------------------------------------------------------- the two sides

  datatype Error = ShortRead | BadVersion | BadSignature1 | BadSignature2

  /** How a side ends: what it wrote, what it left unread, its error if any, and the two keys it derived. */
  datatype Side = Side(
    output: seq<Byte>, rest: seq<Byte>, error: Option<Error>, own: Option<Digest>, peer: Option<Digest>)

  /** A side that reads version and first packet of its peer from the front of the input. */
  function ReadHello(mac: Mac, input: seq<Byte>, isC1: bool, validate: bool): Option<Error> {
    if |input| < 1 then Some(ShortRead)
    else if input[0] != VERSION then Some(BadVersion)
    else if |input| < 1 + SIZE then Some(ShortRead)
    else if validate && Read1(mac, input[1..1 + SIZE], isC1).None? then Some(BadSignature1)
    else None
  }

  function ReadFinal(mac: Mac, input: seq<Byte>, key: Digest, validate: bool): Option<Error> {
    if |input| < SIZE then Some(ShortRead)
    else if validate && !Check2(mac, input[..SIZE], key) then Some(BadSignature2)
    else None
  }

  /** What a client sends without waiting for anything. `random` fills C1. */
  function Hello(mac: Mac, random: seq<Byte>, isC1: bool): (r: seq<Byte>)
    ensures |r| == 1 + SIZE
  {
    [VERSION] + Write1(mac, 0, random, isC1).packet
  }

  /** The answer to the first packet: its time and random bytes back, signed with the key derived from it. */
  function Echo(mac: Mac, p: Packet, isC1: bool): Packet {
    Write2(mac, FromBe32(p[..4]), 0, p[8..], Read1(mac, p, isC1))
  }

  function Client(mac: Mac, random: seq<Byte>, validate: bool, input: seq<Byte>): Side {
    var own := Write1(mac, 0, random, true).key;
    var hello := Hello(mac, random, true);
    var e1 := ReadHello(mac, input, false, validate);
    if e1.Some? then Side(hello, [], e1, Some(own), None)
    else
      var s1 := input[1..1 + SIZE];
      var e2 := ReadFinal(mac, input[1 + SIZE..], own, validate);
      if e2.Some? then Side(hello, [], e2, Some(own), Read1(mac, s1, false))
      else Side(hello + Echo(mac, s1, false), input[1 + 2 * SIZE..], None, Some(own), Read1(mac, s1, false))
  }

  function Server(mac: Mac, random: seq<Byte>, validate: bool, input: seq<Byte>): Side {
    var e1 := ReadHello(mac, input, true, validate);
    if e1.Some? then Side([], [], e1, None, None)
    else
      var c1 := input[1..1 + SIZE];
      var own := Write1(mac, 0, random, false).key;
      var output := Hello(mac, random, false) + Echo(mac, c1, true);
      var e2 := ReadFinal(mac, input[1 + SIZE..], own, validate);
      if e2.Some? then Side(output, [], e2, Some(own), Read1(mac, c1, true))
      else Side(output, input[1 + 2 * SIZE..], None, Some(own), Read1(mac, c1, true))
  }

  /** A first packet from a genuine peer is always accepted. */
  lemma HelloAccepted(mac: Mac, random: seq<Byte>, isC1: bool, validate: bool, rest: seq<Byte>)
    ensures
      var input := Hello(mac, random, isC1) + rest;
      && ReadHello(mac, input, isC1, validate).None?
      && input[1..1 + SIZE] == Write1(mac, 0, random, isC1).packet
      && input[1 + SIZE..] == rest
  {
    KeysAgree(mac, 0, random, isC1);
    hide Write1, Read1;
    var input := Hello(mac, random, isC1) + rest;
    assert input[1..1 + SIZE] == Write1(mac, 0, random, isC1).packet;
    assert input[1 + SIZE..] == rest;
  }

  /** The echo of a first packet passes its writer's check, but for an accident. */
  lemma EchoAccepted(mac: Mac, time: U32, random: seq<Byte>, isC1: bool, validate: bool, rest: seq<Byte>)
    ensures
      var w := Write1(mac, time, random, isC1);
      && (!validate || !Accident(mac, w.packet, isC1) ==>
          ReadFinal(mac, Echo(mac, w.packet, isC1) + rest, w.key, validate).None?)
      && (Echo(mac, w.packet, isC1) + rest)[SIZE..] == rest
  {
    var w := Write1(mac, time, random, isC1);
    KeysAgree(mac, time, random, isC1);
    hide Write1, Read1, Accident;
    var echo := Echo(mac, w.packet, isC1);
    assert (echo + rest)[..SIZE] == echo;
    if Read1(mac, w.packet, isC1) == Some(w.key) {
      Signed2Checks(mac, time, 0, w.packet[8..], w.key);
    }
  }

  lemma ClientStarts(mac: Mac, cr: seq<Byte>, cv: bool)
    ensures Client(mac, cr, cv, []).output == Hello(mac, cr, true)
  {
    hide Write1, Read1, Hello, Echo;
  }

  lemma ServerAnswers(mac: Mac, cr: seq<Byte>, sr: seq<Byte>, sv: bool)
    ensures
      Server(mac, sr, sv, Hello(mac, cr, true)).output
      == Hello(mac, sr, false) + Echo(mac, Write1(mac, 0, cr, true).packet, true)
  {
    HelloAccepted(mac, cr, true, sv, []);
    assert Hello(mac, cr, true) + [] == Hello(mac, cr, true);
    hide Write1, Read1, Echo, Hello, ReadHello, ReadFinal;
  }

  lemma ClientEnds(mac: Mac, random: seq<Byte>, validate: bool, input: seq<Byte>)
    requires |input| >= 1 + 2 * SIZE && ReadHello(mac, input, false, validate).None?
    requires ReadFinal(mac, input[1 + SIZE..], Write1(mac, 0, random, true).key, validate).None?
    ensures
      var s1 := input[1..1 + SIZE];
      Client(mac, random, validate, input)
      == Side(Hello(mac, random, true) + Echo(mac, s1, false), input[1 + 2 * SIZE..], None,
              Some(Write1(mac, 0, random, true).key), Read1(mac, s1, false))
  {
    hide Write1, Read1, Echo, Hello, ReadHello, ReadFinal;
  }

  lemma ServerEnds(mac: Mac, random: seq<Byte>, validate: bool, input: seq<Byte>)
    requires |input| >= 1 + 2 * SIZE && ReadHello(mac, input, true, validate).None?
    requires ReadFinal(mac, input[1 + SIZE..], Write1(mac, 0, random, false).key, validate).None?
    ensures
      var c1 := input[1..1 + SIZE];
      Server(mac, random, validate, input)
      == Side(Hello(mac, random, false) + Echo(mac, c1, true), input[1 + 2 * SIZE..], None,
              Some(Write1(mac, 0, random, false).key), Read1(mac, c1, true))
  {
    hide Write1, Read1, Echo, Hello, ReadHello, ReadFinal;
  }

  lemma ClientDone(mac: Mac, cr: seq<Byte>, sr: seq<Byte>, cv: bool, rest: seq<Byte>)
    requires cv ==> !Accident(mac, Write1(mac, 0, cr, true).packet, true)
    ensures
      var c, s := Write1(mac, 0, cr, true), Write1(mac, 0, sr, false);
      Client(mac, cr, cv, Hello(mac, sr, false) + Echo(mac, c.packet, true) + rest)
      == Side(Hello(mac, cr, true) + Echo(mac, s.packet, false), rest, None, Some(c.key), Read1(mac, s.packet, false))
  {
    hide Write1, Read1, Accident, Echo, Hello, ReadHello, ReadFinal, Client;
    var c := Write1(mac, 0, cr, true);
    var hello, echo := Hello(mac, sr, false), Echo(mac, c.packet, true);
    assert hello + echo + rest == hello + (echo + rest);
    HelloAccepted(mac, sr, false, cv, echo + rest);
    EchoAccepted(mac, 0, cr, true, cv, rest);
    var input := hello + (echo + rest);
    assert input[1 + 2 * SIZE..] == input[1 + SIZE..][SIZE..] == rest;
    ClientEnds(mac, cr, cv, input);
  }

  lemma ServerDone(mac: Mac, cr: seq<Byte>, sr: seq<Byte>, sv: bool, rest: seq<Byte>)
    requires sv ==> !Accident(mac, Write1(mac, 0, sr, false).packet, false)
    ensures
      var c, s := Write1(mac, 0, cr, true), Write1(mac, 0, sr, false);
      Server(mac, sr, sv, Hello(mac, cr, true) + Echo(mac, s.packet, false) + rest)
      == Side(Hello(mac, sr, false) + Echo(mac, c.packet, true), rest, None, Some(s.key), Read1(mac, c.packet, true))
  {
    hide Write1, Read1, Accident, Echo, Hello, ReadHello, ReadFinal, Server;
    var s := Write1(mac, 0, sr, false);
    var hello, echo := Hello(mac, cr, true), Echo(mac, s.packet, false);
    assert hello + echo + rest == hello + (echo + rest);
    HelloAccepted(mac, cr, true, sv, echo + rest);
    EchoAccepted(mac, 0, sr, false, sv, rest);
    var input := hello + (echo + rest);
    assert input[1 + 2 * SIZE..] == input[1 + SIZE..][SIZE..] == rest;
    ServerEnds(mac, sr, sv, input);
  }

  /**
   * Client and server complete against each other, whatever each of them validates and whatever follows on the
   * connection, unless a validating side's own first packet carries a digest by accident; and where neither does,
   * each side has derived both keys as the other has. Neither waits for bytes the other has not yet sent: what the
   * client sends first and what the server answers are fixed by what precedes them.
   */
  lemma HandshakeCompletes(mac: Mac, cr: seq<Byte>, sr: seq<Byte>, cv: bool, sv: bool,
                           fromServer: seq<Byte>, fromClient: seq<Byte>)
    requires cv ==> !Accident(mac, Write1(mac, 0, cr, true).packet, true)
    requires sv ==> !Accident(mac, Write1(mac, 0, sr, false).packet, false)
    ensures
      var c1 := Client(mac, cr, cv, []).output;
      var s := Server(mac, sr, sv, c1).output;
      var client := Client(mac, cr, cv, s + fromServer);
      var server := Server(mac, sr, sv, client.output + fromClient);
      && client.error.None? && client.rest == fromServer && c1 <= client.output
      && server.error.None? && server.rest == fromClient && server.output == s
      && (!Accident(mac, Write1(mac, 0, cr, true).packet, true) ==> client.own == server.peer)
      && (!Accident(mac, Write1(mac, 0, sr, false).packet, false) ==> server.own == client.peer)
  {
    var c, s := Write1(mac, 0, cr, true), Write1(mac, 0, sr, false);
    KeysAgree(mac, 0, cr, true);
    KeysAgree(mac, 0, sr, false);
    hide Write1, Read1, Accident, Hello, Echo, Client, Server;
    var c1, s1 := Hello(mac, cr, true), Hello(mac, sr, false);
    var s2, c2 := Echo(mac, c.packet, true), Echo(mac, s.packet, false);
    ClientStarts(mac, cr, cv);
    ServerAnswers(mac, cr, sr, sv);
    ClientDone(mac, cr, sr, cv, fromServer);
    ServerDone(mac, cr, sr, sv, fromClient);
  }

  /** The key that the 32 bytes at the second place of a first packet give. */
  function SecondKey(mac: Mac, p: Packet, isC1: bool): Digest {
    var at := DigestPos(p, 772);
    mac(if isC1 then ServerFullKey() else ClientFullKey(), p[at..at + 32])
  }

  /**
   * The first packet of a side has no digest that happens to be valid at the second place; or it has, and the key from
   * there gives the same hash of what the peer will send back as the side's own key.
   */
  predicate SameSignature(mac: Mac, time: U32, random: seq<Byte>, isC1: bool) {
    var w := Write1(mac, time, random, isC1);
    Accident(mac, w.packet, isC1) ==>
      var p := Write2(mac, time, 0, w.packet[8..], None);
      MakeDigest(mac, SecondKey(mac, w.packet, isC1), p, SIZE - 32) == MakeDigest(mac, w.key, p, SIZE - 32)
  }

  /** The second place is looked at first. */
  lemma AccidentalKey(mac: Mac, p: Packet, isC1: bool)
    requires Accident(mac, p, isC1)
    ensures Read1(mac, p, isC1) == Some(SecondKey(mac, p, isC1))
  {
    hide ClientPartialKey, ServerPartialKey, ClientFullKey, ServerFullKey, DigestPos, MakeDigest;
  }

  lemma EchoChecksIff(mac: Mac, time: U32, random: seq<Byte>, isC1: bool)
    ensures
      var w := Write1(mac, time, random, isC1);
      && (Check2(mac, Echo(mac, w.packet, isC1), w.key) <==> SameSignature(mac, time, random, isC1))
      && (!Accident(mac, w.packet, isC1) ==> SameSignature(mac, time, random, isC1))
  {
    KeysAgree(mac, time, random, isC1);
    hide Write1, Read1, Accident, SecondKey;
    var w := Write1(mac, time, random, isC1);
    if Accident(mac, w.packet, isC1) {
      AccidentalKey(mac, w.packet, isC1);
    }
    var derived := Read1(mac, w.packet, isC1).value;
    Signed2Checks(mac, time, 0, w.packet[8..], derived);
    var p := Write2(mac, time, 0, w.packet[8..], None);
    var echo := Echo(mac, w.packet, isC1);
    assert echo[..SIZE - 32] == p[..SIZE - 32];
  }

  /**
   * Client and server complete against each other if and only if each side that validates gets its echo signed as it
   * would sign it itself; without an accident it always does.
   */
  lemma HandshakeCompletesIff(mac: Mac, cr: seq<Byte>, sr: seq<Byte>, cv: bool, sv: bool)
    ensures
      var s := Server(mac, sr, sv, Hello(mac, cr, true)).output;
      var client := Client(mac, cr, cv, s);
      var server := Server(mac, sr, sv, client.output);
      client.error.None? && server.error.None?
      <==> (cv ==> SameSignature(mac, 0, cr, true)) && (sv ==> SameSignature(mac, 0, sr, false))
  {
    hide Write1, Read1, Accident, Hello, Echo, Client, Server, SameSignature, Check2;
    ServerAnswers(mac, cr, sr, sv);
    EchoChecksIff(mac, 0, cr, true);
    EchoChecksIff(mac, 0, sr, false);
    ClientAgainstServer(mac, cr, sr, cv);
    ServerAgainstClient(mac, cr, sr, sv);
  }

  lemma ClientAgainstServer(mac: Mac, cr: seq<Byte>, sr: seq<Byte>, cv: bool)
    ensures
      var c, s := Write1(mac, 0, cr, true), Write1(mac, 0, sr, false);
      var client := Client(mac, cr, cv, Hello(mac, sr, false) + Echo(mac, c.packet, true));
      if cv && !Check2(mac, Echo(mac, c.packet, true), c.key) then client.error.Some?
      else client.error.None? && client.output == Hello(mac, cr, true) + Echo(mac, s.packet, false)
  {
    hide Write1, Read1, Accident, Hello, Echo, ReadHello, Check2;
    var c := Write1(mac, 0, cr, true);
    var hello, echo := Hello(mac, sr, false), Echo(mac, c.packet, true);
    HelloAccepted(mac, sr, false, cv, echo);
    assert (hello + echo)[1 + SIZE..] == echo && echo[..SIZE] == echo;
  }

  lemma ServerAgainstClient(mac: Mac, cr: seq<Byte>, sr: seq<Byte>, sv: bool)
    ensures
      var s := Write1(mac, 0, sr, false);
      var hello, echo := Hello(mac, cr, true), Echo(mac, s.packet, false);
      Server(mac, sr, sv, hello + echo).error.None? <==> (sv ==> Check2(mac, echo, s.key))
  {
    hide Write1, Read1, Accident, Hello, Echo, ReadHello, Check2;
    var s := Write1(mac, 0, sr, false);
    var hello, echo := Hello(mac, cr, true), Echo(mac, s.packet, false);
    HelloAccepted(mac, cr, true, sv, echo);
    assert (hello + echo)[1 + SIZE..] == echo && echo[..SIZE] == echo;
  }
}
