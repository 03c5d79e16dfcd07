/** Typed messages by the numbers on the wire: what any raw message means, whoever wrote it. */
module MessageWire {
  import opened Bytes
  import opened RawMessage
  import opened Messages
  import MessageConn

  function Number24(b: seq<Byte>): int
    requires |b| == 3
  {
    65536 * (b[0] as int) + 256 * (b[1] as int) + b[2]
  }

  function Number32(b: seq<Byte>): int
    requires |b| == 4
  {
    16777216 * (b[0] as int) + 65536 * (b[1] as int) + 256 * (b[2] as int) + b[3]
  }

  /** The video codecs that have a four-character code: av01, vp09, hvc1. */
  predicate IsCode(f: seq<Byte>) {
    f == [0x61, 0x76, 0x30, 0x31] || f == [0x76, 0x70, 0x30, 0x39] || f == [0x68, 0x76, 0x63, 0x31]
  }

  predicate IsHevc(f: seq<Byte>) {
    f == [0x68, 0x76, 0x63, 0x31]
  }

  /** An extended video message: the top bit of the first byte is set, its low four bits tell the kind. */
  predicate Extended(raw: Message, kind: int, f: FourCC) {
    && raw.typ == 9 && |raw.body| >= 5
    && raw.body[0] >= 128 && raw.body[0] as int % 16 == kind && raw.body[1..5] == f && IsCode(f)
  }

  /** `raw` is a way of writing `m`; bits that are not mentioned are of no matter. */
  predicate Means(raw: Message, m: Msg) {
    var b := raw.body;
    match m
    case SetChunkSize(v) => raw.typ == 1 && raw.csid == 2 && |b| == 4 && v == Number32(b)
    case Acknowledge(v) => raw.typ == 3 && raw.csid == 2 && |b| == 4 && v == Number32(b)
    case SetWindowAckSize(v) => raw.typ == 5 && raw.csid == 2 && |b| == 4 && v == Number32(b)
    case SetPeerBandwidth(v, t) => raw.typ == 6 && raw.csid == 2 && |b| == 5 && v == Number32(b[..4]) && t == b[4]
    case UserControl(code, v) =>
      && raw.typ == 4 && raw.csid == 2 && |b| == 6 && code in {0, 1, 2, 4, 6, 7}
      && b[0] == 0 && b[1] == code && v == Number32(b[2..6])
    case SetBufferLength(stream, length) =>
      && raw.typ == 4 && raw.csid == 2 && |b| == 10 && b[0] == 0 && b[1] == 3
      && stream == Number32(b[2..6]) && length == Number32(b[6..10])
    case Audio(csid, dts, msid, codec, rate, depth, channels, aacType, payload) =>
      && raw.typ == 8 && csid == raw.csid && dts == raw.timestamp && msid == raw.msid && |b| >= 2
      && b[0] == 16 * codec + 4 * rate + 2 * depth + channels && rate < 4 && depth < 2 && channels < 2
      && (|| (codec == 2 && aacType == 0 && payload == b[1..])
          || (codec == 10 && aacType == b[1] <= 1 && payload == b[2..]))
    case Video(csid, dts, msid, codec, isKeyFrame, videoType, ptsDelta, payload) =>
      && raw.typ == 9 && csid == raw.csid && dts == raw.timestamp && msid == raw.msid && |b| >= 5
      && b[0] < 128 && codec == 7 == b[0] as int % 16 && (isKeyFrame <==> b[0] as int / 16 == 1)
      && videoType == b[1] <= 2 && ptsDelta == Number24(b[2..5]) * 1_000_000 && payload == b[5..]
    case CodedFrames(csid, dts, msid, f, ptsDelta, payload) =>
      && csid == raw.csid && dts == raw.timestamp && msid == raw.msid && Extended(raw, 1, f) && |b| >= 8
      && if IsHevc(f) then ptsDelta == Number24(b[5..8]) * 1_000_000 && payload == b[8..]
         else ptsDelta == 0 && payload == b[5..]
    case FramesX(csid, dts, msid, f, payload) =>
      csid == raw.csid && dts == raw.timestamp && msid == raw.msid && Extended(raw, 3, f) && payload == b[5..]
    case SequenceStart(f, config) => Extended(raw, 0, f) && config == b[5..]
    case SequenceEnd(f) => Extended(raw, 2, f) && |b| == 5
    case Command(csid, msid, amf) => raw.typ == 20 && csid == raw.csid && msid == raw.msid && amf == b
    case Data(csid, msid, amf) => raw.typ == 18 && csid == raw.csid && msid == raw.msid && amf == b
  }

  lemma Numbers(b: seq<Byte>)
    ensures |b| == 3 ==> FromBe24(b) == Number24(b)
    ensures |b| == 4 ==> FromBe32(b) == Number32(b)
  {
  }

  lemma ControlIff(raw: Message, m: Msg)
    requires raw.typ != 8 && raw.typ != 9
    ensures Decode(raw) == Some(m) <==> Means(raw, m)
  {
    hide DecodeAudio, DecodeVideo, DecodeExtended;
  }

  lemma Halves(x: nat)
    ensures x == 16 * (x / 16) + 4 * (x / 4 % 4) + 2 * (x / 2 % 2) + x % 2
  {
    var half, quarter := x / 2, x / 4;
    assert x == 2 * half + x % 2;
    assert half / 2 == quarter;
    assert half == 2 * quarter + half % 2;
    assert quarter / 4 == x / 16;
    assert quarter == 4 * (x / 16) + quarter % 4;
  }

  /** The four fields of the first byte of an audio message. */
  lemma AudioByteIff(first: Byte, codec: int, rate: int, depth: int, channels: int)
    ensures
      && codec == first as int / 16 && rate == first as int / 4 % 4
      && depth == first as int / 2 % 2 && channels == first as int % 2
      <==>
      && 0 <= rate < 4 && 0 <= depth < 2 && 0 <= channels < 2
      && first == 16 * codec + 4 * rate + 2 * depth + channels
  {
    var x := first as int;
    Halves(x);
    if 0 <= rate < 4 && 0 <= depth < 2 && 0 <= channels < 2 && x == 16 * codec + 4 * rate + 2 * depth + channels {
      AudioFields(x, codec, rate, depth, channels);
    }
  }

  lemma AudioIff(raw: Message, m: Msg)
    requires raw.typ == 8
    ensures Decode(raw) == Some(m) <==> Means(raw, m)
  {
    hide DecodeVideo, DecodeExtended, DecodeUserControl;
    if m.Audio? && |raw.body| >= 2 {
      AudioByteIff(raw.body[0], m.codec, m.rate, m.depth, m.channels);
    }
  }

  lemma VideoIff(raw: Message, m: Msg)
    requires raw.typ == 9
    ensures Decode(raw) == Some(m) <==> Means(raw, m)
  {
    hide DecodeAudio, DecodeUserControl, FromBe24, Number24;
    if |raw.body| >= 5 {
      Numbers(raw.body[2..5]);
    }
    if |raw.body| >= 8 {
      Numbers(raw.body[5..8]);
    }
  }

  /** Exactly the messages a raw message can mean are decoded from it. */
  lemma DecodeIff(raw: Message, m: Msg)
    ensures Decode(raw) == Some(m) <==> Means(raw, m)
  {
    hide Decode, Means;
    if raw.typ == 8 {
      AudioIff(raw, m);
    } else if raw.typ == 9 {
      VideoIff(raw, m);
    } else {
      ControlIff(raw, m);
    }
  }

  /** The messages that only a peer sends: the codec configuration and the end of a video sequence. */
  lemma SequenceDecodes(csid: Byte, time: Duration, msid: U32, f: FourCC, config: seq<Byte>)
    requires IsCode(f)
    ensures Decode(Message(csid, time, 9, msid, [0x80] + f + config)) == Some(SequenceStart(f, config))
    ensures Decode(Message(csid, time, 9, msid, [0x82] + f)) == Some(SequenceEnd(f))
  {
    var start := Message(csid, time, 9, msid, [0x80] + f + config);
    assert start.body[1..5] == f && start.body[5..] == config;
    DecodeIff(start, SequenceStart(f, config));
    var end := Message(csid, time, 9, msid, [0x82] + f);
    assert end.body[1..5] == f;
    DecodeIff(end, SequenceEnd(f));
  }

  // ---------------------------------------------------------------- what is written

  /** Whatever is in range is written so that it means itself; control messages all in one place, at time zero. */
  lemma MarshalMeans(m: Msg)
    requires InRange(m)
    ensures Marshal(m).Some? && Means(Marshal(m).value, m)
    ensures
      var raw := Marshal(m).value;
      && (raw.typ < 8 ==> raw.timestamp == 0 && raw.msid == 0)
      && (m.Command? || m.Data? ==> raw.timestamp == 0)
      && (m.Video? ==> raw.body[0] == if m.isKeyFrame then 0x17 else 0x27)
      && (m.CodedFrames? ==> raw.body[0] == 0x81) && (m.FramesX? ==> raw.body[0] == 0x83)
  {
    MessageRoundTrip(m);
    if m.Video? {
      VideoByteSplits(m.isKeyFrame);
    }
    hide OrByte, AudioFirstByte, Millis, Be16, Be24, Be32, Decode, Means;
    DecodeIff(Marshal(m).value, m);
  }

  /** An acknowledgement is of type 3, and the answer to a ping, code 6, is code 7 with the same four bytes. */
  lemma AnswerBytes(counts: seq<U32>, code: nat, time: U32)
    requires code in {0, 1, 2, 4, 6, 7}
    ensures
      var answers := MessageConn.Answers(counts, Some(UserControl(code, time)));
      && |answers| == |counts| + (if code == 6 then 1 else 0)
      && (forall k :: 0 <= k < |counts| ==>
            Means(Message(2, 0, 3, 0, Be32(counts[k])), answers[k]))
      && (code == 6 ==> Means(Message(2, 0, 4, 0, [0, 7] + Be32(time)), answers[|counts|]))
  {
    hide Means, Be32;
    forall k | 0 <= k < |counts|
      ensures Means(Message(2, 0, 3, 0, Be32(counts[k])), Acknowledge(counts[k]))
    {
      ReportMeans(counts[k]);
    }
    PongMeans(time);
  }

  lemma ReportMeans(count: U32)
    ensures Means(Message(2, 0, 3, 0, Be32(count)), Acknowledge(count))
  {
    Be32RoundTrip(count);
    Numbers(Be32(count));
    hide Be32, FromBe32, Number32;
  }

  lemma PongMeans(time: U32)
    ensures Means(Message(2, 0, 4, 0, [0, 7] + Be32(time)), UserControl(7, time))
  {
    Be32RoundTrip(time);
    Numbers(Be32(time));
    hide Be32, FromBe32, Number32;
    assert ([0, 7] + Be32(time))[2..6] == Be32(time);
  }
}
