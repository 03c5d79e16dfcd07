/** Typed RTMP messages: marshalling, dispatch and unmarshalling (internal/rtmp/message). */
module Messages {
  import opened Bytes
  import opened RawMessage

  const CONTROL_STREAM: Byte := 2

  const SET_CHUNK_SIZE: Byte := 1
  const ACKNOWLEDGE: Byte := 3
  const USER_CONTROL: Byte := 4
  const SET_WINDOW_ACK_SIZE: Byte := 5
  const SET_PEER_BANDWIDTH: Byte := 6
  const AUDIO: Byte := 8
  const VIDEO: Byte := 9
  const DATA_AMF0: Byte := 18
  const COMMAND_AMF0: Byte := 20

  const BUFFER_LENGTH: nat := 3
  const PING_REQUEST: nat := 6
  const PING_RESPONSE: nat := 7

  const CODEC_H264: Byte := 7
  const CODEC_MPEG2_AUDIO: Byte := 2
  const CODEC_MPEG4_AUDIO: Byte := 10

  const EXT_SEQUENCE_START: Byte := 0
  const EXT_CODED_FRAMES: Byte := 1
  const EXT_SEQUENCE_END: Byte := 2
  const EXT_FRAMES_X: Byte := 3

  type FourCC = s: seq<Byte> | |s| == 4 witness [0, 0, 0, 0]

  const AV1: FourCC := [0x61, 0x76, 0x30, 0x31]   // "av01"
  const VP9: FourCC := [0x76, 0x70, 0x30, 0x39]   // "vp09"
  const HEVC: FourCC := [0x68, 0x76, 0x63, 0x31]  // "hvc1"

  predicate KnownFourCC(f: FourCC) {
    f == AV1 || f == VP9 || f == HEVC
  }

  /** AMF0 bodies stay opaque; the user control messages with one 32-bit field share one shape. */
  datatype Msg =
    | SetChunkSize(value: U32)
    | Acknowledge(value: U32)
    | SetWindowAckSize(value: U32)
    | SetPeerBandwidth(value: U32, limitType: Byte)
    | UserControl(code: nat, value: U32)
    | SetBufferLength(streamId: U32, bufferLength: U32)
    | Audio(csid: Byte, dts: Duration, msid: U32, codec: Byte, rate: Byte, depth: Byte, channels: Byte,
            aacType: Byte, payload: seq<Byte>)
    | Video(csid: Byte, dts: Duration, msid: U32, codec: Byte, isKeyFrame: bool, videoType: Byte,
            ptsDelta: Duration, payload: seq<Byte>)
    | CodedFrames(csid: Byte, dts: Duration, msid: U32, fourCC: FourCC, ptsDelta: Duration, payload: seq<Byte>)
    | FramesX(csid: Byte, dts: Duration, msid: U32, fourCC: FourCC, payload: seq<Byte>)
    | SequenceStart(fourCC: FourCC, config: seq<Byte>)
    | SequenceEnd(fourCC: FourCC)
    | Command(csid: Byte, msid: U32, amf: seq<Byte>)
    | Data(csid: Byte, msid: U32, amf: seq<Byte>)

  /** The user control codes with a single 32-bit field. */
  predicate SingleFieldCode(code: int) {
    code in {0, 1, 2, 4, PING_REQUEST, PING_RESPONSE}
  }

  // ---------------------------------------------------------------- marshalling

  /** `x << k` in a byte: the bits that leave it are lost. */
  function ShiftByte(x: Byte, k: nat): Byte {
    Shift(x, k) % 0x100
  }

  function AudioFirstByte(codec: Byte, rate: Byte, depth: Byte, channels: Byte): Byte {
    OrByte(OrByte(OrByte(ShiftByte(codec, 4), ShiftByte(rate, 2)), ShiftByte(depth, 1)), channels)
  }

  function VideoFirstByte(isKeyFrame: bool, codec: Byte): Byte {
    OrByte(if isKeyFrame then 0x10 else 0x20, codec)
  }

  function Control(typ: Byte, body: seq<Byte>): Message {
    Message(CONTROL_STREAM, 0, typ, 0, body)
  }

  /** The raw message of a typed one; None where the source has not implemented marshalling. */
  function Marshal(m: Msg): Option<Message> {
    match m
    case SetChunkSize(v) => Some(Control(SET_CHUNK_SIZE, Be32(v)))
    case Acknowledge(v) => Some(Control(ACKNOWLEDGE, Be32(v)))
    case SetWindowAckSize(v) => Some(Control(SET_WINDOW_ACK_SIZE, Be32(v)))
    case SetPeerBandwidth(v, t) => Some(Control(SET_PEER_BANDWIDTH, Be32(v) + [t]))
    case UserControl(code, v) => Some(Control(USER_CONTROL, Be16(code) + Be32(v)))
    case SetBufferLength(s, n) => Some(Control(USER_CONTROL, Be16(BUFFER_LENGTH) + Be32(s) + Be32(n)))
    case Audio(csid, dts, msid, codec, rate, depth, channels, aacType, payload) =>
      var head := [AudioFirstByte(codec, rate, depth, channels)];
      var body := if codec == CODEC_MPEG2_AUDIO then head + payload else head + [aacType] + payload;
      Some(Message(csid, dts, AUDIO, msid, body))
    case Video(csid, dts, msid, codec, key, videoType, ptsDelta, payload) =>
      Some(Message(csid, dts, VIDEO, msid, [VideoFirstByte(key, codec), videoType] + Be24(Millis(ptsDelta)) + payload))
    case CodedFrames(csid, dts, msid, fourCC, ptsDelta, payload) =>
      var time := if fourCC == HEVC then Be24(Millis(ptsDelta)) else [];
      Some(Message(csid, dts, VIDEO, msid, [0x80 + EXT_CODED_FRAMES] + fourCC + time + payload))
    case FramesX(csid, dts, msid, fourCC, payload) =>
      Some(Message(csid, dts, VIDEO, msid, [0x80 + EXT_FRAMES_X] + fourCC + payload))
    case SequenceStart(_, _) => None
    case SequenceEnd(_) => None
    case Command(csid, msid, amf) => Some(Message(csid, 0, COMMAND_AMF0, msid, amf))
    case Data(csid, msid, amf) => Some(Message(csid, 0, DATA_AMF0, msid, amf))
  }

  // ---------------------------------------------------------------- dispatch and unmarshalling

  function DecodeUserControl(raw: Message): Option<Msg> {
    var b := raw.body;
    if |b| < 2 then None
    else
      var code := FromBe16(b[..2]);
      if SingleFieldCode(code) then
        if raw.csid == CONTROL_STREAM && |b| == 6 then Some(UserControl(code, FromBe32(b[2..6]))) else None
      else if code == BUFFER_LENGTH then
        if raw.csid != CONTROL_STREAM || |b| != 10 then None
        else Some(SetBufferLength(FromBe32(b[2..6]), FromBe32(b[6..10])))
      else None
  }

  function DecodeAudio(raw: Message): Option<Msg> {
    var b := raw.body;
    if |b| < 2 then None
    else
      var first := b[0] as int;
      var codec := first / 16;
      var rate, depth, channels := first / 4 % 4, first / 2 % 2, first % 2;
      if codec == CODEC_MPEG2_AUDIO then
        Some(Audio(raw.csid, raw.timestamp, raw.msid, codec, rate, depth, channels, 0, b[1..]))
      else if codec == CODEC_MPEG4_AUDIO && b[1] <= 1 then
        Some(Audio(raw.csid, raw.timestamp, raw.msid, codec, rate, depth, channels, b[1], b[2..]))
      else None
  }

  function DecodeVideo(raw: Message): Option<Msg>
    requires |raw.body| >= 5
  {
    var b := raw.body;
    var codec := b[0] as int % 16;
    if codec != CODEC_H264 || b[1] > 2 then None
    else
      Some(Video(raw.csid, raw.timestamp, raw.msid, codec, b[0] as int / 16 == 1, b[1],
                 FromBe24(b[2..5]) * MILLISECOND, b[5..]))
  }

  function DecodeExtended(raw: Message): Option<Msg>
    requires |raw.body| >= 5
  {
    var b := raw.body;
    var fourCC: FourCC := b[1..5];
    var kind := b[0] as int % 16;
    if !KnownFourCC(fourCC) then None
    else if kind == EXT_SEQUENCE_START then Some(SequenceStart(fourCC, b[5..]))
    else if kind == EXT_CODED_FRAMES then
      if |b| < 8 then None
      else if fourCC == HEVC then
        Some(CodedFrames(raw.csid, raw.timestamp, raw.msid, fourCC, FromBe24(b[5..8]) * MILLISECOND, b[8..]))
      else Some(CodedFrames(raw.csid, raw.timestamp, raw.msid, fourCC, 0, b[5..]))
    else if kind == EXT_SEQUENCE_END then
      if |b| == 5 then Some(SequenceEnd(fourCC)) else None
    else if kind == EXT_FRAMES_X then Some(FramesX(raw.csid, raw.timestamp, raw.msid, fourCC, b[5..]))
    else None
  }

  /** The typed message of a raw one; None for everything dispatch or unmarshalling rejects. */
  function Decode(raw: Message): Option<Msg> {
    var b := raw.body;
    if raw.typ == SET_CHUNK_SIZE || raw.typ == ACKNOWLEDGE || raw.typ == SET_WINDOW_ACK_SIZE then
      if raw.csid != CONTROL_STREAM || |b| != 4 then None
      else
        var v := FromBe32(b);
        Some(if raw.typ == SET_CHUNK_SIZE then SetChunkSize(v)
             else if raw.typ == ACKNOWLEDGE then Acknowledge(v) else SetWindowAckSize(v))
    else if raw.typ == SET_PEER_BANDWIDTH then
      if raw.csid != CONTROL_STREAM || |b| != 5 then None else Some(SetPeerBandwidth(FromBe32(b[..4]), b[4]))
    else if raw.typ == USER_CONTROL then DecodeUserControl(raw)
    else if raw.typ == COMMAND_AMF0 then Some(Command(raw.csid, raw.msid, b))
    else if raw.typ == DATA_AMF0 then Some(Data(raw.csid, raw.msid, b))
    else if raw.typ == AUDIO then DecodeAudio(raw)
    else if raw.typ == VIDEO then
      if |b| < 5 then None
      else if b[0] >= 0x80 then DecodeExtended(raw)
      else DecodeVideo(raw)
    else None
  }

  // ---------------------------------------------------------------- round trip

  /** The field values the wire form can tell apart. */
  predicate InRange(m: Msg) {
    match m
    case UserControl(code, _) => SingleFieldCode(code)
    case Audio(_, _, _, codec, rate, depth, channels, aacType, payload) =>
      && rate < 4 && depth < 2 && channels < 2
      && (|| (codec == CODEC_MPEG2_AUDIO && aacType == 0 && payload != [])
          || (codec == CODEC_MPEG4_AUDIO && aacType <= 1))
    case Video(_, _, _, codec, _, videoType, ptsDelta, _) =>
      codec == CODEC_H264 && videoType <= 2 && WholeMillis(ptsDelta, LIMIT24)
    case CodedFrames(_, _, _, fourCC, ptsDelta, payload) =>
      && KnownFourCC(fourCC)
      && if fourCC == HEVC then WholeMillis(ptsDelta, LIMIT24) else ptsDelta == 0 && |payload| >= 3
    case FramesX(_, _, _, fourCC, _) => KnownFourCC(fourCC)
    case SequenceStart(_, _) => false
    case SequenceEnd(_) => false
    case _ => true
  }

  lemma MillisRoundTrip(d: Duration)
    ensures FromBe24(Be24(Millis(d))) * MILLISECOND == d <==> WholeMillis(d, LIMIT24)
  {
    Be24RoundTrip(Millis(d));
    hide Be24, FromBe24;
    if d >= 0 {
      var q, r := d as int / MILLISECOND, d as int % MILLISECOND;
      LowMillis(d, q);
      assert d == q * MILLISECOND + r;
    }
  }

  lemma LowMillis(d: Duration, q: nat)
    requires d >= 0 && q == d as int / MILLISECOND
    ensures Millis(d) as int % LIMIT24 == q % LIMIT24
  {
    assert q == 0x100 * LIMIT24 * (q / LIMIT32) + q % LIMIT32;
  }

  lemma SmallShifts(m: nat)
    ensures Shift(m, 1) == 2 * m && Shift(m, 2) == 4 * m && Shift(m, 4) == 16 * m
    ensures Pow2(1) == 2 && Pow2(2) == 4 && Pow2(4) == 16
  {
    assert Shift(m, 1) == 2 * m;
    assert Shift(m, 2) == 4 * m;
    assert Shift(m, 3) == 8 * m;
    assert Pow2(2) == 4;
  }

  lemma AudioByteSplits(codec: Byte, rate: Byte, depth: Byte, channels: Byte)
    requires codec in {2, 10} && rate < 4 && depth < 2 && channels < 2
    ensures AudioFirstByte(codec, rate, depth, channels) == 16 * codec + 4 * rate + 2 * depth + channels
  {
    hide Or, Shift, Pow2;
    var upper: nat := 4 * codec + rate;
    var most: nat := 8 * codec + 2 * rate + depth;
    SmallShifts(codec); SmallShifts(rate); SmallShifts(depth); SmallShifts(upper); SmallShifts(most);
    OrOfShift(codec, 4 * rate, 4);
    OrOfShift(upper, 2 * depth, 2);
    OrOfShift(most, channels, 1);
  }

  lemma AudioFields(first: int, codec: int, rate: int, depth: int, channels: int)
    requires 0 <= rate < 4 && 0 <= depth < 2 && 0 <= channels < 2
    requires first == 16 * codec + 4 * rate + 2 * depth + channels
    ensures first / 16 == codec && first / 4 % 4 == rate && first / 2 % 2 == depth && first % 2 == channels
  {
    assert first / 4 == 4 * codec + rate;
    assert first / 2 == 8 * codec + 2 * rate + depth;
  }

  lemma AudioRoundTrip(m: Msg)
    requires m.Audio?
    ensures Decode(Marshal(m).value) == Some(m) <==> InRange(m)
  {
    var raw := Marshal(m).value;
    var b := raw.body;
    if m.rate < 4 && m.depth < 2 && m.channels < 2 && m.codec in {2, 10} {
      AudioByteSplits(m.codec, m.rate, m.depth, m.channels);
      hide AudioFirstByte;
      AudioFields(b[0], m.codec, m.rate, m.depth, m.channels);
      if m.codec == CODEC_MPEG2_AUDIO {
        assert b[1..] == m.payload;
      } else {
        assert b[2..] == m.payload;
      }
    } else {
      hide AudioFirstByte;
      if Decode(raw) == Some(m) {
        DecodedAudio(raw, m);
      }
    }
  }

  /** A decoded audio message has small fields and a known codec. */
  lemma DecodedAudio(raw: Message, m: Msg)
    requires Decode(raw) == Some(m) && m.Audio?
    ensures m.rate < 4 && m.depth < 2 && m.channels < 2 && m.codec in {2, 10}
  {
  }

  lemma VideoByteSplits(key: bool)
    ensures VideoFirstByte(key, CODEC_H264) == if key then 0x17 else 0x27
  {
    assert Pow2(4) == 16;
    assert Shift(1, 4) == 16 && Shift(2, 4) == 32;
    OrOfShift(if key then 1 else 2, 7, 4);
  }

  lemma VideoRoundTrip(m: Msg)
    requires m.Video?
    ensures Decode(Marshal(m).value) == Some(m) <==> InRange(m)
  {
    var raw := Marshal(m).value;
    assert raw.body[2..5] == Be24(Millis(m.ptsDelta)) && raw.body[5..] == m.payload;
    hide OrByte, Millis, Be24, FromBe24;
    MillisRoundTrip(m.ptsDelta);
    VideoByteSplits(m.isKeyFrame);
    if m.codec != CODEC_H264 && Decode(raw) == Some(m) {
      NotVideo(raw, m);
    }
  }

  /** A decoded video message always has the H264 codec. */
  lemma NotVideo(raw: Message, m: Msg)
    requires Decode(raw) == Some(m) && m.Video?
    ensures m.codec == CODEC_H264
  {
  }

  lemma ExtendedRoundTrip(m: Msg)
    requires m.CodedFrames? || m.FramesX?
    ensures Decode(Marshal(m).value) == Some(m) <==> InRange(m)
  {
    hide AudioFirstByte, VideoFirstByte, DecodeAudio, DecodeVideo, DecodeUserControl, Millis;
    var raw := Marshal(m).value;
    assert raw.body[1..5] == m.fourCC;
    if m.CodedFrames? && m.fourCC == HEVC {
      assert raw.body[5..8] == Be24(Millis(m.ptsDelta)) && raw.body[8..] == m.payload;
      MillisRoundTrip(m.ptsDelta);
    } else {
      assert raw.body[5..] == m.payload;
    }
  }

  lemma UserControlRoundTrip(m: Msg)
    requires m.UserControl?
    ensures Decode(Marshal(m).value) == Some(m) <==> InRange(m)
  {
    hide AudioFirstByte, VideoFirstByte, DecodeAudio, DecodeVideo, DecodeExtended, Millis;
    hide Be16, Be32, FromBe16, FromBe32;
    Be32RoundTrip(m.value);
    Be16RoundTrip(m.code);
    var b := Marshal(m).value.body;
    assert b[..2] == Be16(m.code) && b[2..6] == Be32(m.value);
  }

  lemma BufferLengthRoundTrip(m: Msg)
    requires m.SetBufferLength?
    ensures Decode(Marshal(m).value) == Some(m)
  {
    hide AudioFirstByte, VideoFirstByte, DecodeAudio, DecodeVideo, DecodeExtended, Millis;
    hide Be16, Be32, FromBe16, FromBe32;
    Be16RoundTrip(BUFFER_LENGTH);
    Be32RoundTrip(m.streamId);
    Be32RoundTrip(m.bufferLength);
    var b := Marshal(m).value.body;
    assert b[..2] == Be16(BUFFER_LENGTH) && b[2..6] == Be32(m.streamId) && b[6..10] == Be32(m.bufferLength);
  }

  lemma ControlRoundTrip(m: Msg)
    requires m.SetChunkSize? || m.Acknowledge? || m.SetWindowAckSize? || m.SetPeerBandwidth?
    ensures Decode(Marshal(m).value) == Some(m)
  {
    hide Be16, Be32, FromBe32, AudioFirstByte, VideoFirstByte, Millis;
    hide DecodeAudio, DecodeVideo, DecodeExtended, DecodeUserControl;
    Be32RoundTrip(m.value);
    if m.SetPeerBandwidth? {
      assert Marshal(m).value.body[..4] == Be32(m.value);
    }
  }

  /** Marshalling and reading back is the identity on exactly the messages whose fields are in range. */
  lemma MessageRoundTrip(m: Msg)
    requires Marshal(m).Some?
    ensures Decode(Marshal(m).value) == Some(m) <==> InRange(m)
  {
    hide AudioFirstByte, VideoFirstByte, Millis, DecodeAudio, DecodeVideo, DecodeExtended, DecodeUserControl;
    match m
    case Audio(_, _, _, _, _, _, _, _, _) => AudioRoundTrip(m);
    case Video(_, _, _, _, _, _, _, _) => VideoRoundTrip(m);
    case CodedFrames(_, _, _, _, _, _) => ExtendedRoundTrip(m);
    case FramesX(_, _, _, _, _) => ExtendedRoundTrip(m);
    case Command(_, _, _) =>
    case Data(_, _, _) =>
    case UserControl(_, _) => UserControlRoundTrip(m);
    case SetBufferLength(_, _) => BufferLengthRoundTrip(m);
    case _ => ControlRoundTrip(m);
  }
}
