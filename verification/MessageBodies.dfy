/** Bodies of typed messages, each a fresh buffer filled by index (internal/rtmp/message), against Messages.Marshal. */
module MessageBodies {
  import opened Buffers
  import opened Bytes
  import opened Messages

  /** The three control messages with one 32-bit field. */
  method ControlBody(m: Msg) returns (body: array<Byte>)
    requires m.SetChunkSize? || m.Acknowledge? || m.SetWindowAckSize?
    ensures fresh(body) && body[..] == Marshal(m).value.body
  {
    body := new Byte[4](_ => 0);
    PutBe32(body, 0, m.value);
    assert body[..] == body[0..4];
  }

  method AudioBody(m: Msg) returns (body: array<Byte>)
    requires m.Audio?
    ensures fresh(body) && body[..] == Marshal(m).value.body
  {
    hide AudioFirstByte;
    var l := if m.codec == CODEC_MPEG2_AUDIO then 1 + |m.payload| else 2 + |m.payload|;
    body := new Byte[l](_ => 0);
    body[0] := AudioFirstByte(m.codec, m.rate, m.depth, m.channels);
    if m.codec == CODEC_MPEG2_AUDIO {
      CopyInto(body, 1, m.payload);
    } else {
      body[1] := m.aacType;
      CopyInto(body, 2, m.payload);
    }
  }

  method VideoBody(m: Msg) returns (body: array<Byte>)
    requires m.Video?
    ensures fresh(body) && body[..] == Marshal(m).value.body
  {
    hide OrByte, Be24, Millis;
    body := new Byte[5 + |m.payload|](_ => 0);
    if m.isKeyFrame {
      body[0] := 0x10;
    } else {
      body[0] := 0x20;
    }
    body[0] := OrByte(body[0], m.codec);
    body[1] := m.videoType;
    PutBe24(body, 2, Millis(m.ptsDelta));
    assert body[..5] == [VideoFirstByte(m.isKeyFrame, m.codec), m.videoType] + Be24(Millis(m.ptsDelta));
    CopyInto(body, 5, m.payload);
  }

  method CodedFramesBody(m: Msg) returns (body: array<Byte>)
    requires m.CodedFrames?
    ensures fresh(body) && body[..] == Marshal(m).value.body
  {
    hide Be24, Millis;
    var l := if m.fourCC == HEVC then 8 + |m.payload| else 5 + |m.payload|;
    body := new Byte[l](_ => 0);
    body[0] := 0x80 + EXT_CODED_FRAMES;
    CopyInto(body, 1, m.fourCC);
    assert body[..5] == [0x80 + EXT_CODED_FRAMES] + m.fourCC;
    if m.fourCC == HEVC {
      PutBe24(body, 5, Millis(m.ptsDelta));
      assert body[..8] == [0x80 + EXT_CODED_FRAMES] + m.fourCC + Be24(Millis(m.ptsDelta));
      CopyInto(body, 8, m.payload);
    } else {
      CopyInto(body, 5, m.payload);
    }
  }
}
