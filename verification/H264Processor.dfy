/** The H264 processor's loops (internal/formatprocessor/h264.go), against the functions of H264. */
module H264Processor {
  import opened Bytes
  import opened H264

  /** SPS and PPS of a packet, read straight from its payload. */
  method ExtractParams(payload: seq<Byte>) returns (sps: Option<seq<Byte>>, pps: Option<seq<Byte>>)
    ensures sps == LastOf(UnitsOf(payload), SPS) && pps == LastOf(UnitsOf(payload), PPS)
  {
    if |payload| < 1 {
      return None, None;
    }
    if Type(payload) == SPS {
      return Some(payload), None;
    } else if Type(payload) == PPS {
      return None, Some(payload);
    } else if Type(payload) == STAP_A {
      sps, pps := ExtractAggregated(payload[1..]);
    } else {
      return None, None;
    }
  }

  method ExtractAggregated(rest: seq<Byte>) returns (sps: Option<seq<Byte>>, pps: Option<seq<Byte>>)
    ensures
      var units := if Unpack(rest).None? then [] else Unpack(rest).value;
      sps == LastOf(units, SPS) && pps == LastOf(units, PPS)
  {
    sps, pps := None, None;
    var payload := rest;
    ghost var done: seq<Nalu> := [];
    assert Split(rest, done, payload) by {
      assert forall u: seq<Nalu> :: [] + u == u;
    }
    while |payload| > 0
      invariant Split(rest, done, payload)
      invariant sps == LastOf(done, SPS) && pps == LastOf(done, PPS)
      decreases |payload|
    {
      if |payload| < 2 {
        break;
      }
      var size := FromBe16(payload[..2]);
      SplitStep(rest, done, payload);
      ghost var here := payload;
      payload := payload[2..];
      if size == 0 {
        return;
      }
      if size > |payload| {
        return None, None;
      }
      var nalu: Nalu := payload[..size];
      payload := payload[size..];
      assert nalu == here[2..2 + size] && payload == here[2 + size..];
      Snoc(done, nalu);
      if Type(nalu) == SPS {
        sps := Some(nalu);
      } else if Type(nalu) == PPS {
        pps := Some(nalu);
      }
      done := done + [nalu];
    }
    assert Unpack(payload) == Some([]) && done + [] == done;
  }

  /** The units of `rest` are those done and those of `payload`. */
  predicate Split(rest: seq<Byte>, done: seq<Nalu>, payload: seq<Byte>) {
    Unpack(rest) == if Unpack(payload).None? then None else Some(done + Unpack(payload).value)
  }

  lemma SplitStep(rest: seq<Byte>, done: seq<Nalu>, payload: seq<Byte>)
    requires Split(rest, done, payload) && |payload| >= 2
    ensures
      var size := FromBe16(payload[..2]);
      if size == 0 then Unpack(rest) == Some(done)
      else if size > |payload| - 2 then Unpack(rest) == None
      else Split(rest, done + [payload[2..2 + size]], payload[2 + size..])
  {
    var size := FromBe16(payload[..2]);
    assert done + [] == done;
    if 0 < size <= |payload| - 2 {
      var nalu: Nalu, more := payload[2..2 + size], Unpack(payload[2 + size..]);
      if more.Some? {
        assert done + ([nalu] + more.value) == done + [nalu] + more.value;
      }
    }
  }

  class Processor {
    var sps: Option<seq<Byte>>
    var pps: Option<seq<Byte>>

    function State(): Params
      reads this
    {
      Params(sps, pps)
    }

    constructor (sps: Option<seq<Byte>>, pps: Option<seq<Byte>>)
      ensures State() == Params(sps, pps)
    {
      this.sps, this.pps := sps, pps;
    }

    /** The fast update from a packet is the update from the units it carries. */
    method UpdateFromPacket(payload: seq<Byte>)
      modifies this
      ensures State() == Updated(old(State()), UnitsOf(payload))
    {
      var s, p := ExtractParams(payload);
      var update := false;
      if s.Some? && s != sps {
        update := true;
      }
      if p.Some? && p != pps {
        update := true;
      }
      if update {
        if s.None? {
          s := sps;
        }
        if p.None? {
          p := pps;
        }
        sps, pps := s, p;
      }
    }

    method UpdateFromNalus(nalus: seq<Nalu>)
      modifies this
      ensures State() == Updated(old(State()), nalus)
    {
      var s, p, update := sps, pps, false;
      var i := 0;
      while i < |nalus|
        invariant 0 <= i <= |nalus|
        invariant State() == old(State()) && Params(s, p) == Updated(State(), nalus[..i])
        invariant !update ==> s == sps && p == pps
      {
        var nalu := nalus[i];
        assert nalus[..i + 1] == nalus[..i] + [nalu];
        Snoc(nalus[..i], nalu);
        if Type(nalu) == SPS {
          if Some(nalu) != s {
            s, update := Some(nalu), true;
          }
        } else if Type(nalu) == PPS {
          if Some(nalu) != p {
            p, update := Some(nalu), true;
          }
        }
        i := i + 1;
      }
      assert nalus[..i] == nalus;
      if update {
        sps, pps := s, p;
      }
    }

    /** An access unit that does not come from RTP packets. */
    method Process(nalus: seq<Nalu>) returns (out: array?<seq<Byte>>)
      modifies this
      ensures (State(), if out == null then [] else out[..]) == Processed(old(State()), nalus)
    {
      UpdateFromNalus(nalus);
      out := Remux(nalus);
    }

    /** Counts, then fills an array of that size; there is none when nothing is left. */
    method Remux(nalus: seq<Nalu>) returns (out: array?<seq<Byte>>)
      ensures out == null <==> Remuxed(State(), nalus) == []
      ensures out != null ==> fresh(out) && out[..] == Remuxed(State(), nalus)
    {
      var both := sps.Some? && pps.Some?;
      var n, keyFrame := Count(nalus);
      if n == 0 {
        return null;
      }
      out := new seq<Byte>[n](_ => []);
      var i := 0;
      if keyFrame && both {
        out[0] := sps.value;
        out[1] := pps.value;
        i := 2;
      }
      assert out[..i] == Front(State(), nalus);
      Fill(out, i, nalus);
    }

    /** The first pass: how many units there will be, and whether there is a key frame. */
    method Count(nalus: seq<Nalu>) returns (n: nat, keyFrame: bool)
      ensures n == |Remuxed(State(), nalus)| && keyFrame == KeyFrame(nalus)
    {
      keyFrame, n := false, 0;
      var i := 0;
      while i < |nalus|
        invariant 0 <= i <= |nalus|
        invariant keyFrame == KeyFrame(nalus[..i]) && n == |Remuxed(State(), nalus[..i])|
      {
        var nalu := nalus[i];
        assert nalus[..i + 1] == nalus[..i] + [nalu];
        Snoc(nalus[..i], nalu);
        if !Removed(nalu) {
          if Type(nalu) == IDR && !keyFrame {
            keyFrame := true;
            if sps.Some? && pps.Some? {
              n := n + 2;
            }
          }
          n := n + 1;
        }
        i := i + 1;
      }
      assert nalus[..i] == nalus;
    }
  }

  /** The second pass: the units that stay, in order, from place `at` on. */
  method Fill(out: array<seq<Byte>>, at: nat, nalus: seq<Nalu>)
    requires out.Length == at + |Kept(nalus)|
    modifies out
    ensures out[..] == old(out[..at]) + Kept(nalus)
  {
    var i, j := at, 0;
    while j < |nalus|
      invariant 0 <= j <= |nalus| && i == at + |Kept(nalus[..j])| <= out.Length
      invariant out[..i] == old(out[..at]) + Kept(nalus[..j])
    {
      var nalu := nalus[j];
      KeptNext(nalus, j);
      if !Removed(nalu) {
        ghost var before := out[..i];
        out[i] := nalu;
        assert out[..i + 1] == before + [nalu];
        i := i + 1;
      }
      j := j + 1;
    }
    assert nalus[..j] == nalus && out[..i] == out[..];
  }

  lemma KeptNext(nalus: seq<Nalu>, j: nat)
    requires j < |nalus|
    ensures Kept(nalus[..j + 1]) == Kept(nalus[..j]) + if Removed(nalus[j]) then [] else [nalus[j]]
    ensures |Kept(nalus[..j + 1])| <= |Kept(nalus)|
  {
    assert nalus[..j + 1] == nalus[..j] + [nalus[j]];
    Snoc(nalus[..j], nalus[j]);
    KeptGrows(nalus, j + 1);
  }

  lemma KeptGrows(nalus: seq<Nalu>, j: nat)
    requires j <= |nalus|
    ensures |Kept(nalus[..j])| <= |Kept(nalus)|
  {
    KeptConcat(nalus[..j], nalus[j..]);
    assert nalus == nalus[..j] + nalus[j..];
  }

  /** An aggregation packet, and a packet of one unit, update the parameters as the units they were made from do. */
  lemma PacketIsItsUnits(p: Params, header: Byte, nalus: seq<Nalu>, single: Nalu)
    requires header as int % 32 == STAP_A && Packable(nalus) && Type(single) != STAP_A
    ensures Updated(p, UnitsOf([header] + Pack(nalus))) == Updated(p, nalus)
    ensures Updated(p, UnitsOf(single)) == Updated(p, [single])
  {
    UnpackPack(nalus);
    assert ([header] + Pack(nalus))[1..] == Pack(nalus);
  }
}
