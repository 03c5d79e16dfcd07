/** H264 parameter sets and access units (internal/formatprocessor/h264.go). */
module H264 {
  import opened Bytes

  /** A unit of the stream; the source looks at the first byte of each, so none is empty. */
  type Nalu = n: seq<Byte> | |n| > 0 witness [0]

  const IDR: int := 5
  const SPS: int := 7
  const PPS: int := 8
  const DELIMITER: int := 9
  const STAP_A: int := 24

  function Type(n: seq<Byte>): int
    requires |n| > 0
  {
    n[0] as int % 32
  }

  /** The parameter sets of the track, as far as they are known. */
  datatype Params = Params(sps: Option<seq<Byte>>, pps: Option<seq<Byte>>)

  // ---------------------------------------------------------------- updating the parameters

  /** The last unit of a type. */
  function LastOf(nalus: seq<Nalu>, typ: int): Option<seq<Byte>> {
    if nalus == [] then None
    else if Type(nalus[|nalus| - 1]) == typ then Some(nalus[|nalus| - 1])
    else LastOf(nalus[..|nalus| - 1], typ)
  }

  function Else(a: Option<seq<Byte>>, b: Option<seq<Byte>>): Option<seq<Byte>> {
    if a.Some? then a else b
  }

  /** The parameters after a list of units: the last of each kind, or else the one before. */
  function Updated(p: Params, nalus: seq<Nalu>): Params {
    Params(Else(LastOf(nalus, SPS), p.sps), Else(LastOf(nalus, PPS), p.pps))
  }

  lemma {:induction false} LastOfConcat(a: seq<Nalu>, b: seq<Nalu>, typ: int)
    ensures LastOf(a + b, typ) == Else(LastOf(b, typ), LastOf(a, typ))
  {
    if b == [] {
      assert a + b == a;
    } else {
      LastOfConcat(a, b[..|b| - 1], typ);
      assert (a + b)[..|a + b| - 1] == a + b[..|b| - 1];
    }
  }

  // ---------------------------------------------------------------- aggregation packets

  /** The units of an aggregation packet after its first byte; None where a unit is cut short. */
  function Unpack(rest: seq<Byte>): Option<seq<Nalu>> {
    if |rest| < 2 then Some([])
    else
      var size := FromBe16(rest[..2]);
      if size == 0 then Some([])
      else if size > |rest| - 2 then None
      else
        var more := Unpack(rest[2 + size..]);
        if more.None? then None else Some([rest[2..2 + size]] + more.value)
  }

  /** The other direction: each unit after its length. */
  function Pack(nalus: seq<Nalu>): seq<Byte>
  {
    if nalus == [] then [] else Be16(|nalus[0]|) + nalus[0] + Pack(nalus[1..])
  }

  predicate Packable(nalus: seq<Nalu>) {
    forall i :: 0 <= i < |nalus| ==> |nalus[i]| < 0x1_0000
  }

  lemma UnpackOne(all: seq<Byte>, first: Nalu, rest: seq<Byte>)
    requires |all| >= 2 && FromBe16(all[..2]) == |first| <= |all| - 2
    requires all[2..2 + |first|] == first && all[2 + |first|..] == rest
    ensures Unpack(all) == if Unpack(rest).None? then None else Some([first] + Unpack(rest).value)
  {
    hide FromBe16;
  }

  lemma UnpackFirst(first: Nalu, rest: seq<Byte>)
    requires |first| < 0x1_0000
    ensures
      Unpack(Be16(|first|) + first + rest)
      == if Unpack(rest).None? then None else Some([first] + Unpack(rest).value)
  {
    Be16RoundTrip(|first|);
    hide Be16, FromBe16, Unpack;
    var size := |first|;
    var all := Be16(size) + first + rest;
    assert all[..2] == Be16(size) && all[2..2 + size] == first && all[2 + size..] == rest;
    UnpackOne(all, first, rest);
  }

  lemma {:induction false} UnpackPack(nalus: seq<Nalu>)
    requires Packable(nalus)
    ensures Unpack(Pack(nalus)) == Some(nalus)
  {
    if nalus != [] {
      UnpackFirst(nalus[0], Pack(nalus[1..]));
      UnpackPack(nalus[1..]);
      assert nalus == [nalus[0]] + nalus[1..];
    }
  }

  /** What a packet contributes to the parameters: its units, where it is an aggregation that is not cut short. */
  function UnitsOf(payload: seq<Byte>): seq<Nalu> {
    if payload == [] then []
    else if Type(payload) != STAP_A then [payload]
    else if Unpack(payload[1..]).None? then []
    else Unpack(payload[1..]).value
  }

  // ---------------------------------------------------------------- access units

  predicate Removed(n: Nalu) {
    Type(n) == SPS || Type(n) == PPS || Type(n) == DELIMITER
  }

  function Kept(nalus: seq<Nalu>): (r: seq<Nalu>)
    ensures |r| <= |nalus|
  {
    if nalus == [] then []
    else
      var last := nalus[|nalus| - 1];
      Kept(nalus[..|nalus| - 1]) + if Removed(last) then [] else [last]
  }

  predicate KeyFrame(nalus: seq<Nalu>) {
    exists i :: 0 <= i < |nalus| && Type(nalus[i]) == IDR
  }

  /** The parameters that go in front: both or none. */
  function Front(p: Params, nalus: seq<Nalu>): seq<seq<Byte>> {
    if KeyFrame(nalus) && p.sps.Some? && p.pps.Some? then [p.sps.value, p.pps.value] else []
  }

  function Remuxed(p: Params, nalus: seq<Nalu>): seq<seq<Byte>> {
    Front(p, nalus) + Kept(nalus)
  }

  lemma {:induction false} KeptConcat(a: seq<Nalu>, b: seq<Nalu>)
    ensures Kept(a + b) == Kept(a) + Kept(b)
  {
    if b == [] {
      assert a + b == a;
    } else {
      KeptConcat(a, b[..|b| - 1]);
      assert (a + b)[..|a + b| - 1] == a + b[..|b| - 1];
    }
  }

  /** One more unit at the end. */
  lemma Snoc(done: seq<Nalu>, nalu: Nalu)
    ensures forall typ :: LastOf(done + [nalu], typ) == if Type(nalu) == typ then Some(nalu) else LastOf(done, typ)
    ensures Kept(done + [nalu]) == Kept(done) + if Removed(nalu) then [] else [nalu]
    ensures KeyFrame(done + [nalu]) <==> KeyFrame(done) || Type(nalu) == IDR
  {
    assert (done + [nalu])[..|done|] == done;
    KeyFrameConcat(done, [nalu]);
    assert KeyFrame([nalu]) <==> Type([nalu][0]) == IDR;
  }

  /** Nothing is left to remove, no parameter set is left, and a key frame stays one. */
  lemma {:induction false} KeptTwice(nalus: seq<Nalu>)
    ensures Kept(Kept(nalus)) == Kept(nalus)
    ensures LastOf(Kept(nalus), SPS).None? && LastOf(Kept(nalus), PPS).None?
    ensures KeyFrame(Kept(nalus)) <==> KeyFrame(nalus)
  {
    if nalus != [] {
      var init, last := nalus[..|nalus| - 1], nalus[|nalus| - 1];
      assert nalus == init + [last];
      KeptTwice(init);
      Snoc(init, last);
      hide Kept, LastOf, KeyFrame;
      if Removed(last) {
        assert Kept(init) + [] == Kept(init);
      } else {
        Snoc(Kept(init), last);
      }
    }
  }

  lemma KeyFrameConcat(a: seq<Nalu>, b: seq<Nalu>)
    ensures KeyFrame(a + b) <==> KeyFrame(a) || KeyFrame(b)
  {
    if KeyFrame(a) {
      var i :| 0 <= i < |a| && Type(a[i]) == IDR;
      assert (a + b)[i] == a[i];
    }
    if KeyFrame(b) {
      var i :| 0 <= i < |b| && Type(b[i]) == IDR;
      assert (a + b)[|a| + i] == b[i];
    }
  }

  // ---------------------------------------------------------------- idempotence

  predicate Known(p: Params) {
    p.sps.Some? && p.pps.Some? && p.sps.value != [] && p.pps.value != []
  }

  /** Parameter sets that are not empty and have the types they should. */
  predicate WellTyped(p: Params) {
    && (p.sps.Some? ==> p.sps.value != [] && Type(p.sps.value) == SPS)
    && (p.pps.Some? ==> p.pps.value != [] && Type(p.pps.value) == PPS)
  }

  /**
   * The parameters, put in front, are removed again and taken for what they are: each has its own type or that of a
   * delimiter, or both are picture parameter sets, or both are the same sequence parameter set.
   */
  predicate Stable(p: Params)
    requires Known(p)
  {
    var s, t := Type(p.sps.value), Type(p.pps.value);
    && (s == SPS || s == DELIMITER || (s == PPS && t == PPS))
    && (t == PPS || t == DELIMITER || (t == SPS && p.pps == p.sps))
  }

  lemma StableIs(p: Params)
    requires Known(p)
    ensures Stable(p) <==>
      Removed(p.sps.value) && Removed(p.pps.value) && Updated(p, [p.sps.value, p.pps.value]) == p
  {
    LastOfPair(p.sps.value, p.pps.value, SPS);
    LastOfPair(p.sps.value, p.pps.value, PPS);
  }

  lemma LastOfPair(a: Nalu, b: Nalu, typ: int)
    ensures LastOf([a, b], typ) == if Type(b) == typ then Some(b) else if Type(a) == typ then Some(a) else None
  {
    assert [a, b][..1] == [a] && [a][..0] == [];
    assert LastOf([a], typ) == if Type(a) == typ then Some(a) else LastOf([], typ);
  }

  /** One access unit through the processor: the parameters are updated, then the unit is remuxed. */
  function Processed(p: Params, nalus: seq<Nalu>): (Params, seq<seq<Byte>>) {
    var q := Updated(p, nalus);
    (q, Remuxed(q, nalus))
  }

  /**
   * Processing the result once more changes nothing, exactly when the parameters that were put in front, if any
   * were, are stable.
   */
  lemma IdempotentIff(p: Params, nalus: seq<Nalu>)
    requires Updated(p, nalus).sps != Some([]) && Updated(p, nalus).pps != Some([])
    ensures
      var (q, out) := Processed(p, nalus);
      Processed(q, out) == (q, out) <==> (KeyFrame(nalus) && Known(q) ==> Stable(q))
  {
    var (q, out) := Processed(p, nalus);
    var kept := Kept(nalus);
    KeptTwice(nalus);
    hide Kept, LastOf, KeyFrame;
    if KeyFrame(nalus) && Known(q) {
      var front: seq<Nalu> := [q.sps.value, q.pps.value];
      assert out == front + kept;
      LastOfConcat(front, kept, SPS);
      LastOfConcat(front, kept, PPS);
      assert Updated(q, out) == Updated(q, front);
      KeyFrameConcat(front, kept);
      KeptConcat(front, kept);
      KeptPair(front[0], front[1]);
      StableIs(q);
      if Updated(q, front) == q {
        assert Remuxed(q, out) == front + (Kept(front) + kept);
        if Remuxed(q, out) == out {
          assert |Kept(front)| == 0;
        }
      }
    } else {
      assert out == kept;
    }
  }

  lemma KeptPair(a: Nalu, b: Nalu)
    ensures |Kept([a, b])| == 0 <==> Removed(a) && Removed(b)
  {
    assert [a, b][..1] == [a] && [a][..0] == [];
    assert Kept([a]) == Kept([]) + if Removed(a) then [] else [a];
  }

  /** With parameters of the right types, processing is idempotent. */
  lemma Idempotent(p: Params, nalus: seq<Nalu>)
    requires WellTyped(p)
    ensures
      var (q, out) := Processed(p, nalus);
      WellTyped(q) && Processed(q, out) == (q, out)
  {
    LastOfTyped(nalus, SPS);
    LastOfTyped(nalus, PPS);
    IdempotentIff(p, nalus);
  }

  lemma {:induction false} LastOfTyped(nalus: seq<Nalu>, typ: int)
    ensures LastOf(nalus, typ).Some? ==> LastOf(nalus, typ).value != [] && Type(LastOf(nalus, typ).value) == typ
  {
    if nalus != [] {
      LastOfTyped(nalus[..|nalus| - 1], typ);
    }
  }

  // ---------------------------------------------------------------- by the bytes

  /** What a unit is, by the five low bits of its first byte: 5 a key frame, 7 and 8 parameter sets, 9 a delimiter. */
  predicate Has(n: Nalu, code: int) {
    n[0] as int % 32 == code
  }

  /** The units that are neither parameter sets nor delimiters, in order. */
  function Without(nalus: seq<Nalu>): seq<Nalu> {
    if nalus == [] then []
    else (if Has(nalus[0], 7) || Has(nalus[0], 8) || Has(nalus[0], 9) then [] else [nalus[0]]) + Without(nalus[1..])
  }

  lemma {:induction false} KeptIsWithout(nalus: seq<Nalu>)
    ensures Kept(nalus) == Without(nalus)
  {
    if nalus != [] {
      KeptIsWithout(nalus[1..]);
      assert nalus == [nalus[0]] + nalus[1..];
      KeptConcat([nalus[0]], nalus[1..]);
      KeptOne(nalus[0]);
      hide Kept;
    }
  }

  lemma KeptOne(n: Nalu)
    ensures Kept([n]) == if Has(n, 7) || Has(n, 8) || Has(n, 9) then [] else [n]
  {
    assert [n][..0] == [];
  }

  /**
   * The access unit that goes out: the parameter sets in front exactly if it has a unit of type 5 and both are known,
   * then its units without those of types 7, 8 and 9.
   */
  lemma RemuxedBytes(p: Params, nalus: seq<Nalu>)
    ensures
      var key := exists i :: 0 <= i < |nalus| && Has(nalus[i], 5);
      Remuxed(p, nalus)
      == (if key && p.sps.Some? && p.pps.Some? then [p.sps.value, p.pps.value] else []) + Without(nalus)
  {
    KeptIsWithout(nalus);
    if KeyFrame(nalus) {
      var i :| 0 <= i < |nalus| && Type(nalus[i]) == IDR;
      assert Has(nalus[i], 5);
    } else {
      forall i | 0 <= i < |nalus|
        ensures !Has(nalus[i], 5)
      {
        assert Type(nalus[i]) != IDR;
      }
    }
  }

  /** The unit at `k` is the last of its type. */
  predicate IsLast(nalus: seq<Nalu>, code: int, k: nat) {
    k < |nalus| && Has(nalus[k], code) && forall i :: k < i < |nalus| ==> !Has(nalus[i], code)
  }

  lemma {:induction false} LastOfIs(nalus: seq<Nalu>, code: int)
    ensures LastOf(nalus, code).Some? <==> exists k: nat :: IsLast(nalus, code, k)
    ensures forall k: nat :: IsLast(nalus, code, k) ==> LastOf(nalus, code) == Some(nalus[k])
  {
    if nalus != [] {
      var init, end := nalus[..|nalus| - 1], |nalus| - 1;
      LastOfIs(init, code);
      if Type(nalus[end]) == code {
        assert IsLast(nalus, code, end);
      } else {
        forall k: nat
          ensures IsLast(nalus, code, k) <==> IsLast(init, code, k)
        {
          assert !Has(nalus[end], code);
        }
        if LastOf(init, code).Some? {
          var k: nat :| IsLast(init, code, k);
          assert IsLast(nalus, code, k);
        }
      }
    }
  }

  /** The parameter sets after an access unit: its last unit of type 7 and its last of type 8, or those before. */
  lemma UpdatedBytes(p: Params, nalus: seq<Nalu>, k: nat)
    ensures
      var q := Updated(p, nalus);
      && (IsLast(nalus, 7, k) ==> q.sps == Some(nalus[k]))
      && (IsLast(nalus, 8, k) ==> q.pps == Some(nalus[k]))
      && ((forall i :: 0 <= i < |nalus| ==> !Has(nalus[i], 7)) ==> q.sps == p.sps)
      && ((forall i :: 0 <= i < |nalus| ==> !Has(nalus[i], 8)) ==> q.pps == p.pps)
  {
    LastOfIs(nalus, 7);
    LastOfIs(nalus, 8);
    hide LastOf;
  }

  /** A packet is an aggregation exactly if its first byte says 24; each unit then stands behind its length. */
  lemma UnitsBytes(first: Byte, size: nat, nalu: Nalu, rest: seq<Byte>)
    requires size == |nalu| < 65536
    ensures first as int % 32 != 24 ==> UnitsOf([first] + rest) == [[first] + rest]
    ensures
      first as int % 32 == 24 ==>
        UnitsOf([first] + [size / 256, size % 256] + nalu + rest)
        == if Unpack(rest).None? then [] else [nalu] + Unpack(rest).value
  {
    hide Unpack;
    var all := [size / 256, size % 256] + nalu + rest;
    assert ([first] + [size / 256, size % 256] + nalu + rest)[1..] == all;
    assert Be16(size) == [size / 256, size % 256];
    UnpackFirst(nalu, rest);
  }

  /** Where an aggregation ends: at a lone byte, at length zero; and one whose next unit is cut short is not used. */
  lemma UnpackEnds(high: Byte, low: Byte, rest: seq<Byte>)
    ensures Unpack([]) == Some([]) && Unpack([high]) == Some([])
    ensures
      var size := 256 * (high as int) + low;
      && (size == 0 ==> Unpack([high, low] + rest) == Some([]))
      && (size > |rest| ==> Unpack([high, low] + rest) == None)
  {
    assert ([high, low] + rest)[..2] == [high, low];
  }
}
