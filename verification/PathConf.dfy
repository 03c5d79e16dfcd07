/** Path configurations: the checks made on load, and what the path and its manager ask (internal/conf/path.go). */
module PathConf {
  import opened Bytes

  /** The camera fields that can change while a path is running. */
  datatype LiveCamera = LiveCamera(
    brightness: real, contrast: real, saturation: real, sharpness: real,
    exposure: string, awb: string, denoise: string, shutter: int,
    metering: string, gain: real, ev: real, fps: int)

  /**
   * An entry of an address list, by its text. An IPv4 network that was entered in IPv6 form is `mapped`: it has the
   * text of the IPv4 network, and is not equal to it.
   */
  datatype Address = Address(text: string, mapped: bool)

  /** A path configuration; `other` stands for the fields nothing here looks into. */
  datatype PathConf = PathConf(
    regexp: Option<string>,
    source: string,
    sourceOnDemand: bool,
    disablePublisherOverride: bool,
    fallback: string,
    runOnInit: string,
    runOnDemand: string,
    runOnReady: string,
    publishIPs: seq<Address>,
    readIPs: seq<Address>,
    live: LiveCamera,
    other: string)
  {
    predicate HasStaticSource() {
      || HasPrefix(source, "rtsp://") || HasPrefix(source, "rtsps://")
      || HasPrefix(source, "rtmp://") || HasPrefix(source, "rtmps://")
      || HasPrefix(source, "http://") || HasPrefix(source, "https://")
      || HasPrefix(source, "udp://") || source == "rpiCamera"
    }

    predicate HasOnDemandStaticSource() {
      HasStaticSource() && sourceOnDemand
    }

    predicate HasOnDemandPublisher() {
      runOnDemand != ""
    }

    /** A copy through JSON, which sorts the address lists and does not carry the compiled regular expression. */
    function Clone(): PathConf {
      this.(regexp := None, publishIPs := Copied(publishIPs), readIPs := Copied(readIPs))
    }

    /** What every accepted configuration satisfies. */
    predicate Sound() {
      && (source == "publisher" || source == "redirect" || HasStaticSource())
      && (regexp.Some? ==> !HasStaticSource() && runOnInit == "")
      && (sourceOnDemand ==> source != "publisher")
      && (HasOnDemandPublisher() ==> source == "publisher")
    }
  }

  predicate HasPrefix(s: string, p: string) {
    |p| <= |s| && s[..|p|] == p
  }

  // ---------------------------------------------------------------- address lists

  predicate AtMost(s: string, t: string) {
    s == "" || (t != "" && (s[0] < t[0] || (s[0] == t[0] && AtMost(s[1..], t[1..]))))
  }

  function Insert(s: string, ts: seq<string>): seq<string> {
    if ts == [] || AtMost(s, ts[0]) then [s] + ts else [ts[0]] + Insert(s, ts[1..])
  }

  function Sort(ts: seq<string>): seq<string> {
    if ts == [] then [] else Insert(ts[0], Sort(ts[1..]))
  }

  function Texts(addresses: seq<Address>): seq<string> {
    seq(|addresses|, k requires 0 <= k < |addresses| => addresses[k].text)
  }

  /** A list written out, which sorts the texts, and read again, which makes a network what its text says. */
  function Copied(addresses: seq<Address>): seq<Address> {
    var texts := Sort(Texts(addresses));
    seq(|texts|, k requires 0 <= k < |texts| => Address(texts[k], false))
  }

  predicate InOrder(ts: seq<string>) {
    forall k :: 0 <= k < |ts| - 1 ==> AtMost(ts[k], ts[k + 1])
  }

  /** A list that a copy leaves as it is. */
  predicate Canonical(addresses: seq<Address>) {
    InOrder(Texts(addresses)) && forall a :: a in addresses ==> !a.mapped
  }

  lemma {:induction false} AtMostTotal(s: string, t: string)
    ensures AtMost(s, t) || AtMost(t, s)
  {
    if s != "" && t != "" && s[0] == t[0] {
      AtMostTotal(s[1..], t[1..]);
    }
  }

  lemma {:induction false} InsertOrders(s: string, ts: seq<string>)
    requires InOrder(ts)
    ensures InOrder(Insert(s, ts))
    ensures Insert(s, ts)[0] == s || (ts != [] && Insert(s, ts)[0] == ts[0])
  {
    hide AtMost;
    if ts != [] && !AtMost(s, ts[0]) {
      AtMostTotal(s, ts[0]);
      InsertOrders(s, ts[1..]);
    }
  }

  lemma {:induction false} InsertAdds(s: string, ts: seq<string>)
    ensures multiset(Insert(s, ts)) == multiset(ts) + multiset{s}
  {
    hide AtMost;
    if ts != [] && !AtMost(s, ts[0]) {
      InsertAdds(s, ts[1..]);
      assert ts == [ts[0]] + ts[1..];
    }
  }

  lemma {:induction false} SortSorts(ts: seq<string>)
    ensures InOrder(Sort(ts)) && multiset(Sort(ts)) == multiset(ts) && |Sort(ts)| == |ts|
  {
    if ts != [] {
      SortSorts(ts[1..]);
      InsertOrders(ts[0], Sort(ts[1..]));
      InsertAdds(ts[0], Sort(ts[1..]));
      assert ts == [ts[0]] + ts[1..];
      assert |multiset(Sort(ts))| == |multiset(ts)|;
    }
  }

  lemma {:induction false} SortedStays(ts: seq<string>)
    requires InOrder(ts)
    ensures Sort(ts) == ts
  {
    if ts != [] {
      SortedStays(ts[1..]);
    }
  }

  /** A copy of an address list holds the same texts in order, and is the list itself exactly if it is canonical. */
  lemma CopiedIff(addresses: seq<Address>)
    ensures multiset(Texts(Copied(addresses))) == multiset(Texts(addresses)) && Canonical(Copied(addresses))
    ensures Copied(addresses) == addresses <==> Canonical(addresses)
    ensures Copied(Copied(addresses)) == Copied(addresses)
  {
    var texts := Texts(addresses);
    SortSorts(texts);
    assert Texts(Copied(addresses)) == Sort(texts);
    SortedStays(Sort(texts));
    if Canonical(addresses) {
      SortedStays(texts);
    }
  }

  /**
   * The load-time check. `detailsOk` is the outcome of the checks on URLs, addresses, credentials and names;
   * `name` starting with a tilde makes the configuration one for a regular expression.
   */
  function CheckAndFill(c: PathConf, name: string, detailsOk: bool): Option<PathConf> {
    var c1 := if name != "" && name[0] == '~' then c.(regexp := Some(name[1..])) else c.(regexp := None);
    var c2 := if c1.source == "" then c1.(source := "publisher") else c1;
    if !detailsOk then None
    else if !(c2.source == "publisher" || c2.source == "redirect" || c2.HasStaticSource()) then None
    else if c2.HasStaticSource() && c2.regexp.Some? then None
    else if c2.sourceOnDemand && c2.source == "publisher" then None
    else if c2.runOnInit != "" && c2.regexp.Some? then None
    else if c2.runOnDemand != "" && c2.source != "publisher" then None
    else Some(c2)
  }

  /** At most one on-demand kind applies, and the three kinds of source exclude each other. */
  lemma AcceptedIsSound(c: PathConf, name: string, detailsOk: bool)
    ensures
      var r := CheckAndFill(c, name, detailsOk);
      r.Some? ==>
        && r.value.Sound()
        && (r.value.regexp.Some? <==> name != "" && name[0] == '~')
        && !(r.value.HasOnDemandStaticSource() && r.value.HasOnDemandPublisher())
  {
    KindsExclude(if c.source == "" then "publisher" else c.source);
  }

  /** The sources a path can pull from by itself: a URL of one of these schemes, or the camera. */
  const SCHEMES: set<string> := {"rtsp", "rtsps", "rtmp", "rtmps", "http", "https", "udp"}

  lemma StaticIff(c: PathConf)
    ensures c.HasStaticSource() <==>
      c.source == "rpiCamera" || exists scheme :: scheme in SCHEMES && HasPrefix(c.source, scheme + "://")
  {
    assert "rtsp" + "://" == "rtsp://" && "rtsps" + "://" == "rtsps://" && "rtmp" + "://" == "rtmp://";
    assert "rtmps" + "://" == "rtmps://" && "http" + "://" == "http://" && "https" + "://" == "https://";
    assert "udp" + "://" == "udp://";
  }

  /**
   * A configuration is accepted exactly under these conditions, each on its own; what is filled in is the regular
   * expression behind a tilde and the source when there is none.
   */
  lemma AcceptedIff(c: PathConf, name: string, detailsOk: bool)
    ensures
      var r := CheckAndFill(c, name, detailsOk);
      var tilde := name != "" && name[0] == '~';
      var published := c.source == "" || c.source == "publisher";
      && (r.Some? <==>
            && detailsOk
            && (published || c.source == "redirect" || c.HasStaticSource())
            && (tilde ==> !c.HasStaticSource() && c.runOnInit == "")
            && (published ==> !c.sourceOnDemand)
            && (!published ==> c.runOnDemand == ""))
      && (r.Some? ==>
            r.value == c.(regexp := if tilde then Some(name[1..]) else None,
                          source := if published then "publisher" else c.source))
  {
    KindsExclude(c.source);
    KindsExclude("publisher");
    if c.source == "" {
      EmptyIsNotStatic(c);
    }
  }

  lemma EmptyIsNotStatic(c: PathConf)
    requires c.source == ""
    ensures !c.HasStaticSource()
  {
  }

  lemma KindsExclude(source: string)
    ensures source == "publisher" || source == "redirect" ==>
      forall c: PathConf :: c.source == source ==> !c.HasStaticSource()
  {
    if source == "publisher" || source == "redirect" {
      assert source[0] == 'p' || (source[0] == 'r' && source[1] == 'e');
      forall c: PathConf | c.source == source
        ensures !c.HasStaticSource()
      {
        OtherStart(source, "rtsp://"); OtherStart(source, "rtsps://"); OtherStart(source, "rtmp://");
        OtherStart(source, "rtmps://"); OtherStart(source, "http://"); OtherStart(source, "https://");
        OtherStart(source, "udp://");
      }
    }
  }

  lemma OtherStart(s: string, p: string)
    requires |s| >= 2 && |p| >= 2 && (s[0] != p[0] || s[1] != p[1])
    ensures !HasPrefix(s, p)
  {
    if |p| <= |s| {
      assert s[..|p|][0] == s[0] && s[..|p|][1] == s[1];
    }
  }

  datatype Kind = ByPublisher | ByRedirect | ByStatic

  /** What a path looks up in its configuration. */
  datatype Rules = Rules(
    kind: Kind,
    sourceOnDemand: bool,
    pattern: bool,                           // the configuration is one for a regular expression
    noOverride: bool,
    hasFallback: bool,
    runOnInit: bool,
    runOnDemand: bool,
    runOnReady: bool)
  {
    predicate OnDemandStatic() {
      kind == ByStatic && sourceOnDemand
    }

    predicate OnDemandPublisher() {
      runOnDemand
    }

    predicate Sound() {
      && (pattern ==> kind != ByStatic && !runOnInit)
      && (sourceOnDemand ==> kind != ByPublisher)
      && (runOnDemand ==> kind == ByPublisher)
    }
  }

  function RulesOf(c: PathConf): Rules {
    Rules(if c.source == "redirect" then ByRedirect else if c.HasStaticSource() then ByStatic else ByPublisher,
          c.sourceOnDemand, c.regexp.Some?, c.disablePublisherOverride, c.fallback != "",
          c.runOnInit != "", c.runOnDemand != "", c.runOnReady != "")
  }

  /** An accepted configuration gives sound rules, and the rules answer the configuration's own questions. */
  lemma RulesAreFaithful(c: PathConf)
    requires c.Sound()
    ensures
      var r := RulesOf(c);
      && r.Sound()
      && (r.OnDemandStatic() <==> c.HasOnDemandStaticSource())
      && (r.OnDemandPublisher() <==> c.HasOnDemandPublisher())
      && (r.kind == ByPublisher <==> c.source == "publisher")
      && (r.kind == ByRedirect <==> c.source == "redirect")
      && (r.kind == ByStatic <==> c.HasStaticSource())
      && (r.pattern <==> c.regexp.Some?) && r.noOverride == c.disablePublisherOverride
      && (r.hasFallback <==> c.fallback != "")
      && (r.runOnInit <==> c.runOnInit != "") && (r.runOnReady <==> c.runOnReady != "")
  {
    KindsExclude(c.source);
  }

  /** The running paths of a configuration can take the new one as it is. */
  predicate CanBeUpdated(before: PathConf, after: PathConf) {
    after == before.Clone().(live := after.live)
  }

  /**
   * A live update is one of the live camera fields that also puts the address lists in the order of a copy, and never
   * concerns a regular expression.
   */
  lemma LiveUpdate(before: PathConf, after: PathConf)
    requires before.regexp.Some? == after.regexp.Some?
    ensures CanBeUpdated(before, after) <==>
      && before.regexp.None?
      && after == before.(live := after.live,
                          publishIPs := Copied(before.publishIPs), readIPs := Copied(before.readIPs))
    ensures CanBeUpdated(before, after) ==> RulesOf(after) == RulesOf(before)
  {
    hide Copied;
  }

  /**
   * A change of live camera fields alone is a live update exactly if both address lists are canonical; and one that
   * puts a list in order is always a live update.
   */
  lemma LiveAloneIff(before: PathConf, live: LiveCamera)
    requires before.regexp.None?
    ensures CanBeUpdated(before, before.(live := live)) <==> Canonical(before.publishIPs) && Canonical(before.readIPs)
    ensures CanBeUpdated(before, before.Clone().(live := live))
    ensures before.Clone() != before <==> !Canonical(before.publishIPs) || !Canonical(before.readIPs)
  {
    CopiedIff(before.publishIPs);
    CopiedIff(before.readIPs);
    hide Copied, Canonical;
  }

  /** Two readers, given in the other order than that of their texts: a change of brightness is no live update. */
  lemma BrightnessRecreates(before: PathConf, brightness: real)
    requires before.regexp.None?
    requires before.readIPs == [Address("192.168.1.2", false), Address("10.0.0.1", false)]
    ensures
      var after := before.(live := before.live.(brightness := brightness));
      && !CanBeUpdated(before, after)
      && CanBeUpdated(before, after.(publishIPs := Copied(before.publishIPs),
                                     readIPs := [Address("10.0.0.1", false), Address("192.168.1.2", false)]))
  {
    var second, first := "192.168.1.2", "10.0.0.1";
    assert second[0] == first[0] == '1' && second[1] == '9' && first[1] == '0';
    assert second[1..][0] == '9' && first[1..][0] == '0';
    assert !AtMost(second, first);
    var list := [Address(second, false), Address(first, false)];
    assert Texts(list) == [second, first] && [second, first][1..] == [first] && [first][1..] == [];
    assert Sort([first]) == [first];
    assert Sort([second, first]) == Insert(second, [first]) == [first] + Insert(second, []) == [first, second];
    assert Copied(list) == [Address(first, false), Address(second, false)];
    assert Copied(list) != list by {
      assert Copied(list)[0].text == first && list[0].text == second;
    }
    hide Copied;
  }
}
