/**
 * The life of a path told from its events alone: who publishes, whether there is a stream, who reads, who waits and
 * what everybody was told. There are no on-demand states, timers or commands here; the event loop of PathSpec comes to
 * the same in every possible run.
 */
module PathStory {
  import opened Bytes
  import opened PathConf
  import opened PathSpec
  import opened PathProofs

  datatype Story = Story(
    publisher: Option<Id>,                   // the latest accepted publisher, unless gone since
    running: bool,                           // the static source is running
    called: bool,                            // the on-demand command is running
    up: bool,                                // there is a stream
    readers: set<Id>,                        // told that they joined this stream, not removed since
    describes: seq<Id>,                      // requests on hold
    joins: seq<HeldReader>,
    replies: seq<Reply>,
    over: bool)

  predicate OnDemand(rules: Rules) {
    rules.OnDemandStatic() || rules.OnDemandPublisher()
  }

  function TellAll(reqs: seq<Id>, a: Answer): seq<Reply> {
    if reqs == [] then [] else [Reply(reqs[0], a)] + TellAll(reqs[1..], a)
  }

  function TellJoined(joins: seq<HeldReader>): seq<Reply> {
    if joins == [] then [] else [Reply(joins[0].req, Joined(joins[0].reader))] + TellJoined(joins[1..])
  }

  function ReqsOf(joins: seq<HeldReader>): seq<Id> {
    if joins == [] then [] else [joins[0].req] + ReqsOf(joins[1..])
  }

  /** The stream comes up: whoever waits for it is told, and those who wanted to read do. */
  function Rise(s: Story): Story {
    s.(up := true, readers := s.readers + (set j | j in s.joins :: j.reader), describes := [], joins := [],
       replies := s.replies + TellAll(s.describes, WithStream) + TellJoined(s.joins))
  }

  /** The stream goes down. */
  function Fall(s: Story): Story {
    s.(up := false, readers := {})
  }

  /** Everybody who waits is told the same. */
  function Dismiss(s: Story, a: Answer): Story {
    s.(describes := [], joins := [], replies := s.replies + TellAll(s.describes, a) + TellAll(ReqsOf(s.joins), a))
  }

  /** A request has to wait, for which the source is started or the command called. */
  function Call(rules: Rules, s: Story): Story {
    s.(running := s.running || rules.OnDemandStatic(), called := rules.OnDemandPublisher())
  }

  function Tell(s: Story, req: Id, a: Answer): Story {
    s.(replies := s.replies + [Reply(req, a)])
  }

  /** The publisher goes; on demand, its command ends with its stream. */
  function Leave(rules: Rules, s: Story): Story {
    Fall(s).(publisher := None, called := s.called && !s.up)
  }

  function Describe(rules: Rules, s: Story, req: Id): Story {
    if s.up then Tell(s, req, WithStream)
    else if rules.kind == ByRedirect then Tell(s, req, WithRedirect)
    else if OnDemand(rules) then Call(rules, s).(describes := s.describes + [req])
    else Tell(s, req, if rules.hasFallback then WithRedirect else NoOnePublishing)
  }

  function Join(rules: Rules, s: Story, req: Id, reader: Id): Story {
    if s.up then Tell(s, req, Joined(reader)).(readers := s.readers + {reader})
    else if OnDemand(rules) then Call(rules, s).(joins := s.joins + [HeldReader(req, reader)])
    else Tell(s, req, NoOnePublishing)
  }

  /** A publisher is accepted unless there is another that must not be overridden. */
  function Publish(rules: Rules, s: Story, author: Id): Story {
    if rules.kind != ByPublisher || (s.publisher.Some? && rules.noOverride) then s
    else (if s.publisher.Some? then Leave(rules, s) else s).(publisher := Some(author))
  }

  function Unpublish(rules: Rules, s: Story, author: Id): Story {
    if s.publisher == Some(author) then Leave(rules, s) else s
  }

  function StartPublishing(s: Story, author: Id, ok: bool): Story {
    if s.publisher == Some(author) && ok then Rise(s) else s
  }

  /** On demand, a publisher that stops also goes. */
  function StopPublishing(rules: Rules, s: Story, author: Id): Story {
    if s.publisher != Some(author) || !s.up then s
    else if rules.OnDemandPublisher() then Leave(rules, s) else Fall(s)
  }

  function Happen(rules: Rules, s: Story, e: Event): Story {
    match e
    case StaticReadyTimeout => Dismiss(s, TimedOut).(running := false)
    case StaticCloseTimeout => Fall(s).(running := false)
    case PublisherReadyTimeout => Fall(Dismiss(s, TimedOut)).(publisher := None, called := false)
    case PublisherCloseTimeout => Fall(s).(publisher := None, called := false)
    case StaticSetReady(ok) => if ok then Rise(s) else s
    case StaticSetNotReady => Fall(s).(running := !rules.sourceOnDemand)
    case PublisherAddReq(author) => Publish(rules, s, author)
    case PublisherRemoveReq(author) => Unpublish(rules, s, author)
    case PublisherStartReq(author, ok) => StartPublishing(s, author, ok)
    case PublisherStopReq(author) => StopPublishing(rules, s, author)
    case DescribeReq(req) => Describe(rules, s, req)
    case ReaderAddReq(req, reader) => Join(rules, s, req, reader)
    case ReaderRemoveReq(reader) => s.(readers := s.readers - {reader})
    case _ => s
  }

  function End(s: Story): Story {
    Fall(Dismiss(s, Terminated)).(running := false, called := false, over := true)
  }

  /** The events after which a path for a regular expression ends if nobody needs it. */
  predicate AsksAfter(e: Event) {
    || e.PublisherReadyTimeout? || e.PublisherCloseTimeout? || e.PublisherStopReq? || e.PublisherRemoveReq?
    || e.DescribeReq? || e.ReaderAddReq?
  }

  function Next(rules: Rules, s: Story, e: Event): Story {
    var t := Happen(rules, s, e);
    if e.Terminate? then End(t)
    else if AsksAfter(e) && rules.pattern && rules.kind == ByPublisher && t.publisher.None? && t.readers == {}
       && t.describes == [] && t.joins == [] then End(t) else t
  }

  function Beginning(rules: Rules): Story {
    Story(None, rules.kind == ByStatic && !rules.sourceOnDemand, false, false, {}, [], [], [], false)
  }

  function Goes(rules: Rules, s: Story, es: seq<Event>): Story
    decreases |es|
  {
    if es == [] then s else Goes(rules, Next(rules, s, es[0]), es[1..])
  }

  function StoryOf(rules: Rules, es: seq<Event>): Story {
    Goes(rules, Beginning(rules), es)
  }

  // ---------------------------------------------------------------- the event loop comes to the same

  /** What the story tells of a path. */
  function View(p: Path): Story {
    Story(if p.source.Publisher? then Some(p.source.id) else None, p.source == Static(true), p.cmds.onDemand.Some?,
          p.stream, p.readers, p.reqs.describes, p.reqs.readers, p.reqs.replies, !p.alive)
  }

  lemma {:induction false} TellsAll(reqs: seq<Id>, a: Answer)
    ensures AnswerAll(reqs, a) == TellAll(reqs, a)
  {
    if reqs != [] {
      TellsAll(reqs[1..], a);
    }
  }

  lemma {:induction false} TellsJoined(joins: seq<HeldReader>)
    ensures JoinAll(joins) == TellJoined(joins) && RequestsOf(joins) == ReqsOf(joins)
  {
    if joins != [] {
      TellsJoined(joins[1..]);
    }
  }

  lemma Dismissed(p: Path, a: Answer)
    ensures
      var r := p.reqs.AnswerHeld(a);
      var s := Dismiss(View(p), a);
      r.replies == s.replies && r.describes == s.describes && r.readers == s.joins
  {
    TellsAll(p.reqs.describes, a);
    TellsJoined(p.reqs.readers);
    TellsAll(ReqsOf(p.reqs.readers), a);
  }

  lemma Released(p: Path)
    ensures
      var r := p.reqs.Release();
      var s := Rise(View(p));
      r.replies == s.replies && r.describes == s.describes && r.readers == s.joins
  {
    TellsAll(p.reqs.describes, WithStream);
    TellsJoined(p.reqs.readers);
  }

  lemma NobodyWaits(s: Story)
    ensures s.joins == [] ==> (set j | j in s.joins :: j.reader) == {}
    ensures s.describes == [] && s.joins == [] ==> Rise(s).replies == s.replies
  {
  }

  // One lemma for each handler; `Alike` puts them together.

  lemma DemandAlike(p: Path)
    requires LiveInv(p) && !p.stream && OnDemand(p.rules)
    ensures View(Demand(p)) == Call(p.rules, View(p)) && Demand(p).reqs == p.reqs
  {
  }

  lemma DescribeAlike(p: Path, req: Id)
    requires LiveInv(p)
    ensures View(HandleDescribe(p, req)) == Describe(p.rules, View(p), req)
  {
    assert p.source == Redirect <==> p.rules.kind == ByRedirect;
    hide Demand;
    if !p.stream && OnDemand(p.rules) {
      DemandAlike(p);
    }
  }

  lemma JoinAlike(p: Path, req: Id, reader: Id)
    requires LiveInv(p)
    ensures View(HandleReaderAdd(p, req, reader)) == Join(p.rules, View(p), req, reader)
  {
    hide Demand;
    if !p.stream && OnDemand(p.rules) {
      DemandAlike(p);
    }
  }

  lemma RemoveAlike(p: Path, reader: Id)
    requires LiveInv(p)
    ensures View(HandleReaderRemove(p, reader)) == View(p).(readers := p.readers - {reader})
  {
  }

  lemma SetReadyAlike(p: Path, ok: bool)
    requires LiveInv(p) && p.source == Static(true)
    ensures View(HandleStaticSetReady(p, ok)) == if ok then Rise(View(p)) else View(p)
  {
    Released(p);
    NobodyWaits(View(p));
    hide TellAll, TellJoined, JoinAll, AnswerAll;
  }

  lemma StartAlike(p: Path, author: Id, ok: bool)
    requires LiveInv(p)
    ensures View(HandlePublisherStart(p, author, ok)) == StartPublishing(View(p), author, ok)
  {
    Released(p);
    NobodyWaits(View(p));
    hide TellAll, TellJoined, JoinAll, AnswerAll;
  }

  lemma SetNotReadyAlike(p: Path)
    requires LiveInv(p) && p.source == Static(true) && p.stream
    ensures View(HandleStaticSetNotReady(p)) == Fall(View(p)).(running := !p.rules.sourceOnDemand)
  {
  }

  lemma LeaveAlike(p: Path)
    requires LiveInv(p) && p.source.Publisher?
    ensures View(RemovePublisher(p)) == Leave(p.rules, View(p))
  {
    RemovedPublisher(p);
    hide RemovePublisher;
  }

  lemma PublishAlike(p: Path, author: Id)
    requires LiveInv(p)
    ensures View(HandlePublisherAdd(p, author)) == Publish(p.rules, View(p), author)
  {
    hide RemovePublisher;
    if p.source.Publisher? {
      LeaveAlike(p);
    }
  }

  lemma UnpublishAlike(p: Path, author: Id)
    requires LiveInv(p)
    ensures View(HandlePublisherRemove(p, author)) == Unpublish(p.rules, View(p), author)
  {
    hide RemovePublisher, Leave;
    if p.source.Publisher? {
      LeaveAlike(p);
    }
  }

  lemma StopAlike(p: Path, author: Id)
    requires LiveInv(p)
    ensures View(HandlePublisherStop(p, author)) == StopPublishing(p.rules, View(p), author)
  {
    hide PublisherStop;
    if p.rules.OnDemandPublisher() {
      StoppedPublisher(p);
    }
  }

  lemma StaticTimeoutAlike(p: Path)
    requires LiveInv(p)
    ensures p.onStatic.readyTimer ==>
      View(Handle(p, StaticReadyTimeout)) == Happen(p.rules, View(p), StaticReadyTimeout)
    ensures p.onStatic.closeTimer ==>
      View(Handle(p, StaticCloseTimeout)) == Happen(p.rules, View(p), StaticCloseTimeout)
  {
    Dismissed(p, TimedOut);
    hide TellAll, AnswerAll, RulesOf, PublisherStop;
  }

  lemma PublisherLateAlike(p: Path)
    requires LiveInv(p) && p.onPublisher.readyTimer
    ensures View(Handle(p, PublisherReadyTimeout)) == Happen(p.rules, View(p), PublisherReadyTimeout)
  {
    hide TellAll, AnswerAll, RulesOf, PublisherStop;
    Dismissed(p, TimedOut);
    StopsAll(GiveUp(p.(onPublisher := p.onPublisher.(readyTimer := false))));
  }

  lemma PublisherIdleAlike(p: Path)
    requires LiveInv(p) && p.onPublisher.closeTimer
    ensures View(Handle(p, PublisherCloseTimeout)) == Happen(p.rules, View(p), PublisherCloseTimeout)
  {
    hide RulesOf, PublisherStop, Dismiss;
    StopsAll(p.(onPublisher := p.onPublisher.(closeTimer := false)));
  }

  lemma StopsAll(p: Path)
    requires SourceInv(p) && p.rules.Sound() && p.rules.OnDemandPublisher()
    ensures
      var q := PublisherStop(p);
      && q.source == NoSource && !q.stream && q.readers == {} && q.cmds.onDemand.None?
      && q.reqs == p.reqs && q.alive == p.alive
  {
    var q := p.(onPublisher := p.onPublisher.Stop());
    if q.source.Publisher? {
      assert RemovePublisher(q) == (if q.stream then SourceSetNotReady(q) else q).(source := NoSource);
    }
  }

  lemma ReloadAlike(p: Path, e: Event)
    requires Enabled(p, e) && (e.ReloadConf? || e.Cancel? || e.Terminate?)
    ensures View(Handle(p, e)) == Happen(p.rules, View(p), e) == View(p)
  {
    if e.ReloadConf? {
      ReloadKeeps(p, e);
    }
  }

  lemma Alike(p: Path, e: Event)
    requires LiveInv(p) && Enabled(p, e)
    ensures View(Handle(p, e)) == Happen(p.rules, View(p), e)
  {
    hide LiveInv, HandleDescribe, HandleReaderAdd, HandleReaderRemove, HandleStaticSetReady, RulesOf;
    hide HandleStaticSetNotReady, HandlePublisherAdd, HandlePublisherRemove, HandlePublisherStart, HandlePublisherStop;
    hide Rise, Fall, Describe, Join, Publish, Unpublish, StartPublishing, StopPublishing, PublisherStop;
    match e
    case DescribeReq(req) => DescribeAlike(p, req);
    case ReaderAddReq(req, reader) => JoinAlike(p, req, reader);
    case ReaderRemoveReq(reader) => RemoveAlike(p, reader);
    case StaticSetReady(ok) => SetReadyAlike(p, ok);
    case StaticSetNotReady => SetNotReadyAlike(p);
    case PublisherAddReq(author) => PublishAlike(p, author);
    case PublisherRemoveReq(author) => UnpublishAlike(p, author);
    case PublisherStartReq(author, ok) => StartAlike(p, author, ok);
    case PublisherStopReq(author) => StopAlike(p, author);
    case StaticReadyTimeout => StaticTimeoutAlike(p);
    case StaticCloseTimeout => StaticTimeoutAlike(p);
    case PublisherReadyTimeout => PublisherLateAlike(p);
    case PublisherCloseTimeout => PublisherIdleAlike(p);
    case _ => ReloadAlike(p, e);
  }

  lemma EndAlike(p: Path)
    requires LiveInv(p)
    ensures View(Shutdown(p)) == End(View(p)) && Shutdown(p).rules == p.rules
  {
    Dismissed(p, Terminated);
    hide TellAll, AnswerAll;
  }

  /** Nobody needs a path for a regular expression. */
  lemma CloseAlike(p: Path, s: Story)
    requires LiveInv(p) && s == View(p)
    ensures ShouldClose(p) <==>
      && p.rules.pattern && p.rules.kind == ByPublisher
      && s.publisher.None? && s.readers == {} && s.describes == [] && s.joins == []
  {
  }

  lemma PatternAsks(p: Path, e: Event)
    requires LiveInv(p) && Enabled(p, e) && p.rules.pattern && !e.Terminate?
    ensures Rechecks(e) <==> AsksAfter(e)
  {
    hide RulesOf;
  }

  lemma ViewIgnoresUse(p: Path, used: bool)
    ensures View(p.(used := used)) == View(p)
  {
  }

  lemma StepAlike(p: Path, e: Event)
    requires LiveInv(p) && Enabled(p, e)
    ensures View(Step(p, e)) == Next(p.rules, View(p), e) && Step(p, e).rules == p.rules
  {
    hide Handle, LiveInv, Enabled, Happen, Shutdown, End, ShouldClose, Rechecks, AsksAfter, View, FirstUse;
    HandleKeepsLive(p, e);
    RulesStay(p, e);
    Alike(p, e);
    var q := Handle(p, e).(used := p.used || FirstUse(e));
    UsedFlag(Handle(p, e), q.used);
    ViewIgnoresUse(Handle(p, e), q.used);
    EndAlike(q);
    CloseAlike(q, View(q));
    if p.rules.pattern && !e.Terminate? {
      PatternAsks(p, e);
    }
  }

  lemma {:induction false} RunAlike(p: Path, es: seq<Event>)
    requires Inv(p) && Possible(p, es)
    ensures View(RunAll(p, es)) == Goes(p.rules, View(p), es)
    decreases |es|
  {
    if es != [] {
      assert p.alive && LiveInv(p);
      StepKeepsInv(p, es[0]);
      StepAlike(p, es[0]);
      hide Inv, LiveInv, Step, Enabled, Next, View;
      RunAlike(Step(p, es[0]), es[1..]);
    }
  }

  /**
   * Every possible run of every path with an accepted configuration: there is a stream, a publisher, a running source,
   * a called command, a reader or a request on hold exactly if its events say so, and everybody was told what they say.
   */
  lemma StoryIsTrue(conf: PathConf, es: seq<Event>)
    requires conf.Sound() && Possible(NewPath(RulesOf(conf)), es)
    ensures View(RunAll(NewPath(RulesOf(conf)), es)) == StoryOf(RulesOf(conf), es)
  {
    RulesAreFaithful(conf);
    NewPathInv(RulesOf(conf));
    RunAlike(NewPath(RulesOf(conf)), es);
  }

  // ---------------------------------------------------------------- what an answer means

  predicate Got(p: Path, q: Path, req: Id, a: Answer) {
    q.reqs == Requests(p.reqs.accepted + [req], p.reqs.replies + [Reply(req, a)], p.reqs.describes, p.reqs.readers)
  }

  predicate HeldDescribe(p: Path, q: Path, req: Id) {
    q.reqs == Requests(p.reqs.accepted + [req], p.reqs.replies, p.reqs.describes + [req], p.reqs.readers)
  }

  predicate HeldJoin(p: Path, q: Path, req: Id, reader: Id) {
    q.reqs == Requests(p.reqs.accepted + [req], p.reqs.replies, p.reqs.describes,
                       p.reqs.readers + [HeldReader(req, reader)])
  }

  lemma OneAnswer(p: Path, q: Path, req: Id, a: Answer, b: Answer)
    requires Got(p, q, req, a)
    ensures Got(p, q, req, b) <==> a == b
    ensures !HeldDescribe(p, q, req) && forall reader :: !HeldJoin(p, q, req, reader)
  {
    assert q.reqs.replies[|p.reqs.replies|] == Reply(req, a);
  }

  /** Each outcome of a describe request, as it follows from the state before. */
  lemma DescribeIff(p: Path, req: Id)
    requires LiveInv(p)
    ensures
      var q := Handle(p, DescribeReq(req));
      && (Got(p, q, req, WithStream) <==> p.stream)
      && (HeldDescribe(p, q, req) <==> !p.stream && OnDemand(p.rules))
      && (Got(p, q, req, WithRedirect) <==>
            p.source == Redirect || (!p.stream && !OnDemand(p.rules) && p.rules.hasFallback))
      && (Got(p, q, req, NoOnePublishing) <==>
            p.source != Redirect && !p.stream && !OnDemand(p.rules) && !p.rules.hasFallback)
  {
    hide RulesOf, Demand, PublisherStop, RemovePublisher, Got, HeldDescribe;
    var q := Handle(p, DescribeReq(req));
    if p.stream {
      DescribeGot(p, req, WithStream);
    } else if p.source == Redirect {
      DescribeGot(p, req, WithRedirect);
    } else if OnDemand(p.rules) {
      DescribeHeld(p, req);
    } else {
      DescribeGot(p, req, if p.rules.hasFallback then WithRedirect else NoOnePublishing);
    }
  }

  lemma DescribeGot(p: Path, req: Id, a: Answer)
    requires LiveInv(p)
    requires
      if p.stream then a == WithStream
      else if p.source == Redirect then a == WithRedirect
      else !OnDemand(p.rules) && a == if p.rules.hasFallback then WithRedirect else NoOnePublishing
    ensures
      var q := Handle(p, DescribeReq(req));
      !HeldDescribe(p, q, req) && forall b :: Got(p, q, req, b) <==> a == b
  {
    var q := Handle(p, DescribeReq(req));
    assert Got(p, q, req, a);
    forall b
      ensures Got(p, q, req, b) <==> a == b
    {
      OneAnswer(p, q, req, a, b);
    }
    OneAnswer(p, q, req, a, a);
  }

  lemma DescribeHeld(p: Path, req: Id)
    requires LiveInv(p) && !p.stream && p.source != Redirect && OnDemand(p.rules)
    ensures
      var q := Handle(p, DescribeReq(req));
      HeldDescribe(p, q, req) && forall b :: !Got(p, q, req, b)
  {
    DemandAlike(p);
    hide Demand;
  }

  /** And of a request to read. */
  lemma ReaderIff(p: Path, req: Id, reader: Id)
    requires LiveInv(p)
    ensures
      var q := Handle(p, ReaderAddReq(req, reader));
      && (Got(p, q, req, Joined(reader)) <==> p.stream)
      && (p.stream ==> q.readers == p.readers + {reader})
      && (HeldJoin(p, q, req, reader) <==> !p.stream && OnDemand(p.rules))
      && (Got(p, q, req, NoOnePublishing) <==> !p.stream && !OnDemand(p.rules))
  {
    var q := Handle(p, ReaderAddReq(req, reader));
    if p.stream || !OnDemand(p.rules) {
      var a := if p.stream then Joined(reader) else NoOnePublishing;
      assert Got(p, q, req, a);
      OneAnswer(p, q, req, a, Joined(reader));
      OneAnswer(p, q, req, a, NoOnePublishing);
    } else {
      DemandAlike(p);
      hide Demand;
    }
  }

  predicate IsHeld(s: Story, req: Id) {
    req in s.describes || exists j :: j in s.joins && j.req == req
  }

  /** The event brings the stream up. */
  predicate Brings(s: Story, e: Event) {
    e == StaticSetReady(true) || (e.PublisherStartReq? && e.ok && s.publisher == Some(e.author))
  }

  /** Why an event makes the path give an answer. */
  predicate Because(rules: Rules, s: Story, e: Event, r: Reply) {
    match r.answer
    case WithStream => (e == DescribeReq(r.req) && s.up) || (Brings(s, e) && r.req in s.describes)
    case Joined(reader) =>
      (e == ReaderAddReq(r.req, reader) && s.up) || (Brings(s, e) && HeldReader(r.req, reader) in s.joins)
    case WithRedirect =>
      && e == DescribeReq(r.req) && !s.up
      && (rules.kind == ByRedirect || (!OnDemand(rules) && rules.hasFallback))
    case NoOnePublishing =>
      && !s.up && !OnDemand(rules)
      && (|| (e == DescribeReq(r.req) && rules.kind != ByRedirect && !rules.hasFallback)
          || (e.ReaderAddReq? && e.req == r.req))
    case TimedOut => (e.StaticReadyTimeout? || e.PublisherReadyTimeout?) && IsHeld(s, r.req)
    case Terminated => e.Terminate? && IsHeld(s, r.req)
  }

  lemma {:induction false} ToldAt(reqs: seq<Id>, a: Answer, k: nat)
    requires k < |TellAll(reqs, a)|
    ensures TellAll(reqs, a)[k].answer == a && TellAll(reqs, a)[k].req in reqs
  {
    if k > 0 {
      ToldAt(reqs[1..], a, k - 1);
    }
  }

  lemma {:induction false} JoinedAt(joins: seq<HeldReader>, k: nat)
    requires k < |TellJoined(joins)|
    ensures
      var r := TellJoined(joins)[k];
      r.answer.Joined? && HeldReader(r.req, r.answer.reader) in joins
  {
    if k > 0 {
      JoinedAt(joins[1..], k - 1);
    }
  }

  lemma {:induction false} ReqsFromJoins(joins: seq<HeldReader>, req: Id)
    requires req in ReqsOf(joins)
    ensures exists j :: j in joins && j.req == req
  {
    if req == joins[0].req {
      assert joins[0] in joins;
    } else {
      ReqsFromJoins(joins[1..], req);
      var j :| j in joins[1..] && j.req == req;
      assert j in joins;
    }
  }

  lemma DismissReason(s: Story, a: Answer, k: nat)
    requires |s.replies| <= k < |Dismiss(s, a).replies|
    ensures Dismiss(s, a).replies[k].answer == a && IsHeld(s, Dismiss(s, a).replies[k].req)
  {
    var n := |s.replies| + |TellAll(s.describes, a)|;
    if k < n {
      ToldAt(s.describes, a, k - |s.replies|);
    } else {
      ToldAt(ReqsOf(s.joins), a, k - n);
      ReqsFromJoins(s.joins, TellAll(ReqsOf(s.joins), a)[k - n].req);
    }
  }

  lemma RiseReason(s: Story, k: nat)
    requires |s.replies| <= k < |Rise(s).replies|
    ensures
      var r := Rise(s).replies[k];
      || (r.answer == WithStream && r.req in s.describes)
      || (r.answer.Joined? && HeldReader(r.req, r.answer.reader) in s.joins)
  {
    var n := |s.replies| + |TellAll(s.describes, WithStream)|;
    if k < n {
      ToldAt(s.describes, WithStream, k - |s.replies|);
    } else {
      JoinedAt(s.joins, k - n);
    }
  }

  lemma HappenReason(rules: Rules, s: Story, e: Event, k: nat)
    requires |s.replies| <= k < |Happen(rules, s, e).replies|
    ensures Because(rules, s, e, Happen(rules, s, e).replies[k])
  {
    hide TellAll, TellJoined, ReqsOf, IsHeld;
    if e.StaticReadyTimeout? || e.PublisherReadyTimeout? {
      DismissReason(s, TimedOut, k);
    } else if e.StaticSetReady? || e.PublisherStartReq? {
      RiseReason(s, k);
    }
  }

  /** A path that ends because nobody needs it has nobody left to tell. */
  lemma LastReplies(s: Story)
    ensures s.replies <= End(s).replies
    ensures s.describes == [] && s.joins == [] ==> End(s).replies == s.replies
  {
    hide TellAll, TellJoined, ReqsOf;
    NothingTold();
  }

  lemma NextReason(rules: Rules, s: Story, e: Event, k: nat)
    requires |s.replies| <= k < |Next(rules, s, e).replies|
    ensures Because(rules, s, e, Next(rules, s, e).replies[k])
  {
    if e.Terminate? {
      hide TellAll, TellJoined, ReqsOf, IsHeld;
      DismissReason(s, Terminated, k);
    } else {
      hide Happen, Because, End, AsksAfter;
      LastReplies(Happen(rules, s, e));
      HappenReason(rules, s, e, k);
    }
  }

  lemma NothingTold()
    ensures ReqsOf([]) == [] && forall a :: TellAll([], a) == []
  {
  }

  lemma RepliesStay(rules: Rules, s: Story, e: Event)
    ensures s.replies <= Next(rules, s, e).replies
  {
    hide Happen, End, AsksAfter;
    LastReplies(Happen(rules, s, e));
    HappenAdds(rules, s, e);
  }

  lemma HappenAdds(rules: Rules, s: Story, e: Event)
    ensures s.replies <= Happen(rules, s, e).replies
  {
    hide Rise, Dismiss;
    RiseAdds(s);
    DismissAdds(s, TimedOut);
  }

  lemma RiseAdds(s: Story)
    ensures s.replies <= Rise(s).replies
  {
    hide TellAll, TellJoined;
  }

  lemma DismissAdds(s: Story, a: Answer)
    ensures s.replies <= Dismiss(s, a).replies
  {
    hide TellAll, ReqsOf;
  }

  lemma {:induction false} AllRepliesStay(rules: Rules, s: Story, es: seq<Event>)
    ensures s.replies <= Goes(rules, s, es).replies
    decreases |es|
  {
    if es != [] {
      RepliesStay(rules, s, es[0]);
      hide Next;
      AllRepliesStay(rules, Next(rules, s, es[0]), es[1..]);
    }
  }

  /** Every answer of a run goes back to an event, and was right when that event came. */
  lemma {:induction false} ReasonIn(rules: Rules, s: Story, es: seq<Event>, n: nat) returns (k: nat)
    requires |s.replies| <= n < |Goes(rules, s, es).replies|
    ensures k < |es| && Because(rules, Goes(rules, s, es[..k]), es[k], Goes(rules, s, es).replies[n])
    decreases |es|
  {
    hide Next, Because;
    var t := Next(rules, s, es[0]);
    AllRepliesStay(rules, t, es[1..]);
    if n < |t.replies| {
      NextReason(rules, s, es[0], n);
      k := 0;
      assert es[..0] == [];
    } else {
      k := ReasonIn(rules, t, es[1..], n);
      k := k + 1;
      assert es[..k][1..] == es[1..][..k - 1];
    }
  }

  lemma AnswersHaveReasons(conf: PathConf, es: seq<Event>, n: nat) returns (k: nat)
    requires conf.Sound() && Possible(NewPath(RulesOf(conf)), es)
    requires n < |RunAll(NewPath(RulesOf(conf)), es).reqs.replies|
    ensures k < |es|
    ensures
      var rules := RulesOf(conf);
      Because(rules, StoryOf(rules, es[..k]), es[k], RunAll(NewPath(rules), es).reqs.replies[n])
  {
    StoryIsTrue(conf, es);
    hide RunAll, Possible, NewPath, RulesOf, Because, Goes;
    k := ReasonIn(RulesOf(conf), Beginning(RulesOf(conf)), es, n);
  }
}
