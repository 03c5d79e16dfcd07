/** What every run of a path keeps. */
module PathProofs {
  import opened Bytes
  import opened PathConf
  import opened PathSpec

  // ---------------------------------------------------------------- requests are conserved

  function Answered(rs: seq<Reply>): seq<Id> {
    seq(|rs|, k requires 0 <= k < |rs| => rs[k].req)
  }

  /** Every accepted request is either on hold or answered, and each exactly as often as it came in. */
  predicate Conserved(r: Requests) {
    multiset(r.accepted) == multiset(Answered(r.replies)) + multiset(r.describes) + multiset(RequestsOf(r.readers))
  }

  /** Each of the five things that can happen to requests conserves them. */
  lemma TakeKeeps(r: Requests, req: Id, reader: Id, a: Answer)
    requires Conserved(r)
    ensures Conserved(r.Answer(req, a)) && Conserved(r.HoldDescribe(req)) && Conserved(r.HoldReader(req, reader))
  {
    assert Answered(r.replies + [Reply(req, a)]) == Answered(r.replies) + [req];
    assert RequestsOf(r.readers + [HeldReader(req, reader)]) == RequestsOf(r.readers) + [req];
  }

  lemma AnswerHeldKeeps(r: Requests, a: Answer)
    requires Conserved(r)
    ensures Conserved(r.AnswerHeld(a))
  {
    assert Answered(r.AnswerHeld(a).replies) == Answered(r.replies) + r.describes + RequestsOf(r.readers);
    assert RequestsOf([]) == [];
  }

  lemma ReleaseKeeps(r: Requests)
    requires Conserved(r)
    ensures Conserved(r.Release())
  {
    assert Answered(r.Release().replies) == Answered(r.replies) + r.describes + RequestsOf(r.readers);
    assert RequestsOf([]) == [];
  }

  // ---------------------------------------------------------------- commands are conserved

  function Is(cmd: Option<Id>, id: Id): nat {
    if cmd == Some(id) then 1 else 0
  }

  /** How often a command occurs in the log of closed ones and in the three places of a live one. */
  function Occurrences(c: Commands, id: Id): nat {
    multiset(c.closed)[id] + Is(c.onInit, id) + Is(c.onDemand, id) + Is(c.onReady, id)
  }

  /** No command occurs twice, and none that was not started. */
  ghost predicate NeverTwice(c: Commands) {
    forall id: Id :: Occurrences(c, id) <= if id < c.started then 1 else 0
  }

  /** The command was started, and is neither live nor closed. */
  predicate Missing(c: Commands, id: Id) {
    id < c.started && Occurrences(c, id) == 0
  }

  /** Every command started is live or closed, and only once. */
  ghost predicate Accounted(c: Commands) {
    forall id: Id :: Occurrences(c, id) == if id < c.started then 1 else 0
  }

  /** Closing moves a command from its place to the log. */
  lemma CloseMoves(c: Commands, id: Id)
    ensures Occurrences(c.CloseOnInit(), id) == Occurrences(c, id)
    ensures Occurrences(c.CloseOnDemand(), id) == Occurrences(c, id)
    ensures Occurrences(c.CloseOnReady(), id) == Occurrences(c, id)
  {
  }

  /** Starting a command adds it; a ready command that is still live is lost by starting another. */
  lemma StartAdds(c: Commands, id: Id)
    ensures c.onDemand.None? ==>
      Occurrences(c.StartOnDemand(), id) == Occurrences(c, id) + if id == c.started then 1 else 0
    ensures
      Occurrences(c.StartOnReady(), id) == Occurrences(c, id) - Is(c.onReady, id) + if id == c.started then 1 else 0
  {
  }

  // ---------------------------------------------------------------- the invariant

  /** The source is of the configured kind; readers need a stream and a stream needs a source that produces it. */
  predicate SourceInv(p: Path) {
    && (match p.rules.kind
        case ByRedirect => p.source == Redirect
        case ByStatic => p.source.Static? && (!p.rules.sourceOnDemand ==> p.source.running)
        case ByPublisher => p.source == NoSource || p.source.Publisher?)
    && (p.readers != {} ==> p.stream)
    && (p.stream ==> p.source.Static? || p.source.Publisher?)
    && (p.cmds.onReady.Some? <==> p.stream && p.rules.runOnReady)
    && (p.cmds.onInit.Some? <==> p.rules.runOnInit)
  }

  /**
   * An on-demand machine: stream, readers and timers all follow from its state. Only after the context has been
   * cancelled can there be readers while the closing is scheduled.
   */
  predicate MachineInv(m: Machine, stream: bool, readers: set<Id>, cancelled: bool) {
    && (stream <==> m.state == Ready || m.state == Closing)
    && (m.state == Ready ==> readers != {})
    && (readers != {} ==> m.state == Ready || (m.state == Closing && cancelled))
    && (m.readyTimer <==> m.state == WaitingReady)
    && (m.closeTimer <==> m.state == Closing)
  }

  /** The on-demand static source runs in every state but the initial one. */
  predicate StaticInv(p: Path) {
    if p.rules.OnDemandStatic() then
      MachineInv(p.onStatic, p.stream, p.readers, p.cancelled) && p.source == Static(p.onStatic.state != Initial)
    else p.onStatic == IDLE
  }

  /** The on-demand command is gone in the initial state and running while its publisher is awaited. */
  predicate PublisherInv(p: Path) {
    if p.rules.OnDemandPublisher() then
      && MachineInv(p.onPublisher, p.stream, p.readers, p.cancelled)
      && (p.onPublisher.state == Initial ==> p.cmds.onDemand.None?)
      && (p.onPublisher.state == WaitingReady ==> p.cmds.onDemand.Some?)
    else p.onPublisher == IDLE && p.cmds.onDemand.None?
  }

  /** Requests are on hold only while an on-demand start is awaited; its ready timer is then armed. */
  predicate HoldInv(p: Path) {
    !p.reqs.NoneHeld() ==>
      || (p.rules.OnDemandStatic() && p.onStatic.state == WaitingReady)
      || (p.rules.OnDemandPublisher() && p.onPublisher.state == WaitingReady)
  }

  /** What holds of a path whose event loop is running. */
  predicate LiveInv(p: Path) {
    p.rules.Sound() && !p.panicked && SourceInv(p) && StaticInv(p) && PublisherInv(p) && HoldInv(p)
  }

  /** Everything is put away once the loop has ended. */
  predicate Cleared(p: Path) {
    && !p.stream && p.readers == {} && p.reqs.NoneHeld()
    && p.cmds.onInit.None? && p.cmds.onDemand.None? && p.cmds.onReady.None?
    && !p.onStatic.readyTimer && !p.onStatic.closeTimer && !p.onPublisher.readyTimer && !p.onPublisher.closeTimer
    && p.source != Static(true) && !p.panicked
  }

  ghost predicate Inv(p: Path) {
    && Conserved(p.reqs) && NeverTwice(p.cmds)
    && (if p.alive then LiveInv(p) else Cleared(p))
    && (p.alive && p.used ==> !ShouldClose(p))
  }

  /** Clients and the manager may come at any time; a timer fires once it is armed. */
  lemma AnyoneMayCome(p: Path, e: Event)
    requires p.alive
    requires
      || e.DescribeReq? || e.ReaderAddReq? || e.ReaderRemoveReq? || e.PublisherAddReq? || e.PublisherRemoveReq?
      || e.PublisherStopReq? || e.Cancel?
      || (e.PublisherStartReq? && (p.source != Publisher(e.author) || !p.stream || p.cancelled))
      || (e.StaticSetReady? && p.source == Static(true) && (!p.stream || p.cancelled))
      || (e.StaticSetNotReady? && p.source == Static(true) && p.stream)
      || (e.StaticReadyTimeout? && p.onStatic.readyTimer) || (e.StaticCloseTimeout? && p.onStatic.closeTimer)
      || (e.PublisherReadyTimeout? && p.onPublisher.readyTimer)
      || (e.PublisherCloseTimeout? && p.onPublisher.closeTimer) || (e.Terminate? && p.cancelled)
    ensures Enabled(p, e)
  {
  }

  // ---------------------------------------------------------------- stopping the publisher

  /** The result of the mutual recursion: source, stream, readers and command are all gone. */
  lemma StoppedPublisher(p: Path)
    requires LiveInv(p) && p.rules.OnDemandPublisher()
    ensures
      var q := PublisherStop(p);
      && q.source == NoSource && !q.stream && q.readers == {} && q.cmds.onDemand.None? && q.cmds.onReady.None?
      && q.onPublisher == Machine(Initial, p.onPublisher.readyTimer, false)
      && q == p.(source := NoSource, stream := false, readers := {}, cmds := q.cmds, onPublisher := q.onPublisher)
      && q.cmds == (if p.stream then p.cmds.CloseOnReady() else p.cmds).CloseOnDemand()
  {
    var q := p.(onPublisher := p.onPublisher.Stop());
    assert q.source == NoSource ==> !q.stream && q.readers == {};
    if q.source.Publisher? {
      assert RemovePublisher(q) == (if q.stream then SourceSetNotReady(q) else q).(source := NoSource);
    }
  }

  /** Removing a publisher takes the same way while an on-demand stop is due, a shorter one otherwise. */
  lemma RemovedPublisher(p: Path)
    requires LiveInv(p) && p.source.Publisher?
    ensures
      var q := RemovePublisher(p);
      && LiveInv(q) && q.source == NoSource && q.reqs == p.reqs
      && q == p.(source := NoSource, stream := false, readers := {}, cmds := q.cmds, onPublisher := q.onPublisher)
      && q.cmds == if !p.stream then p.cmds
                   else if p.rules.OnDemandPublisher() then p.cmds.CloseOnReady().CloseOnDemand()
                   else p.cmds.CloseOnReady()
  {
    if p.stream && p.rules.OnDemandPublisher() {
      StoppedPublisher(p);
      hide PublisherStop;
    }
  }

  // ---------------------------------------------------------------- one event

  lemma TimeoutKeeps(p: Path, e: Event)
    requires LiveInv(p) && Enabled(p, e)
    requires e.StaticReadyTimeout? || e.StaticCloseTimeout? || e.PublisherReadyTimeout? || e.PublisherCloseTimeout?
    ensures LiveInv(Handle(p, e))
  {
    if e.PublisherReadyTimeout? {
      StoppedLate(GiveUp(p.(onPublisher := p.onPublisher.(readyTimer := false))));
    } else if e.PublisherCloseTimeout? {
      StoppedLate(p.(onPublisher := p.onPublisher.(closeTimer := false)));
    }
  }

  /** `PublisherStop` right after a timer has fired, when that timer's flag no longer matches the state. */
  lemma StoppedLate(p: Path)
    requires p.rules.Sound() && p.rules.OnDemandPublisher() && !p.panicked && SourceInv(p) && StaticInv(p)
    requires p.reqs.NoneHeld() && !p.onPublisher.readyTimer
    requires p.onPublisher.closeTimer ==> p.onPublisher.state == Closing
    ensures LiveInv(PublisherStop(p))
  {
    var q := p.(onPublisher := p.onPublisher.Stop());
    if q.source.Publisher? {
      assert RemovePublisher(q) == (if q.stream then SourceSetNotReady(q) else q).(source := NoSource);
    }
  }

  lemma DemandKeeps(p: Path, req: Id, reader: Id)
    requires LiveInv(p) && !p.stream && (p.rules.OnDemandStatic() || p.rules.OnDemandPublisher())
    ensures LiveInv(Demand(p).(reqs := p.reqs.HoldDescribe(req)))
    ensures LiveInv(Demand(p).(reqs := p.reqs.HoldReader(req, reader)))
  {
  }

  lemma RequestKeeps(p: Path, e: Event)
    requires LiveInv(p) && Enabled(p, e) && (e.DescribeReq? || e.ReaderAddReq?)
    ensures LiveInv(Handle(p, e))
  {
    if !p.stream && (p.rules.OnDemandStatic() || p.rules.OnDemandPublisher()) {
      DemandKeeps(p, e.req, if e.ReaderAddReq? then e.reader else 0);
      hide Demand;
    }
  }

  lemma ReaderRemoveKeeps(p: Path, e: Event)
    requires LiveInv(p) && Enabled(p, e) && e.ReaderRemoveReq?
    ensures LiveInv(Handle(p, e))
  {
  }

  lemma ReadyKeeps(p: Path, e: Event)
    requires LiveInv(p) && Enabled(p, e) && (e.StaticSetReady? || e.StaticSetNotReady? || e.PublisherStartReq?)
    ensures LiveInv(Handle(p, e))
  {
    if p.reqs.readers != [] {
      assert p.reqs.readers[0].reader in ReadersOf(p.reqs.readers);
    }
  }

  lemma PublisherKeeps(p: Path, e: Event)
    requires LiveInv(p) && Enabled(p, e) && (e.PublisherAddReq? || e.PublisherRemoveReq? || e.PublisherStopReq?)
    ensures LiveInv(Handle(p, e))
  {
    if p.source.Publisher? {
      RemovedPublisher(p);
      hide RemovePublisher;
    }
    if e.PublisherStopReq? && p.rules.OnDemandPublisher() {
      StoppedPublisher(p);
      hide PublisherStop;
    }
  }

  lemma ReloadKeeps(p: Path, e: Event)
    requires Enabled(p, e) && e.ReloadConf?
    ensures Handle(p, e) == p
  {
    LiveUpdate(e.before, e.after);
  }

  /** Every event keeps the regulations of a running path; the panics in `start` and `stop` are never reached. */
  lemma HandleKeepsLive(p: Path, e: Event)
    requires LiveInv(p) && Enabled(p, e)
    ensures LiveInv(Handle(p, e))
  {
    hide LiveInv, Handle, Enabled;
    match e
    case StaticReadyTimeout => TimeoutKeeps(p, e);
    case StaticCloseTimeout => TimeoutKeeps(p, e);
    case PublisherReadyTimeout => TimeoutKeeps(p, e);
    case PublisherCloseTimeout => TimeoutKeeps(p, e);
    case ReloadConf(_, _) => ReloadKeeps(p, e);
    case StaticSetReady(_) => ReadyKeeps(p, e);
    case StaticSetNotReady => ReadyKeeps(p, e);
    case DescribeReq(_) => RequestKeeps(p, e);
    case PublisherRemoveReq(_) => PublisherKeeps(p, e);
    case PublisherAddReq(_) => PublisherKeeps(p, e);
    case PublisherStartReq(_, _) => ReadyKeeps(p, e);
    case PublisherStopReq(_) => PublisherKeeps(p, e);
    case ReaderAddReq(_, _) => RequestKeeps(p, e);
    case ReaderRemoveReq(_) => ReaderRemoveKeeps(p, e);
    case Cancel => NothingHandled(p);
    case Terminate => NothingHandled(p);
  }

  lemma NothingHandled(p: Path)
    ensures Handle(p, Terminate) == p
    ensures LiveInv(p) ==> LiveInv(Handle(p, Cancel))
  {
  }

  // ---------------------------------------------------------------- readers and the closing

  /** Readers follow from the on-demand state as well: there are some exactly while it is ready. */
  predicate Strict(p: Path) {
    && LiveInv(p)
    && (p.rules.OnDemandStatic() ==> (p.readers != {} <==> p.onStatic.state == Ready))
    && (p.rules.OnDemandPublisher() ==> (p.readers != {} <==> p.onPublisher.state == Ready))
  }

  /** An on-demand stream is set up while the one before still has readers. */
  predicate SetsUpOver(p: Path, e: Event) {
    && p.stream && p.readers != {}
    && (|| (e == StaticSetReady(true) && p.rules.OnDemandStatic())
        || (e.PublisherStartReq? && e.ok && p.source == Publisher(e.author) && p.rules.OnDemandPublisher()))
  }

  /** With the closing scheduled over readers: another joins, the last one leaves, or the stream ends. */
  predicate Recovers(p: Path, e: Event) {
    match e
    case StaticCloseTimeout => true
    case PublisherCloseTimeout => true
    case StaticSetNotReady => true
    case PublisherStopReq(author) => p.source == Publisher(author)
    case PublisherRemoveReq(author) => p.source == Publisher(author)
    case PublisherAddReq(_) => !p.rules.noOverride && p.rules.OnDemandPublisher()
    case ReaderAddReq(_, _) => true
    case ReaderRemoveReq(reader) => p.readers <= {reader}
    case _ => false
  }

  predicate StrictAfter(p: Path, e: Event, strict: bool) {
    if strict then !SetsUpOver(p, e) else Recovers(p, e)
  }

  lemma UncancelledIsStrict(p: Path)
    requires LiveInv(p) && !p.cancelled
    ensures Strict(p)
  {
  }

  lemma StrictReady(p: Path, e: Event)
    requires LiveInv(p) && Enabled(p, e) && (e.StaticSetReady? || e.PublisherStartReq?)
    ensures Strict(Handle(p, e)) <==> StrictAfter(p, e, Strict(p))
  {
    ReadyKeeps(p, e);
    if p.reqs.readers != [] {
      assert p.reqs.readers[0].reader in ReadersOf(p.reqs.readers);
    }
  }

  lemma StrictPublisher(p: Path, e: Event)
    requires LiveInv(p) && Enabled(p, e)
    requires
      || e.PublisherReadyTimeout? || e.PublisherCloseTimeout? || e.PublisherStopReq? || e.PublisherAddReq?
      || e.PublisherRemoveReq?
    ensures Strict(Handle(p, e)) <==> StrictAfter(p, e, Strict(p))
  {
    hide PublisherStop, RemovePublisher, RulesOf;
    HandleKeepsLive(p, e);
    match e
    case PublisherReadyTimeout => StoppedReaders(GiveUp(p.(onPublisher := p.onPublisher.(readyTimer := false))));
    case PublisherCloseTimeout => StoppedReaders(p.(onPublisher := p.onPublisher.(closeTimer := false)));
    case PublisherStopReq(_) =>
      if p.rules.OnDemandPublisher() {
        StoppedPublisher(p);
      }
    case PublisherAddReq(_) =>
      if p.source.Publisher? {
        RemovedPublisher(p);
      }
    case PublisherRemoveReq(_) =>
      if p.source.Publisher? {
        RemovedPublisher(p);
      }
  }

  lemma StoppedReaders(p: Path)
    requires SourceInv(p) && p.rules.Sound() && p.rules.OnDemandPublisher()
    ensures
      var q := PublisherStop(p);
      q.readers == {} && !q.stream && q.rules == p.rules && q.onPublisher.state == Initial && q.onStatic == p.onStatic
  {
    var q := p.(onPublisher := p.onPublisher.Stop());
    if q.source.Publisher? {
      assert RemovePublisher(q) == (if q.stream then SourceSetNotReady(q) else q).(source := NoSource);
    }
  }

  lemma StrictRest(p: Path, e: Event)
    requires LiveInv(p) && Enabled(p, e)
    requires
      || e.StaticReadyTimeout? || e.StaticCloseTimeout? || e.StaticSetNotReady? || e.DescribeReq? || e.ReaderAddReq?
      || e.ReaderRemoveReq? || e.Cancel? || e.Terminate?
    ensures Strict(Handle(p, e)) <==> StrictAfter(p, e, Strict(p))
  {
    hide PublisherStop, RemovePublisher, RulesOf;
    HandleKeepsLive(p, e);
  }

  lemma StrictReload(p: Path, e: Event)
    requires LiveInv(p) && Enabled(p, e) && e.ReloadConf?
    ensures Strict(Handle(p, e)) <==> StrictAfter(p, e, Strict(p))
  {
    ReloadKeeps(p, e);
    hide Handle, LiveInv;
  }

  /**
   * An event leaves readers and state in agreement exactly if it does not set a stream up over readers; and once they
   * disagree, exactly if it recovers.
   */
  lemma StrictIff(p: Path, e: Event)
    requires LiveInv(p) && Enabled(p, e)
    ensures Strict(Handle(p, e)) <==> StrictAfter(p, e, Strict(p))
  {
    hide LiveInv, Handle, Enabled, Strict, StrictAfter;
    match e
    case PublisherReadyTimeout => StrictPublisher(p, e);
    case PublisherCloseTimeout => StrictPublisher(p, e);
    case PublisherStopReq(_) => StrictPublisher(p, e);
    case PublisherAddReq(_) => StrictPublisher(p, e);
    case PublisherRemoveReq(_) => StrictPublisher(p, e);
    case StaticSetReady(_) => StrictReady(p, e);
    case PublisherStartReq(_, _) => StrictReady(p, e);
    case ReloadConf(_, _) => StrictReload(p, e);
    case _ => StrictRest(p, e);
  }

  /** What each event does to the requests. */
  lemma HandleRequests(p: Path, e: Event)
    requires LiveInv(p) && Enabled(p, e)
    ensures
      var r := Handle(p, e).reqs;
      || r == p.reqs || r == p.reqs.AnswerHeld(TimedOut) || r == p.reqs.Release()
      || (e.DescribeReq? && (r == p.reqs.HoldDescribe(e.req) || exists a :: r == p.reqs.Answer(e.req, a)))
      || (e.ReaderAddReq? && (r == p.reqs.HoldReader(e.req, e.reader) || exists a :: r == p.reqs.Answer(e.req, a)))
  {
    if e.PublisherReadyTimeout? {
      StopKeepsRequests(GiveUp(p.(onPublisher := p.onPublisher.(readyTimer := false))));
    } else if e.PublisherCloseTimeout? {
      StopKeepsRequests(p.(onPublisher := p.onPublisher.(closeTimer := false)));
    } else {
      StopKeepsRequests(p);
    }
    hide PublisherStop, RemovePublisher;
  }

  lemma StopKeepsRequests(p: Path)
    ensures PublisherStop(p).reqs == p.reqs && RemovePublisher(p).reqs == p.reqs
  {
  }

  lemma HandleKeepsRequests(p: Path, e: Event)
    requires LiveInv(p) && Enabled(p, e) && Conserved(p.reqs)
    ensures Conserved(Handle(p, e).reqs)
  {
    HandleRequests(p, e);
    hide Handle, LiveInv, Enabled, Conserved;
    AnswerHeldKeeps(p.reqs, TimedOut);
    ReleaseKeeps(p.reqs);
    if e.DescribeReq? || e.ReaderAddReq? {
      forall a: Answer
        ensures Conserved(p.reqs.Answer(e.req, a))
      {
        TakeKeeps(p.reqs, e.req, 0, a);
      }
      TakeKeeps(p.reqs, e.req, if e.ReaderAddReq? then e.reader else 0, Terminated);
    }
  }

  /** A stream is set up while the one before, with its ready command, is still there. */
  predicate Overwrites(p: Path, e: Event) {
    && p.stream && p.rules.runOnReady
    && (e == StaticSetReady(true) || (e.PublisherStartReq? && e.ok && p.source == Publisher(e.author)))
  }

  /** What an event can do to the commands. */
  predicate CommandStep(c: Commands, d: Commands, overwrites: bool) {
    if overwrites then d == c.StartOnReady() && c.onReady.Some?
    else
      || d == c
      || d == c.CloseOnReady() || d == c.CloseOnDemand() || d == c.CloseOnReady().CloseOnDemand()
      || (d == c.StartOnReady() && c.onReady.None?)
      || (d == c.StartOnDemand() && c.onDemand.None?)
  }

  lemma HandleCommands(p: Path, e: Event)
    requires LiveInv(p) && Enabled(p, e)
    ensures CommandStep(p.cmds, Handle(p, e).cmds, Overwrites(p, e))
  {
    match e
    case PublisherReadyTimeout => PublisherCommands(p, e);
    case PublisherCloseTimeout => PublisherCommands(p, e);
    case PublisherStopReq(_) => PublisherCommands(p, e);
    case PublisherAddReq(_) => PublisherCommands(p, e);
    case PublisherRemoveReq(_) => PublisherCommands(p, e);
    case _ =>
    hide PublisherStop, RemovePublisher, RulesOf;
  }

  lemma PublisherCommands(p: Path, e: Event)
    requires LiveInv(p) && Enabled(p, e)
    requires
      || e.PublisherReadyTimeout? || e.PublisherCloseTimeout? || e.PublisherStopReq? || e.PublisherAddReq?
      || e.PublisherRemoveReq?
    ensures CommandStep(p.cmds, Handle(p, e).cmds, Overwrites(p, e))
  {
    hide PublisherStop, RemovePublisher, RulesOf;
    match e
    case PublisherReadyTimeout => StoppedCommands(GiveUp(p.(onPublisher := p.onPublisher.(readyTimer := false))));
    case PublisherCloseTimeout => StoppedCommands(p.(onPublisher := p.onPublisher.(closeTimer := false)));
    case PublisherStopReq(_) =>
      if p.rules.OnDemandPublisher() {
        StoppedPublisher(p);
      }
    case PublisherAddReq(_) =>
      if p.source.Publisher? {
        RemovedPublisher(p);
      }
    case PublisherRemoveReq(_) =>
      if p.source.Publisher? {
        RemovedPublisher(p);
      }
  }

  lemma StoppedCommands(p: Path)
    ensures
      var c := PublisherStop(p).cmds;
      c == p.cmds.CloseOnDemand() || c == p.cmds.CloseOnReady().CloseOnDemand()
  {
    var q := p.(onPublisher := p.onPublisher.Stop());
    if q.source.Publisher? {
      assert RemovePublisher(q) == (if q.stream then SourceSetNotReady(q) else q).(source := NoSource);
    }
  }

  /** How often a command occurs after an event: only starting adds to it, and only overwriting takes away. */
  lemma CommandsMove(c: Commands, d: Commands, overwrites: bool, id: Id)
    requires CommandStep(c, d, overwrites)
    ensures c.started <= d.started <= c.started + 1
    ensures
      Occurrences(d, id)
      == Occurrences(c, id) + (if d.started > c.started == id then 1 else 0)
         - if overwrites then Is(c.onReady, id) else 0
  {
    CloseMoves(c, id);
    CloseMoves(c.CloseOnReady(), id);
    StartAdds(c, id);
    hide Occurrences;
  }

  /** No event makes a command occur twice, and one that is missing stays missing. */
  lemma HandleKeepsCommands(p: Path, e: Event)
    requires LiveInv(p) && Enabled(p, e) && NeverTwice(p.cmds)
    ensures NeverTwice(Handle(p, e).cmds)
    ensures forall id: Id :: Missing(p.cmds, id) ==> Missing(Handle(p, e).cmds, id)
  {
    HandleCommands(p, e);
    hide Handle, LiveInv, Enabled, Occurrences, CommandStep;
    forall id: Id
      ensures Occurrences(Handle(p, e).cmds, id) <= if id < Handle(p, e).cmds.started then 1 else 0
      ensures Missing(p.cmds, id) ==> Missing(Handle(p, e).cmds, id)
    {
      CommandsMove(p.cmds, Handle(p, e).cmds, Overwrites(p, e), id);
    }
  }

  /** Commands stay accounted for if and only if the event does not overwrite one. */
  lemma AccountedUnlessOverwritten(p: Path, e: Event)
    requires LiveInv(p) && Enabled(p, e) && Accounted(p.cmds)
    ensures
      var c := Handle(p, e).cmds;
      if Overwrites(p, e) then p.cmds.onReady.Some? && Missing(c, p.cmds.onReady.value) else Accounted(c)
  {
    HandleCommands(p, e);
    hide Handle, LiveInv, Enabled, Occurrences;
    var c := Handle(p, e).cmds;
    if Overwrites(p, e) {
      var id := p.cmds.onReady.value;
      CommandsMove(p.cmds, c, true, id);
      LiveIsOnce(p.cmds, id);
    } else {
      forall id: Id
        ensures Occurrences(c, id) == if id < c.started then 1 else 0
      {
        CommandsMove(p.cmds, c, false, id);
      }
    }
  }

  lemma LiveIsOnce(c: Commands, id: Id)
    requires Accounted(c) && c.onReady == Some(id)
    ensures id < c.started && Occurrences(c, id) == 1
  {
    assert Occurrences(c, id) >= 1;
  }

  /**
   * The cases that do not ask whether the path is still in use need not ask: none of them makes a used path
   * superfluous, because readers need a stream and a stream needs a source.
   */
  lemma UncheckedStaysInUse(p: Path, e: Event)
    requires LiveInv(p) && Enabled(p, e) && !Rechecks(e)
    requires e.PublisherAddReq? || !ShouldClose(p)
    ensures !ShouldClose(Handle(p, e))
  {
    if e.ReloadConf? {
      ReloadKeeps(p, e);
    }
    hide RemovePublisher, RulesOf;
  }

  lemma ShutdownClears(p: Path)
    requires LiveInv(p) && Conserved(p.reqs) && NeverTwice(p.cmds)
    ensures Inv(Shutdown(p)) && !Shutdown(p).alive
  {
    AnswerHeldKeeps(p.reqs, Terminated);
    ShutdownCommands(p);
    hide NeverTwice, Conserved;
  }

  /** The end of the loop only moves commands to the log of closed ones. */
  lemma ShutdownCommands(p: Path)
    ensures NeverTwice(p.cmds) ==> NeverTwice(Shutdown(p).cmds)
    ensures Accounted(p.cmds) ==> Accounted(Shutdown(p).cmds)
    ensures forall id: Id :: Missing(p.cmds, id) ==> Missing(Shutdown(p).cmds, id)
  {
    assert Shutdown(p).cmds.started == p.cmds.started;
    forall id: Id
      ensures Occurrences(Shutdown(p).cmds, id) == Occurrences(p.cmds, id)
    {
      CloseMoves(p.cmds, id);
      CloseMoves(p.cmds.CloseOnInit(), id);
      CloseMoves(p.cmds.CloseOnInit().CloseOnReady(), id);
      hide Occurrences;
    }
    hide Occurrences, Shutdown;
  }

  lemma UsedFlag(p: Path, used: bool)
    requires LiveInv(p)
    ensures LiveInv(p.(used := used)) && ShouldClose(p.(used := used)) == ShouldClose(p)
  {
  }

  lemma StepKeepsInv(p: Path, e: Event)
    requires Inv(p) && Enabled(p, e)
    ensures Inv(Step(p, e))
  {
    hide Handle, LiveInv, NeverTwice, Conserved, Shutdown, Cleared, ShouldClose;
    HandleKeepsLive(p, e);
    HandleKeepsRequests(p, e);
    HandleKeepsCommands(p, e);
    var h := Handle(p, e);
    var q := h.(used := p.used || FirstUse(e));
    UsedFlag(h, q.used);
    if !Rechecks(e) && (p.used || e.PublisherAddReq?) {
      UncheckedStaysInUse(p, e);
    }
    AliveStays(p, e);
    ShutdownClears(q);
  }

  lemma AliveStays(p: Path, e: Event)
    requires LiveInv(p) && Enabled(p, e)
    ensures Handle(p, e).alive
  {
    if e.PublisherReadyTimeout? {
      StopKeepsAlive(GiveUp(p.(onPublisher := p.onPublisher.(readyTimer := false))));
    } else if e.PublisherCloseTimeout? {
      StopKeepsAlive(p.(onPublisher := p.onPublisher.(closeTimer := false)));
    } else {
      StopKeepsAlive(p);
    }
    hide PublisherStop, RemovePublisher;
  }

  lemma StopKeepsAlive(p: Path)
    ensures PublisherStop(p).alive == p.alive && RemovePublisher(p).alive == p.alive
  {
  }

  // ---------------------------------------------------------------- whole runs

  lemma NewPathInv(rules: Rules)
    requires rules.Sound()
    ensures Inv(NewPath(rules)) && Accounted(NewPath(rules).cmds)
  {
    var p := NewPath(rules);
    assert Answered([]) == [] && RequestsOf([]) == [];
    forall id: Id
      ensures Occurrences(p.cmds, id) == if id < p.cmds.started then 1 else 0
    {
    }
  }

  lemma {:induction false} RunKeepsInv(p: Path, es: seq<Event>)
    requires Inv(p) && Possible(p, es)
    ensures Inv(RunAll(p, es))
    decreases |es|
  {
    if es != [] {
      StepKeepsInv(p, es[0]);
      hide Inv, Step, Enabled;
      RunKeepsInv(Step(p, es[0]), es[1..]);
    }
  }

  /** The invariant holds after every possible run of every path with an accepted configuration. */
  lemma EveryRun(conf: PathConf, es: seq<Event>)
    requires conf.Sound() && Possible(NewPath(RulesOf(conf)), es)
    ensures Inv(RunAll(NewPath(RulesOf(conf)), es))
  {
    RulesAreFaithful(conf);
    NewPathInv(RulesOf(conf));
    RunKeepsInv(NewPath(RulesOf(conf)), es);
  }

  /**
   * Over the whole life of a path that has ended, every request it took in was answered exactly once; before the
   * end, one that is on hold has not been answered yet.
   */
  lemma AnsweredExactlyOnce(conf: PathConf, es: seq<Event>, req: Id)
    requires conf.Sound() && Possible(NewPath(RulesOf(conf)), es)
    requires multiset(RunAll(NewPath(RulesOf(conf)), es).reqs.accepted)[req] == 1
    ensures
      var p := RunAll(NewPath(RulesOf(conf)), es);
      var held := req in p.reqs.describes || req in RequestsOf(p.reqs.readers);
      && multiset(Answered(p.reqs.replies))[req] == (if held then 0 else 1)
      && (!p.alive ==> !held)
      && (held ==>
            || (p.rules.OnDemandStatic() && p.onStatic.state == WaitingReady && p.onStatic.readyTimer)
            || (p.rules.OnDemandPublisher() && p.onPublisher.state == WaitingReady && p.onPublisher.readyTimer))
  {
    EveryRun(conf, es);
    var p := RunAll(NewPath(RulesOf(conf)), es);
    hide RunAll, Possible, NewPath, RulesOf, NeverTwice;
    var m := multiset(Answered(p.reqs.replies)) + multiset(p.reqs.describes) + multiset(RequestsOf(p.reqs.readers));
    assert m[req] == 1;
    assert req in p.reqs.describes <==> multiset(p.reqs.describes)[req] > 0;
    assert req in RequestsOf(p.reqs.readers) <==> multiset(RequestsOf(p.reqs.readers))[req] > 0;
    if p.reqs.NoneHeld() {
      assert RequestsOf([]) == [];
    }
  }

  lemma StepStrict(p: Path, e: Event)
    requires Inv(p) && Enabled(p, e) && Step(p, e).alive
    ensures Strict(Step(p, e)) <==> StrictAfter(p, e, Strict(p))
  {
    hide Handle, LiveInv, NeverTwice, Conserved, ShouldClose;
    StrictIff(p, e);
    HandleKeepsLive(p, e);
    UsedFlag(Handle(p, e), p.used || FirstUse(e));
  }

  /** Whether readers and state agree at the end of a run, told from its events alone. */
  predicate EndsStrict(p: Path, es: seq<Event>, strict: bool)
    decreases |es|
  {
    if es == [] then strict else EndsStrict(Step(p, es[0]), es[1..], StrictAfter(p, es[0], strict))
  }

  /** Over whole runs, as long as the path is alive. */
  lemma {:induction false} StrictRunIff(p: Path, es: seq<Event>)
    requires Inv(p) && Possible(p, es) && RunAll(p, es).alive
    ensures Strict(RunAll(p, es)) <==> EndsStrict(p, es, Strict(p))
    decreases |es|
  {
    if es != [] {
      var q := Step(p, es[0]);
      StepKeepsInv(p, es[0]);
      if !q.alive {
        DeadStays(q, es[1..]);
      }
      StepStrict(p, es[0]);
      hide Inv, Step, Enabled, Strict, StrictAfter;
      StrictRunIff(q, es[1..]);
    }
  }

  lemma DeadStays(p: Path, es: seq<Event>)
    requires !p.alive && Possible(p, es)
    ensures es == []
  {
  }

  predicate NeverSetsUpOver(p: Path, es: seq<Event>)
    decreases |es|
  {
    es == [] || (!SetsUpOver(p, es[0]) && NeverSetsUpOver(Step(p, es[0]), es[1..]))
  }

  /** While no stream is set up over readers, the closing is scheduled only for a path without readers. */
  lemma {:induction false} StrictThroughout(p: Path, es: seq<Event>)
    requires NeverSetsUpOver(p, es)
    ensures EndsStrict(p, es, true)
    decreases |es|
  {
    if es != [] {
      hide Step, SetsUpOver;
      StrictThroughout(Step(p, es[0]), es[1..]);
    }
  }

  /** And so for every run of every path with an accepted configuration, in particular for one never cancelled. */
  lemma EveryRunIsStrict(conf: PathConf, es: seq<Event>)
    requires conf.Sound() && Possible(NewPath(RulesOf(conf)), es)
    ensures
      var p := RunAll(NewPath(RulesOf(conf)), es);
      p.alive ==>
        && (Strict(p) <==> EndsStrict(NewPath(RulesOf(conf)), es, true))
        && (NeverSetsUpOver(NewPath(RulesOf(conf)), es) || !p.cancelled ==> Strict(p))
  {
    var start := NewPath(RulesOf(conf));
    RulesAreFaithful(conf);
    NewPathInv(RulesOf(conf));
    UncancelledIsStrict(start);
    EveryRun(conf, es);
    if RunAll(start, es).alive {
      StrictRunIff(start, es);
      if NeverSetsUpOver(start, es) {
        StrictThroughout(start, es);
      }
      if !RunAll(start, es).cancelled {
        UncancelledIsStrict(RunAll(start, es));
      }
    }
  }

  /** Setting a stream up over readers takes a path whose context is cancelled. */
  lemma SettingUpOverIsCancelled(p: Path, e: Event)
    requires Enabled(p, e) && SetsUpOver(p, e)
    ensures p.cancelled
  {
  }

  predicate NeverOverwrites(p: Path, es: seq<Event>)
    decreases |es|
  {
    es == [] || (!Overwrites(p, es[0]) && NeverOverwrites(Step(p, es[0]), es[1..]))
  }

  lemma StepCommands(p: Path, e: Event)
    requires Inv(p) && Enabled(p, e)
    ensures forall id: Id :: Missing(p.cmds, id) ==> Missing(Step(p, e).cmds, id)
    ensures Accounted(p.cmds) ==>
      if Overwrites(p, e) then p.cmds.onReady.Some? && Missing(Step(p, e).cmds, p.cmds.onReady.value)
      else Accounted(Step(p, e).cmds)
  {
    hide Handle, LiveInv, Shutdown, ShouldClose, Missing, Accounted, NeverTwice, Overwrites;
    HandleKeepsCommands(p, e);
    if Accounted(p.cmds) {
      AccountedUnlessOverwritten(p, e);
    }
    ShutdownCommands(Handle(p, e).(used := p.used || FirstUse(e)));
  }

  lemma {:induction false} MissingStays(p: Path, es: seq<Event>, id: Id)
    requires Inv(p) && Possible(p, es) && Missing(p.cmds, id)
    ensures Missing(RunAll(p, es).cmds, id)
    decreases |es|
  {
    if es != [] {
      StepKeepsInv(p, es[0]);
      StepCommands(p, es[0]);
      hide Inv, Step, Enabled, Missing, Accounted;
      MissingStays(Step(p, es[0]), es[1..], id);
    }
  }

  /** Over whole runs: commands are accounted for at the end if and only if none was overwritten. */
  lemma {:induction false} AccountedIff(p: Path, es: seq<Event>)
    requires Inv(p) && Possible(p, es) && Accounted(p.cmds)
    ensures Accounted(RunAll(p, es).cmds) <==> NeverOverwrites(p, es)
    decreases |es|
  {
    if es != [] {
      StepKeepsInv(p, es[0]);
      StepCommands(p, es[0]);
      var q := Step(p, es[0]);
      if Overwrites(p, es[0]) {
        var id := p.cmds.onReady.value;
        MissingStays(q, es[1..], id);
        assert Occurrences(RunAll(p, es).cmds, id) == 0;
      } else {
        hide Inv, Step, Enabled, Missing, Accounted, Overwrites;
        AccountedIff(q, es[1..]);
      }
    }
  }

  /** Every command started is closed exactly once. */
  ghost predicate AllClosedOnce(c: Commands) {
    forall cmd: Id :: multiset(c.closed)[cmd] == if cmd < c.started then 1 else 0
  }

  /**
   * From any point of a path's life: no command is ever closed twice, and by the end each one started has been closed
   * if and only if no stream was set up over another with its ready command.
   */
  lemma ClosedIff(p: Path, es: seq<Event>)
    requires Inv(p) && Possible(p, es) && Accounted(p.cmds)
    ensures forall cmd: Id :: multiset(RunAll(p, es).cmds.closed)[cmd] <= 1
    ensures !RunAll(p, es).alive ==> (AllClosedOnce(RunAll(p, es).cmds) <==> NeverOverwrites(p, es))
  {
    RunKeepsInv(p, es);
    AccountedIff(p, es);
    var q := RunAll(p, es);
    hide RunAll, Possible, Conserved, NeverOverwrites;
    forall cmd: Id
      ensures multiset(q.cmds.closed)[cmd] <= Occurrences(q.cmds, cmd) <= 1
      ensures !q.alive ==> Occurrences(q.cmds, cmd) == multiset(q.cmds.closed)[cmd]
    {
    }
    hide Occurrences;
  }

  /** And so for every run of every path with an accepted configuration. */
  lemma ClosedExactlyOnceIff(conf: PathConf, es: seq<Event>)
    requires conf.Sound() && Possible(NewPath(RulesOf(conf)), es)
    ensures
      var p := RunAll(NewPath(RulesOf(conf)), es);
      && (forall cmd: Id :: multiset(p.cmds.closed)[cmd] <= 1)
      && (!p.alive ==> (AllClosedOnce(p.cmds) <==> NeverOverwrites(NewPath(RulesOf(conf)), es)))
  {
    RulesAreFaithful(conf);
    NewPathInv(RulesOf(conf));
    ClosedIff(NewPath(RulesOf(conf)), es);
  }

  /** Nothing is on hold at the end, so what was accepted is what was answered. */
  lemma AllAnswered(p: Path)
    requires Inv(p) && !p.alive
    ensures multiset(p.reqs.accepted) == multiset(Answered(p.reqs.replies))
  {
    assert RequestsOf([]) == [];
  }

  /** Overwriting takes a path whose context is cancelled. */
  lemma OverwritingIsCancelled(p: Path, e: Event)
    requires Enabled(p, e) && Overwrites(p, e)
    ensures p.cancelled
  {
  }

  /**
   * Such a run: a static source becomes ready, the path is cancelled, and before it notices the source becomes ready
   * once more. The first ready command is never closed.
   */
  lemma LostCommand(rules: Rules)
    requires rules.Sound() && rules.kind == ByStatic && !rules.sourceOnDemand && rules.runOnReady && !rules.runOnInit
    ensures
      var es := [StaticSetReady(true), Cancel, StaticSetReady(true), Terminate];
      && Possible(NewPath(rules), es)
      && var p := RunAll(NewPath(rules), es);
      && !p.alive && p.cmds.started == 2 && p.cmds.closed == [1]
  {
    hide Step, Enabled, Possible, RunAll;
    var p0 := NewPath(rules);
    var p1 := p0.(stream := true, cmds := p0.cmds.StartOnReady());
    var p2 := p1.(cancelled := true);
    var p3 := p2.(cmds := p2.cmds.StartOnReady());
    ReadyAgain(p0);
    CancelOnly(p1);
    ReadyAgain(p2);
    EndsAfter(p3);
    var ready := StaticSetReady(true);
    RunFirst(p2, ready, [Terminate]);
    assert [ready] + [Terminate] == [ready, Terminate];
    RunFirst(p1, Cancel, [ready, Terminate]);
    assert [Cancel] + [ready, Terminate] == [Cancel, ready, Terminate];
    RunFirst(p0, ready, [Cancel, ready, Terminate]);
    assert [ready] + [Cancel, ready, Terminate] == [ready, Cancel, ready, Terminate];
  }

  /**
   * Such a run: a reader waits for an on-demand static source, the source becomes ready, the path is cancelled, and
   * before it notices the source becomes ready once more. The closing is now scheduled over the reader's head.
   */
  lemma ClosingOverReader(rules: Rules, reader: Id)
    requires rules.Sound() && rules.OnDemandStatic()
    ensures
      var es := [ReaderAddReq(0, reader), StaticSetReady(true), Cancel, StaticSetReady(true)];
      && Possible(NewPath(rules), es)
      && var p := RunAll(NewPath(rules), es);
      && p.alive && p.readers == {reader} && p.onStatic == Machine(Closing, false, true) && !Strict(p)
  {
    hide Step, Enabled, Possible, RunAll;
    var p0 := NewPath(rules);
    var p1 := p0.(source := Static(true), onStatic := Machine(WaitingReady, true, false),
                  reqs := p0.reqs.HoldReader(0, reader), used := true);
    var p2 := SourceSetReady(p1).(readers := {reader}, onStatic := Machine(Ready, false, false),
                                  reqs := p1.reqs.Release());
    var p3 := p2.(cancelled := true);
    var p4 := SourceSetReady(p3).(onStatic := Machine(Closing, false, true), reqs := p3.reqs.Release());
    FirstReader(p0, reader);
    FirstReady(p1, reader);
    CancelOnly(p2);
    ReadyOver(p3);
    var ready := StaticSetReady(true);
    assert Possible(p4, []) && RunAll(p4, []) == p4 by {
      NoEvents(p4);
    }
    RunFirst(p3, ready, []);
    assert [ready] + [] == [ready];
    RunFirst(p2, Cancel, [ready]);
    assert [Cancel] + [ready] == [Cancel, ready];
    RunFirst(p1, ready, [Cancel, ready]);
    assert [ready] + [Cancel, ready] == [ready, Cancel, ready];
    RunFirst(p0, ReaderAddReq(0, reader), [ready, Cancel, ready]);
    assert [ReaderAddReq(0, reader)] + [ready, Cancel, ready] == [ReaderAddReq(0, reader), ready, Cancel, ready];
  }

  lemma NoEvents(p: Path)
    ensures Possible(p, []) && RunAll(p, []) == p
  {
  }

  lemma FirstReader(p: Path, reader: Id)
    requires p.alive && p.rules.OnDemandStatic() && p.source == Static(false) && !p.stream && p.onStatic == IDLE
    ensures Enabled(p, ReaderAddReq(0, reader))
    ensures
      Step(p, ReaderAddReq(0, reader))
      == p.(source := Static(true), onStatic := Machine(WaitingReady, true, false),
            reqs := p.reqs.HoldReader(0, reader), used := true)
  {
  }

  lemma FirstReady(p: Path, reader: Id)
    requires p.alive && p.rules.OnDemandStatic() && p.source == Static(true) && !p.stream && p.used
    requires p.onStatic == Machine(WaitingReady, true, false) && p.readers == {}
    requires p.reqs.readers == [HeldReader(0, reader)]
    ensures Enabled(p, StaticSetReady(true))
    ensures
      Step(p, StaticSetReady(true))
      == SourceSetReady(p).(readers := {reader}, onStatic := Machine(Ready, false, false), reqs := p.reqs.Release())
  {
    assert ReadersOf(p.reqs.readers) == {reader};
  }

  lemma ReadyOver(p: Path)
    requires p.alive && p.rules.OnDemandStatic() && p.source == Static(true) && p.cancelled && p.used
    requires p.onStatic == Machine(Ready, false, false) && p.reqs.readers == []
    ensures Enabled(p, StaticSetReady(true))
    ensures
      Step(p, StaticSetReady(true))
      == SourceSetReady(p).(onStatic := Machine(Closing, false, true), reqs := p.reqs.Release())
  {
  }

  lemma CancelOnly(p: Path)
    requires p.alive
    ensures Enabled(p, Cancel) && Step(p, Cancel) == p.(cancelled := true)
  {
  }

  lemma EndsAfter(p: Path)
    requires p.alive && p.cancelled && p.stream
    ensures Enabled(p, Terminate) && RunAll(p, [Terminate]) == Step(p, Terminate)
    ensures Possible(p, [Terminate]) && !RunAll(p, [Terminate]).alive
    ensures RunAll(p, [Terminate]).cmds == p.cmds.CloseOnInit().CloseOnReady().CloseOnDemand()
  {
    assert [Terminate][1..] == [];
    assert RunAll(Step(p, Terminate), []) == Step(p, Terminate);
  }

  lemma ReadyAgain(p: Path)
    requires p.alive && p.source == Static(true) && (p.stream ==> p.cancelled) && p.rules.runOnReady
    requires !p.rules.OnDemandStatic() && !p.used
    ensures Enabled(p, StaticSetReady(true))
    ensures Step(p, StaticSetReady(true)) == p.(stream := true, cmds := p.cmds.StartOnReady())
  {
  }

  lemma RunFirst(p: Path, e: Event, rest: seq<Event>)
    requires Enabled(p, e) && Possible(Step(p, e), rest)
    ensures Possible(p, [e] + rest) && RunAll(p, [e] + rest) == RunAll(Step(p, e), rest)
  {
    hide Step, Enabled;
    assert ([e] + rest)[1..] == rest;
  }

  /** A path for a regular expression never sits idle in its loop once it has been used. */
  lemma NoIdlePath(conf: PathConf, es: seq<Event>)
    requires conf.Sound() && Possible(NewPath(RulesOf(conf)), es)
    ensures
      var p := RunAll(NewPath(RulesOf(conf)), es);
      p.alive && p.used && p.rules.pattern ==> p.source != NoSource || p.readers != {} || !p.reqs.NoneHeld()
  {
    EveryRun(conf, es);
  }

  /** A path ends by itself only if its configuration is for a regular expression. */
  lemma {:induction false} PlainGoesOn(p: Path, es: seq<Event>)
    requires p.alive && !p.rules.pattern && LiveInv(p) && Possible(p, es) && Terminate !in es
    ensures RunAll(p, es).alive && !RunAll(p, es).rules.pattern
    decreases |es|
  {
    if es != [] {
      var e := es[0];
      assert e in es;
      HandleKeepsLive(p, e);
      AliveStays(p, e);
      RulesStay(p, e);
      UsedFlag(Handle(p, e), p.used || FirstUse(e));
      hide Handle, LiveInv, Enabled;
      PlainGoesOn(Step(p, e), es[1..]);
    }
  }

  lemma RulesStay(p: Path, e: Event)
    requires LiveInv(p) && Enabled(p, e)
    ensures Handle(p, e).rules == p.rules
  {
    if e.PublisherReadyTimeout? {
      StopKeepsRules(GiveUp(p.(onPublisher := p.onPublisher.(readyTimer := false))));
    } else if e.PublisherCloseTimeout? {
      StopKeepsRules(p.(onPublisher := p.onPublisher.(closeTimer := false)));
    } else {
      StopKeepsRules(p);
    }
    hide PublisherStop, RemovePublisher;
    if e.ReloadConf? {
      LiveUpdate(e.before, e.after);
    }
  }

  lemma StopKeepsRules(p: Path)
    ensures PublisherStop(p).rules == p.rules && RemovePublisher(p).rules == p.rules
  {
  }

  lemma ReleasedMeansReading(p: Path, e: Event, k: nat)
    requires LiveInv(p) && Enabled(p, e) && (e.StaticSetReady? || e.PublisherStartReq?)
    requires |p.reqs.replies| <= k < |Handle(p, e).reqs.replies| && Handle(p, e).reqs.replies[k].answer.Joined?
    ensures Handle(p, e).stream && Handle(p, e).reqs.replies[k].answer.reader in Handle(p, e).readers
  {
    var j := k - |p.reqs.replies| - |p.reqs.describes|;
    if j >= 0 {
      assert Handle(p, e).reqs.replies[k] == JoinAll(p.reqs.readers)[j];
      assert p.reqs.readers[j].reader in ReadersOf(p.reqs.readers);
    }
  }

  /** A reader that is told it has joined is one of the readers, and there is a stream for it. */
  lemma JoinedMeansReading(p: Path, e: Event, k: nat)
    requires LiveInv(p) && Enabled(p, e)
    requires |p.reqs.replies| <= k < |Handle(p, e).reqs.replies| && Handle(p, e).reqs.replies[k].answer.Joined?
    ensures Handle(p, e).stream && Handle(p, e).reqs.replies[k].answer.reader in Handle(p, e).readers
  {
    hide PublisherStop, RemovePublisher, RulesOf;
    if e.StaticSetReady? || e.PublisherStartReq? {
      ReleasedMeansReading(p, e, k);
      return;
    }
    if e.PublisherReadyTimeout? {
      StopKeepsRequests(GiveUp(p.(onPublisher := p.onPublisher.(readyTimer := false))));
    } else if e.PublisherCloseTimeout? {
      StopKeepsRequests(p.(onPublisher := p.onPublisher.(closeTimer := false)));
    } else {
      StopKeepsRequests(p);
    }
  }
}
