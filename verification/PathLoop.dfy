/** The path object and its event loop (internal/core/path.go). */
module PathLoop {
  import opened Bytes
  import opened PathConf
  import opened PathSpec
  import PathProofs
  import PathStory

  class PathObject {
    var conf: PathConf
    var source: Source
    var stream: bool
    var readers: set<Id>
    var onStatic: Machine                    // on-demand static source: state, ready timer, close timer
    var onPublisher: Machine                 // on-demand publisher: state, ready timer, close timer
    var reqs: Requests                       // requests on hold, and the log of all requests and answers
    var cmds: Commands                       // commands running, and the log of all commands
    var alive: bool
    var cancelled: bool                      // the context is cancelled
    var used: bool
    var panicked: bool

    /** The path as the state machine sees it. */
    function State(): Path
      reads this
    {
      Path(RulesOf(conf), source, stream, readers, onStatic, onPublisher, reqs, cmds, alive, cancelled, used, panicked)
    }

    /** The configuration was accepted, so the rules drawn from it say the same as its own questions. */
    lemma Faithful()
      requires conf.Sound()
      ensures
        var r := RulesOf(conf);
        && (r.OnDemandStatic() <==> conf.HasOnDemandStaticSource())
        && (r.OnDemandPublisher() <==> conf.HasOnDemandPublisher())
        && (r.kind == ByPublisher <==> conf.source == "publisher")
        && (r.runOnReady <==> conf.runOnReady != "") && (r.pattern <==> conf.regexp.Some?)
        && r.noOverride == conf.disablePublisherOverride && (r.hasFallback <==> conf.fallback != "")
    {
      RulesAreFaithful(conf);
    }

    constructor (conf: PathConf)
      requires conf.Sound()
      ensures this.conf == conf && State() == NewPath(RulesOf(conf))
      ensures PathProofs.Inv(State()) && PathProofs.Accounted(cmds)
    {
      this.conf := conf;
      stream, readers, onStatic, onPublisher := false, {}, IDLE, IDLE;
      reqs := Requests([], [], [], []);
      alive, cancelled, used, panicked := true, false, false, false;
      RulesAreFaithful(conf);
      if conf.source == "redirect" {
        source := Redirect;
      } else if conf.HasStaticSource() {
        source := Static(!conf.sourceOnDemand);
      } else {
        source := NoSource;
      }
      if conf.runOnInit != "" {
        cmds := Commands(Some(0), None, None, 1, []);
      } else {
        cmds := Commands(None, None, None, 0, []);
      }
      new;
      PathProofs.NewPathInv(RulesOf(conf));
      assert State() == NewPath(RulesOf(conf));
    }

    // -------------------------------------------------------------- on-demand machines

    method OnDemandStaticSourceStart()
      modifies this`source, this`onStatic, this`panicked
      ensures State() == StaticStart(old(State()))
    {
      if source != Static(false) {
        panicked := true;
        return;
      }
      source := Static(true);
      onStatic := onStatic.(readyTimer := true);
      onStatic := onStatic.(state := WaitingReady);
    }

    method OnDemandStaticSourceScheduleClose()
      modifies this`onStatic
      ensures onStatic == old(onStatic).ScheduleClose()
    {
      onStatic := onStatic.(closeTimer := true);
      onStatic := onStatic.(state := Closing);
    }

    method OnDemandStaticSourceStop()
      modifies this`source, this`onStatic, this`panicked
      ensures State() == StaticStop(old(State()))
    {
      if onStatic.state == Closing {
        onStatic := onStatic.(closeTimer := false);
      }
      onStatic := onStatic.(state := Initial);
      if source != Static(true) {
        panicked := true;
        return;
      }
      source := Static(false);
    }

    method OnDemandPublisherStart()
      modifies this`cmds, this`onPublisher
      ensures State() == PublisherStart(old(State()))
    {
      cmds := cmds.(onDemand := Some(cmds.started), started := cmds.started + 1);
      onPublisher := onPublisher.(readyTimer := true);
      onPublisher := onPublisher.(state := WaitingReady);
    }

    method OnDemandPublisherScheduleClose()
      modifies this`onPublisher
      ensures onPublisher == old(onPublisher).ScheduleClose()
    {
      onPublisher := onPublisher.(closeTimer := true);
      onPublisher := onPublisher.(state := Closing);
    }

    lemma StopUnfolds(p: Path)
      ensures
        var q := p.(onPublisher := p.onPublisher.Stop());
        var r := if q.source == NoSource then q
                 else if q.source.Publisher? then RemovePublisher(q) else q.(panicked := true);
        PublisherStop(p) == r.(cmds := r.cmds.CloseOnDemand())
    {
      hide RemovePublisher;
    }

    method OnDemandPublisherSetInitial()
      modifies this`onPublisher
      ensures State() == old(State()).(onPublisher := old(onPublisher).Stop())
    {
      if onPublisher.state == Closing {
        onPublisher := onPublisher.(closeTimer := false);
      }
      onPublisher := onPublisher.(state := Initial);
    }

    method CloseOnDemandCommand()
      modifies this`cmds
      ensures State() == old(State()).(cmds := old(cmds).CloseOnDemand())
    {
      if cmds.onDemand.Some? {
        cmds := cmds.(onDemand := None, closed := cmds.closed + [cmds.onDemand.value]);
      }
    }

    /** Sets the state before removing the publisher, which would otherwise stop it again. */
    method OnDemandPublisherStop()
      requires conf.Sound()
      modifies this`source, this`stream, this`readers, this`onPublisher, this`cmds, this`panicked
      ensures State() == PublisherStop(old(State()))
      decreases if onPublisher.state == Initial then 1 else 2
    {
      hide RulesOf, RemovePublisher, PublisherStop, Commands.CloseOnDemand, PathConf.Sound;
      OnDemandPublisherSetInitial();
      if source != NoSource {
        if !source.Publisher? {
          panicked := true;
        } else {
          DoPublisherRemove();
        }
      }
      CloseOnDemandCommand();
      StopUnfolds(old(State()));
    }

    method DoPublisherRemove()
      requires conf.Sound()
      modifies this`source, this`stream, this`readers, this`onPublisher, this`cmds, this`panicked
      ensures State() == RemovePublisher(old(State()))
      decreases if onPublisher.state == Initial then 0 else 3
    {
      Faithful();
      hide RulesOf, PublisherStop;
      if stream {
        if conf.HasOnDemandPublisher() && onPublisher.state != Initial {
          OnDemandPublisherStop();
        } else {
          DoSourceSetNotReady();
        }
      }
      source := NoSource;
    }

    // -------------------------------------------------------------- the stream

    method DoSourceSetReady()
      requires conf.Sound()
      modifies this`stream, this`cmds
      ensures State() == SourceSetReady(old(State()))
    {
      Faithful();
      hide RulesOf;
      stream := true;
      if conf.runOnReady != "" {
        cmds := cmds.(onReady := Some(cmds.started), started := cmds.started + 1);
      }
    }

    method DoSourceSetNotReady()
      modifies this`readers, this`cmds, this`stream
      ensures State() == SourceSetNotReady(old(State()))
    {
      while readers != {}
        modifies this`readers
        decreases readers
      {
        var r :| r in readers;
        readers := readers - {r};
      }
      if cmds.onReady.Some? {
        cmds := cmds.(onReady := None, closed := cmds.closed + [cmds.onReady.value]);
      }
      stream := false;
    }

    // -------------------------------------------------------------- held requests

    /** Takes in a request and answers it at once. */
    method Answer(req: Id, a: Answer)
      modifies this`reqs
      ensures reqs == old(reqs).Answer(req, a)
    {
      reqs := reqs.(accepted := reqs.accepted + [req]);
      Tell(req, a);
    }

    method Tell(req: Id, a: Answer)
      modifies this`reqs
      ensures reqs == old(reqs).(replies := old(reqs).replies + [Reply(req, a)])
    {
      reqs := reqs.(replies := reqs.replies + [Reply(req, a)]);
    }

    method AnswerDescribes(a: Answer)
      modifies this`reqs
      ensures reqs == old(reqs).(replies := old(reqs).replies + AnswerAll(old(reqs).describes, a), describes := [])
    {
      var held := reqs.describes;
      var k := 0;
      while k < |held|
        invariant 0 <= k <= |held|
        invariant reqs == old(reqs).(replies := old(reqs).replies + AnswerAll(held[..k], a))
      {
        Tell(held[k], a);
        assert AnswerAll(held[..k + 1], a) == AnswerAll(held[..k], a) + [Reply(held[k], a)];
        k := k + 1;
      }
      assert held[..k] == held;
      reqs := reqs.(describes := []);
    }

    method FailHeld(a: Answer)
      modifies this`reqs
      ensures reqs == old(reqs).AnswerHeld(a)
    {
      AnswerDescribes(a);
      ghost var told := reqs;
      var held := reqs.readers;
      var k := 0;
      while k < |held|
        invariant 0 <= k <= |held|
        invariant reqs == told.(replies := told.replies + AnswerAll(RequestsOf(held)[..k], a))
      {
        Tell(held[k].req, a);
        assert AnswerAll(RequestsOf(held)[..k + 1], a) == AnswerAll(RequestsOf(held)[..k], a) + [Reply(held[k].req, a)];
        k := k + 1;
      }
      assert RequestsOf(held)[..k] == RequestsOf(held);
      reqs := reqs.(readers := []);
    }

    method HandleReaderAddPost(req: Id, reader: Id)
      requires conf.Sound()
      modifies this`readers, this`onStatic, this`onPublisher, this`reqs
      ensures readers == old(readers) + {reader}
      ensures onStatic == if RulesOf(conf).OnDemandStatic() then old(onStatic).Join() else old(onStatic)
      ensures onPublisher ==
        if !RulesOf(conf).OnDemandStatic() && RulesOf(conf).OnDemandPublisher() then old(onPublisher).Join()
        else old(onPublisher)
      ensures reqs == old(reqs).(replies := old(reqs).replies + [Reply(req, Joined(reader))])
    {
      Faithful();
      hide RulesOf;
      readers := readers + {reader};
      if conf.HasOnDemandStaticSource() {
        if onStatic.state == Closing {
          onStatic := onStatic.(state := Ready, closeTimer := false);
        }
      } else if conf.HasOnDemandPublisher() {
        if onPublisher.state == Closing {
          onPublisher := onPublisher.(state := Ready, closeTimer := false);
        }
      }
      Tell(req, Joined(reader));
    }

    lemma JoinTwice(m: Machine)
      ensures m.Join().Join() == m.Join()
    {
    }

    /** Tells the held describes of the stream and lets the held readers join, one by one. */
    method Release()
      requires conf.Sound()
      modifies this`readers, this`onStatic, this`onPublisher, this`reqs
      ensures State() == ReleaseHeld(old(State()))
    {
      JoinTwice(onStatic);
      JoinTwice(onPublisher);
      hide RulesOf, Machine.Join, JoinAll, ReadersOf;
      AnswerDescribes(WithStream);
      ghost var told := reqs;
      var held := reqs.readers;
      var k := 0;
      NoneJoined(held);
      while k < |held|
        invariant 0 <= k <= |held|
        invariant readers == old(readers) + ReadersOf(held[..k])
        invariant onStatic == if k > 0 && RulesOf(conf).OnDemandStatic() then old(onStatic).Join() else old(onStatic)
        invariant onPublisher ==
          if k > 0 && !RulesOf(conf).OnDemandStatic() && RulesOf(conf).OnDemandPublisher()
          then old(onPublisher).Join() else old(onPublisher)
        invariant reqs == told.(replies := told.replies + JoinAll(held[..k]))
      {
        JoinOneMore(held, k);
        HandleReaderAddPost(held[k].req, held[k].reader);
        assert told.replies + JoinAll(held[..k + 1])
            == told.replies + JoinAll(held[..k]) + [Reply(held[k].req, Joined(held[k].reader))];
        k := k + 1;
      }
      assert held[..k] == held;
      reqs := reqs.(readers := []);
    }

    lemma NoneJoined(held: seq<HeldReader>)
      ensures JoinAll(held[..0]) == [] && ReadersOf(held[..0]) == {}
    {
    }

    lemma JoinOneMore(held: seq<HeldReader>, k: nat)
      requires k < |held|
      ensures JoinAll(held[..k + 1]) == JoinAll(held[..k]) + [Reply(held[k].req, Joined(held[k].reader))]
      ensures ReadersOf(held[..k + 1]) == ReadersOf(held[..k]) + {held[k].reader}
    {
      assert held[..k + 1] == held[..k] + [held[k]];
    }

    // -------------------------------------------------------------- handlers

    /** Starts what the requests on hold wait for, unless it has been started. */
    method StartOnDemand()
      requires conf.Sound() && (RulesOf(conf).OnDemandStatic() || RulesOf(conf).OnDemandPublisher())
      modifies this`source, this`onStatic, this`panicked, this`cmds, this`onPublisher
      ensures State() == Demand(old(State()))
    {
      Faithful();
      hide RulesOf;
      if conf.HasOnDemandStaticSource() {
        if onStatic.state == Initial {
          OnDemandStaticSourceStart();
        }
      } else {
        if onPublisher.state == Initial {
          OnDemandPublisherStart();
        }
      }
    }

    method DoHandleDescribe(req: Id)
      requires conf.Sound()
      modifies this`source, this`onStatic, this`panicked, this`cmds, this`onPublisher, this`reqs
      ensures State() == HandleDescribe(old(State()), req)
    {
      Faithful();
      hide RulesOf, Demand;
      if source == Redirect {
        Answer(req, WithRedirect);
      } else if stream {
        Answer(req, WithStream);
      } else if conf.HasOnDemandStaticSource() || conf.HasOnDemandPublisher() {
        StartOnDemand();
        reqs := reqs.(accepted := reqs.accepted + [req], describes := reqs.describes + [req]);
      } else if conf.fallback != "" {
        Answer(req, WithRedirect);
      } else {
        Answer(req, NoOnePublishing);
      }
    }

    method DoHandleReaderAdd(req: Id, reader: Id)
      requires conf.Sound()
      modifies this`source, this`onStatic, this`panicked, this`cmds, this`onPublisher, this`reqs, this`readers
      ensures State() == HandleReaderAdd(old(State()), req, reader)
    {
      Faithful();
      hide RulesOf, Demand;
      if stream {
        reqs := reqs.(accepted := reqs.accepted + [req]);
        HandleReaderAddPost(req, reader);
      } else if conf.HasOnDemandStaticSource() || conf.HasOnDemandPublisher() {
        StartOnDemand();
        reqs := reqs.(accepted := reqs.accepted + [req], readers := reqs.readers + [HeldReader(req, reader)]);
      } else {
        Answer(req, NoOnePublishing);
      }
    }

    method DoHandleReaderRemove(reader: Id)
      requires conf.Sound()
      modifies this`readers, this`onStatic, this`onPublisher
      ensures State() == HandleReaderRemove(old(State()), reader)
    {
      Faithful();
      hide RulesOf;
      readers := readers - {reader};
      if readers == {} {
        if conf.HasOnDemandStaticSource() {
          if onStatic.state == Ready {
            OnDemandStaticSourceScheduleClose();
          }
        } else if conf.HasOnDemandPublisher() {
          if onPublisher.state == Ready {
            OnDemandPublisherScheduleClose();
          }
        }
      }
    }

    method DoHandleStaticSetReady(ok: bool)
      requires conf.Sound()
      modifies this`stream, this`cmds, this`readers, this`onStatic, this`onPublisher, this`reqs
      ensures State() == HandleStaticSetReady(old(State()), ok)
    {
      Faithful();
      hide RulesOf, ReleaseHeld;
      if ok {
        DoSourceSetReady();
        if conf.HasOnDemandStaticSource() {
          onStatic := onStatic.(readyTimer := false);
          OnDemandStaticSourceScheduleClose();
          Release();
        }
      }
    }

    method DoHandleStaticSetNotReady()
      requires conf.Sound()
      modifies this`readers, this`cmds, this`stream, this`source, this`onStatic, this`panicked
      ensures State() == HandleStaticSetNotReady(old(State()))
    {
      Faithful();
      hide RulesOf;
      DoSourceSetNotReady();
      if conf.HasOnDemandStaticSource() && onStatic.state != Initial {
        OnDemandStaticSourceStop();
      }
    }

    method DoHandlePublisherAdd(author: Id)
      requires conf.Sound()
      modifies this`source, this`stream, this`readers, this`onPublisher, this`cmds, this`panicked
      ensures State() == HandlePublisherAdd(old(State()), author)
    {
      Faithful();
      hide RulesOf, RemovePublisher;
      if conf.source != "publisher" {
        return;
      }
      if source != NoSource {
        if conf.disablePublisherOverride {
          return;
        }
        if !source.Publisher? {
          panicked := true;
        } else {
          DoPublisherRemove();
        }
      }
      source := Publisher(author);
    }

    method DoHandlePublisherStart(author: Id, ok: bool)
      requires conf.Sound()
      modifies this`stream, this`cmds, this`readers, this`onStatic, this`onPublisher, this`reqs
      ensures State() == HandlePublisherStart(old(State()), author, ok)
    {
      Faithful();
      hide RulesOf, ReleaseHeld;
      if source != Publisher(author) || !ok {
        return;
      }
      DoSourceSetReady();
      if conf.HasOnDemandPublisher() {
        onPublisher := onPublisher.(readyTimer := false);
        OnDemandPublisherScheduleClose();
        Release();
      }
    }

    method DoHandlePublisherStop(author: Id)
      requires conf.Sound()
      modifies this`source, this`stream, this`readers, this`onPublisher, this`cmds, this`panicked
      ensures State() == HandlePublisherStop(old(State()), author)
    {
      Faithful();
      hide RulesOf, PublisherStop;
      if source == Publisher(author) && stream {
        if conf.HasOnDemandPublisher() && onPublisher.state != Initial {
          OnDemandPublisherStop();
        } else {
          DoSourceSetNotReady();
        }
      }
    }

    // -------------------------------------------------------------- the event loop

    method HandleTimeout(e: Event)
      requires conf.Sound()
      requires e.StaticReadyTimeout? || e.StaticCloseTimeout? || e.PublisherReadyTimeout? || e.PublisherCloseTimeout?
      modifies this`source, this`stream, this`readers, this`onStatic, this`onPublisher, this`reqs, this`cmds,
               this`panicked
      ensures State() == Handle(old(State()), e)
    {
      hide RulesOf, PublisherStop, StaticStop;
      match e
      case StaticReadyTimeout =>
        onStatic := onStatic.(readyTimer := false);
        FailHeld(TimedOut);
        OnDemandStaticSourceStop();
      case StaticCloseTimeout =>
        onStatic := onStatic.(closeTimer := false);
        DoSourceSetNotReady();
        OnDemandStaticSourceStop();
      case PublisherReadyTimeout =>
        onPublisher := onPublisher.(readyTimer := false);
        FailHeld(TimedOut);
        OnDemandPublisherStop();
      case PublisherCloseTimeout =>
        onPublisher := onPublisher.(closeTimer := false);
        OnDemandPublisherStop();
    }

    method HandleEvent(e: Event)
      requires conf.Sound() && (e.ReloadConf? ==> e.after.Sound())
      modifies this
      ensures conf.Sound() && State() == Handle(old(State()), e)
    {
      hide RulesOf, HandleDescribe, HandleReaderAdd, HandleReaderRemove, HandleStaticSetReady, HandleStaticSetNotReady;
      hide HandlePublisherAdd, HandlePublisherStart, HandlePublisherStop, RemovePublisher, PathConf.Sound;
      match e
      case ReloadConf(_, after) => conf := after;
      case StaticSetReady(ok) => DoHandleStaticSetReady(ok);
      case StaticSetNotReady => DoHandleStaticSetNotReady();
      case DescribeReq(req) => DoHandleDescribe(req);
      case PublisherRemoveReq(author) =>
        if source == Publisher(author) {
          DoPublisherRemove();
        }
      case PublisherAddReq(author) => DoHandlePublisherAdd(author);
      case PublisherStartReq(author, ok) => DoHandlePublisherStart(author, ok);
      case PublisherStopReq(author) => DoHandlePublisherStop(author);
      case ReaderAddReq(req, reader) => DoHandleReaderAdd(req, reader);
      case ReaderRemoveReq(reader) => DoHandleReaderRemove(reader);
      case Cancel => cancelled := true;
      case Terminate =>
      case _ => HandleTimeout(e);
    }

    /** Right after the loop: no timer fires any more, the init command is closed, requests on hold are told. */
    method LeaveLoop()
      modifies this`alive, this`cancelled, this`onStatic, this`onPublisher, this`reqs, this`cmds
      ensures
        State() == old(State()).(
          alive := false, cancelled := true,
          onStatic := old(onStatic).(readyTimer := false, closeTimer := false),
          onPublisher := old(onPublisher).(readyTimer := false, closeTimer := false),
          cmds := old(cmds).CloseOnInit(), reqs := old(reqs).AnswerHeld(Terminated))
    {
      hide RulesOf, Requests.AnswerHeld;
      alive, cancelled := false, true;
      onStatic := onStatic.(readyTimer := false, closeTimer := false);
      onPublisher := onPublisher.(readyTimer := false, closeTimer := false);
      if cmds.onInit.Some? {
        cmds := cmds.(onInit := None, closed := cmds.closed + [cmds.onInit.value]);
      }
      FailHeld(Terminated);
    }

    /** What follows the loop. */
    method Finish()
      modifies this`alive, this`cancelled, this`source, this`stream, this`readers, this`onStatic, this`onPublisher,
               this`reqs, this`cmds
      ensures State() == Shutdown(old(State()))
    {
      hide RulesOf, Requests.AnswerHeld, Commands.CloseOnInit;
      LeaveLoop();
      if stream {
        DoSourceSetNotReady();
      }
      if source.Static? {
        source := Static(false);
      }
      CloseOnDemandCommand();
    }

    /** The loop, on any sequence of events; it ends early when the path is told to or is no longer in use. */
    method Run(es: seq<Event>) returns (handled: nat)
      requires conf.Sound() && alive
      requires forall e :: e in es && e.ReloadConf? ==> e.after.Sound()
      modifies this
      ensures handled <= |es| && State() == RunAll(old(State()), es[..handled])
      ensures handled < |es| ==> !alive
      ensures Lawful(old(State()), es[..handled])
    {
      handled := 0;
      while handled < |es| && alive
        invariant 0 <= handled <= |es| && conf.Sound()
        invariant State() == RunAll(old(State()), es[..handled])
      {
        hide RulesOf, Step;
        assert es[handled] in es;
        RunOneMore(old(State()), es, handled);
        Once(es[handled]);
        handled := handled + 1;
      }
      Laws(old(State()), es[..handled]);
    }

    /**
     * What the surroundings can rely on, as long as they do only what is possible: the invariant of PathProofs; that
     * publisher, stream, readers, requests on hold and answers are what the events tell; before the end, when readers
     * and on-demand state agree; at the end every request accepted has been answered, and every command started been
     * closed once if and only if no stream was set up over another with its ready command.
     */
    ghost predicate Lawful(before: Path, es: seq<Event>)
      reads this
    {
      PathProofs.Inv(before) && Possible(before, es) ==>
        && PathProofs.Inv(State())
        && PathStory.View(State()) == PathStory.Goes(before.rules, PathStory.View(before), es)
        && (alive ==>
              (PathProofs.Strict(State()) <==> PathProofs.EndsStrict(before, es, PathProofs.Strict(before))))
        && (!alive ==> multiset(reqs.accepted) == multiset(PathProofs.Answered(reqs.replies)))
        && (!alive && PathProofs.Accounted(before.cmds) ==>
              (PathProofs.AllClosedOnce(cmds) <==> PathProofs.NeverOverwrites(before, es)))
    }

    lemma Laws(before: Path, es: seq<Event>)
      requires State() == RunAll(before, es)
      ensures Lawful(before, es)
    {
      hide PathProofs.Inv, PathProofs.Accounted, PathProofs.AllClosedOnce, PathProofs.NeverOverwrites, Possible, RunAll;
      hide RulesOf, PathProofs.Answered, PathProofs.Strict, PathProofs.EndsStrict, PathStory.View, PathStory.Goes;
      if PathProofs.Inv(before) && Possible(before, es) {
        PathProofs.RunKeepsInv(before, es);
        PathStory.RunAlike(before, es);
        if alive {
          PathProofs.StrictRunIff(before, es);
        } else {
          PathProofs.AllAnswered(State());
          if PathProofs.Accounted(before.cmds) {
            PathProofs.ClosedIff(before, es);
          }
        }
      }
    }

    /** Not needed any more: a path for a regular expression that has no source, no reader and no request on hold. */
    method ShouldCloseNow() returns (r: bool)
      requires conf.Sound()
      ensures r == ShouldClose(State())
    {
      Faithful();
      r := conf.regexp.Some? && source == NoSource && readers == {} && reqs.describes == [] && reqs.readers == [];
    }

    /** The event is handled, and noted if it is a use of the path. */
    method HandleAndNote(e: Event)
      requires conf.Sound() && (e.ReloadConf? ==> e.after.Sound())
      modifies this
      ensures conf.Sound()
      ensures State() == Handle(old(State()), e).(used := old(used) || FirstUse(e))
    {
      hide RulesOf, Handle, PathConf.Sound, FirstUse;
      var wasUsed := used;
      HandleEvent(e);
      used := wasUsed || FirstUse(e);
    }

    /** One turn of the loop. */
    method Once(e: Event)
      requires conf.Sound() && (e.ReloadConf? ==> e.after.Sound())
      modifies this
      ensures conf.Sound() && State() == Step(old(State()), e)
    {
      hide RulesOf, Handle, Shutdown, ShouldClose, PathConf.Sound, Rechecks, FirstUse;
      HandleAndNote(e);
      var close := ShouldCloseNow();
      if e.Terminate? || (Rechecks(e) && close) {
        Finish();
      }
    }

    lemma {:induction false} RunOneMore(p: Path, es: seq<Event>, k: nat)
      requires k < |es|
      ensures RunAll(p, es[..k + 1]) == Step(RunAll(p, es[..k]), es[k])
      decreases k
    {
      hide Step;
      if k == 0 {
        assert es[..1][1..] == [];
      } else {
        RunOneMore(Step(p, es[0]), es[1..], k - 1);
        assert es[..k + 1][1..] == es[1..][..k] && es[..k][1..] == es[1..][..k - 1];
      }
    }
  }
}
