/**
 * A path with a static source, whole: the event loop of PathSpec is the path of the protocol in StaticSource. What the
 * event loop takes for granted of its static source is shown from the protocol, over every run of the two together.
 */
module StaticPath {
  import opened PathConf
  import S = StaticSource
  import P = PathSpec
  import PathProofs

  datatype Both = Both(s: S.System, p: P.Path)

  datatype Move =
    | Quiet(step: S.Step)                    // source loop and implementation, and the path's meetings with them
    | Ready(ok: bool)                        // the path handles a set-ready and answers it
    | NotReady                               // the path handles a set-not-ready and answers it
    | Settle                                 // after that answer: the path stops the source, or goes on
    | Cancelled                              // the path manager closes the path
    | Other(e: P.Event)                      // any other case of the event loop

  /** Steps of the protocol that the event loop does not see. */
  predicate IsQuiet(step: S.Step) {
    !(|| step.Start? || step.AnswerReady? || step.AnswerNotReady? || step.GoOn? || step.Stop? || step.Leave?
      || step.CancelPath?)
  }

  predicate IsOther(e: P.Event) {
    !(e.StaticSetReady? || e.StaticSetNotReady? || e.Cancel?)
  }

  /** Nothing is asked of the static source here but what the protocol says. */
  predicate CanMove(b: Both, m: Move) {
    match m
    case Quiet(step) => IsQuiet(step) && S.Enabled(b.s, step)
    case Ready(ok) => S.Enabled(b.s, S.AnswerReady(ok))
    case NotReady => S.Enabled(b.s, S.AnswerNotReady)
    case Settle => b.s.path == S.Answered && b.s.running
    case Cancelled => b.p.alive
    case Other(e) => b.s.path == S.Loop && IsOther(e) && P.Enabled(b.p, e)
  }

  /** The event the path's event loop handles in a move, if any. */
  function EventOf(m: Move): (es: seq<P.Event>)
    ensures |es| <= 1
  {
    match m
    case Ready(ok) => [P.StaticSetReady(ok)]
    case NotReady => [P.StaticSetNotReady]
    case Cancelled => [P.Cancel]
    case Other(e) => [e]
    case _ => []
  }

  /** What the path does to the protocol when its event loop has gone from `p` to `q`. */
  function Follow(s: S.System, q: P.Path): S.System
    requires s.path == S.Loop
  {
    if !q.alive then S.Next(s, S.Leave)
    else if q.source == P.Static(true) && !s.running then S.Next(s, S.Start)
    else if q.source == P.Static(false) && s.running then S.Next(s, S.Stop)
    else s
  }

  function Moved(b: Both, m: Move): Both
    requires CanMove(b, m)
  {
    match m
    case Quiet(step) => b.(s := S.Next(b.s, step))
    case Ready(ok) => Both(S.Next(b.s, S.AnswerReady(ok)), P.Step(b.p, P.StaticSetReady(ok)))
    case NotReady => Both(S.Next(b.s, S.AnswerNotReady), P.Step(b.p, P.StaticSetNotReady))
    case Settle => b.(s := S.Next(b.s, if b.p.source == P.Static(false) then S.Stop else S.GoOn))
    case Cancelled => Both(S.Next(b.s, S.CancelPath), P.Step(b.p, P.Cancel))
    case Other(e) => Both(Follow(b.s, P.Step(b.p, e)), P.Step(b.p, e))
  }

  // ---------------------------------------------------------------- the two views agree

  /** Both see the same stream and the same source; between answer and settling the event loop is ahead. */
  predicate Shows(s: S.System, p: P.Path) {
    && p.stream == s.stream && p.cancelled == s.pathGone
    && p.source == P.Static(s.running && !(s.path == S.Answered && p.rules.OnDemandStatic()))
  }

  /** The path of the protocol is inside its event loop. */
  predicate Inside(s: S.System) {
    s.path == S.Loop || s.path.Handling? || s.path == S.Answered || s.path == S.Stopping(false)
  }

  ghost predicate Inv(b: Both) {
    && S.Inv(b.s) && PathProofs.Inv(b.p) && b.p.rules.kind == ByStatic
    && (b.p.alive <==> Inside(b.s))
    && (b.p.alive ==> Shows(b.s, b.p))
  }

  /** A static source leaves the loop only by being told to. */
  lemma StepIsHandle(p: P.Path, e: P.Event)
    requires PathProofs.LiveInv(p) && p.alive && p.rules.kind == ByStatic && P.Enabled(p, e) && !e.Terminate?
    ensures P.Step(p, e) == P.Handle(p, e).(used := p.used || P.FirstUse(e))
  {
    PathProofs.HandleKeepsLive(p, e);
    PathProofs.RulesStay(p, e);
    hide P.Handle, P.Shutdown, P.Enabled, RulesOf;
  }

  lemma QuietKeeps(b: Both, step: S.Step)
    requires Inv(b) && CanMove(b, Quiet(step))
    ensures Inv(Moved(b, Quiet(step)))
  {
    S.StepKeepsInv(b.s, step);
    hide S.Inv, PathProofs.Inv;
  }

  lemma CancelKeeps(b: Both)
    requires Inv(b) && b.p.alive
    ensures Inv(Moved(b, Cancelled)) && P.Enabled(b.p, P.Cancel)
  {
    S.StepKeepsInv(b.s, S.CancelPath);
    PathProofs.StepKeepsInv(b.p, P.Cancel);
    StepIsHandle(b.p, P.Cancel);
    hide S.Inv, PathProofs.Inv, P.Step;
  }

  lemma SettleKeeps(b: Both)
    requires Inv(b) && CanMove(b, Settle)
    ensures Inv(Moved(b, Settle))
  {
    S.StepKeepsInv(b.s, if b.p.source == P.Static(false) then S.Stop else S.GoOn);
    hide S.Inv, PathProofs.Inv;
  }

  lemma ReadyEffect(p: P.Path, ok: bool)
    ensures
      var q := P.Handle(p, P.StaticSetReady(ok));
      && q.source == p.source && q.cancelled == p.cancelled && q.rules == p.rules && q.alive == p.alive
      && q.stream == (p.stream || ok)
  {
  }

  lemma LiveOf(p: P.Path)
    requires PathProofs.Inv(p) && p.alive
    ensures PathProofs.LiveInv(p)
  {
  }

  lemma ReadyAllowed(s: S.System, p: P.Path, ok: bool)
    requires S.Inv(s) && S.Enabled(s, S.AnswerReady(ok)) && p.alive && Shows(s, p)
    ensures P.Enabled(p, P.StaticSetReady(ok))
  {
  }

  /** A set-ready that the path handles is one the event loop allows for. */
  lemma ReadyKeeps(b: Both, ok: bool)
    requires Inv(b) && CanMove(b, Ready(ok))
    ensures P.Enabled(b.p, P.StaticSetReady(ok)) && Inv(Moved(b, Ready(ok)))
  {
    hide P.Handle, P.Step, P.Enabled, PathProofs.Inv, PathProofs.LiveInv, S.Inv;
    LiveOf(b.p);
    ReadyAllowed(b.s, b.p, ok);
    ReadyEffect(b.p, ok);
    S.StepKeepsInv(b.s, S.AnswerReady(ok));
    PathProofs.StepKeepsInv(b.p, P.StaticSetReady(ok));
    StepIsHandle(b.p, P.StaticSetReady(ok));
  }

  /** And so is a set-not-ready. */
  lemma NotReadyKeeps(b: Both)
    requires Inv(b) && CanMove(b, NotReady)
    ensures P.Enabled(b.p, P.StaticSetNotReady) && Inv(Moved(b, NotReady))
  {
    var e := P.StaticSetNotReady;
    assert P.Enabled(b.p, e);
    S.StepKeepsInv(b.s, S.AnswerNotReady);
    PathProofs.StepKeepsInv(b.p, e);
    StepIsHandle(b.p, e);
    hide S.Inv, P.Step, RulesOf;
  }

  /** What the other cases of the event loop do to source and stream. */
  lemma OtherEffect(p: P.Path, e: P.Event)
    requires PathProofs.LiveInv(p) && p.rules.kind == ByStatic && P.Enabled(p, e) && IsOther(e)
    ensures
      var q := P.Handle(p, e);
      && q.source.Static? && q.cancelled == p.cancelled
      && (q.source == p.source ==> q.stream == p.stream) && (q.source != p.source ==> !q.stream)
  {
    hide RulesOf, P.PublisherStop, P.RemovePublisher;
    if e.ReloadConf? {
      PathProofs.ReloadKeeps(p, e);
    }
  }

  lemma OtherKeeps(b: Both, e: P.Event)
    requires Inv(b) && CanMove(b, Other(e))
    ensures Inv(Moved(b, Other(e)))
  {
    PathProofs.StepKeepsInv(b.p, e);
    if e.Terminate? {
      S.StepKeepsInv(b.s, S.Leave);
      RulesAtEnd(b.p);
      hide P.Step, PathProofs.Inv, S.Inv;
    } else {
      OtherStep(b.p, e);
      hide P.Step, P.Enabled, PathProofs.Inv;
      FollowKeeps(b.s, b.p, P.Step(b.p, e));
      hide Follow, S.Inv;
    }
  }

  lemma OtherStep(p: P.Path, e: P.Event)
    requires PathProofs.LiveInv(p) && p.alive && p.rules.kind == ByStatic
    requires P.Enabled(p, e) && IsOther(e) && !e.Terminate?
    ensures
      var q := P.Step(p, e);
      && q.alive && q.rules == p.rules && q.source.Static? && q.cancelled == p.cancelled
      && (q.source == p.source ==> q.stream == p.stream) && (q.source != p.source ==> !q.stream)
  {
    StepIsHandle(p, e);
    OtherEffect(p, e);
    PathProofs.RulesStay(p, e);
    PathProofs.AliveStays(p, e);
    hide P.Handle, P.Step, P.Enabled, PathProofs.LiveInv;
  }

  /** The protocol follows the event loop. */
  lemma FollowKeeps(s: S.System, p: P.Path, q: P.Path)
    requires S.Inv(s) && s.path == S.Loop && Shows(s, p)
    requires q.alive && q.rules == p.rules && q.source.Static? && q.cancelled == p.cancelled
    requires (q.source == p.source ==> q.stream == p.stream) && (q.source != p.source ==> !q.stream)
    ensures S.Inv(Follow(s, q)) && Inside(Follow(s, q)) && Shows(Follow(s, q), q)
  {
    if q.source != P.Static(s.running) {
      S.StepKeepsInv(s, if s.running then S.Stop else S.Start);
    }
  }

  lemma RulesAtEnd(p: P.Path)
    ensures !P.Step(p, P.Terminate).alive && P.Step(p, P.Terminate).rules == p.rules
  {
  }

  /** One move: the invariant of both views holds on, and what the event loop handled is what it allows for. */
  lemma MoveKeeps(b: Both, m: Move)
    requires Inv(b) && CanMove(b, m)
    ensures Inv(Moved(b, m))
    ensures EventOf(m) == [] ==> Moved(b, m).p == b.p
    ensures EventOf(m) != [] ==> P.Enabled(b.p, EventOf(m)[0]) && Moved(b, m).p == P.Step(b.p, EventOf(m)[0])
  {
    hide Inv, P.Step, P.Enabled;
    match m
    case Quiet(step) => QuietKeeps(b, step);
    case Ready(ok) => ReadyKeeps(b, ok);
    case NotReady => NotReadyKeeps(b);
    case Settle => SettleKeeps(b);
    case Cancelled => CancelKeeps(b);
    case Other(e) => OtherKeeps(b, e);
  }

  // ---------------------------------------------------------------- whole runs

  predicate AllCan(b: Both, ms: seq<Move>)
    decreases |ms|
  {
    ms == [] || (CanMove(b, ms[0]) && AllCan(Moved(b, ms[0]), ms[1..]))
  }

  function End(b: Both, ms: seq<Move>): Both
    requires AllCan(b, ms)
    decreases |ms|
  {
    if ms == [] then b else End(Moved(b, ms[0]), ms[1..])
  }

  function Events(ms: seq<Move>): seq<P.Event> {
    if ms == [] then [] else EventOf(ms[0]) + Events(ms[1..])
  }

  /**
   * For every run of event loop, source loop and implementation together: the events the path handles are a possible
   * run of its event loop, which ends in the same state; and both views agree throughout.
   */
  lemma {:induction false} EveryRunIsPossible(b: Both, ms: seq<Move>)
    requires Inv(b) && AllCan(b, ms)
    ensures Inv(End(b, ms))
    ensures P.Possible(b.p, Events(ms)) && End(b, ms).p == P.RunAll(b.p, Events(ms))
    decreases |ms|
  {
    hide Inv, CanMove, Moved, EventOf, P.Step, P.Enabled, P.Possible, P.RunAll;
    NothingHandled(b.p);
    if ms != [] {
      MoveKeeps(b, ms[0]);
      EveryRunIsPossible(Moved(b, ms[0]), ms[1..]);
      var handled, rest := EventOf(ms[0]), Events(ms[1..]);
      if handled == [] {
        assert handled + rest == rest;
      } else {
        assert handled == [handled[0]];
        PathProofs.RunFirst(b.p, handled[0], rest);
      }
    }
  }

  lemma NothingHandled(p: P.Path)
    ensures P.Possible(p, []) && P.RunAll(p, []) == p
  {
  }

  /** A new path with a static source; one that is not on demand is started at once. */
  function Start(rules: Rules): Both {
    Both(if rules.sourceOnDemand then S.FRESH else S.Next(S.FRESH, S.Start), P.NewPath(rules))
  }

  /**
   * So what the event loop takes for granted of its static source is proved, given that the implementation asks to be
   * ready and not ready in turn and returns only when it is not ready: the laws of the loop hold in every run.
   */
  lemma StaticPathLaws(rules: Rules, ms: seq<Move>)
    requires rules.Sound() && rules.kind == ByStatic && AllCan(Start(rules), ms)
    ensures
      var b := End(Start(rules), ms);
      && S.Inv(b.s) && PathProofs.Inv(b.p) && (b.p.alive ==> Shows(b.s, b.p))
      && (!b.p.alive ==>
            (PathProofs.AllClosedOnce(b.p.cmds) <==> PathProofs.NeverOverwrites(P.NewPath(rules), Events(ms))))
  {
    PathProofs.NewPathInv(rules);
    S.StepKeepsInv(S.FRESH, S.Start);
    var b := Start(rules);
    EveryRunIsPossible(b, ms);
    PathProofs.ClosedIff(b.p, Events(ms));
  }

  // ---------------------------------------------------------------- what happens after a cancellation

  lemma {:induction false} Then(b: Both, first: seq<Move>, rest: seq<Move>)
    requires AllCan(b, first) && AllCan(End(b, first), rest)
    ensures AllCan(b, first + rest) && End(b, first + rest) == End(End(b, first), rest)
    decreases |first|
  {
    hide CanMove, Moved;
    if first == [] {
      assert first + rest == rest;
    } else {
      Then(Moved(b, first[0]), first[1..], rest);
      assert (first + rest)[1..] == first[1..] + rest;
    }
  }

  lemma One(b: Both, m: Move)
    requires CanMove(b, m)
    ensures AllCan(b, [m]) && End(b, [m]) == Moved(b, m)
  {
    hide CanMove, Moved;
    assert [m][1..] == [];
    assert End(Moved(b, m), []) == Moved(b, m);
  }

  lemma Do(b: Both, ms: seq<Move>, m: Move) returns (longer: seq<Move>)
    requires AllCan(b, ms) && CanMove(End(b, ms), m)
    ensures AllCan(b, longer) && End(b, longer) == Moved(End(b, ms), m)
  {
    hide CanMove, Moved;
    longer := ms + [m];
    One(End(b, ms), m);
    Then(b, ms, [m]);
  }

  lemma DoQuiet(b: Both, ms: seq<Move>, step: S.Step) returns (longer: seq<Move>)
    requires AllCan(b, ms) && IsQuiet(step) && S.Enabled(End(b, ms).s, step)
    ensures AllCan(b, longer) && End(b, longer) == End(b, ms).(s := S.Next(End(b, ms).s, step))
  {
    longer := Do(b, ms, Quiet(step));
  }

  /** The source has been started: its implementation offers a set-ready and the path accepts it. */
  lemma FirstOffer(b: Both, before: seq<Move>, p: P.Path) returns (ms: seq<Move>)
    requires AllCan(b, before) && End(b, before) == Both(S.Next(S.FRESH, S.Start), p)
    ensures AllCan(b, ms)
    ensures End(b, ms)
         == Both(S.System(S.Handling(S.SetReady), S.Select, S.Waiting(S.SetReady), true, 1, 1, false, false, false,
                          false, false, false), p)
  {
    hide AllCan, End;
    ms := DoQuiet(b, before, S.Begin);
    ms := DoQuiet(b, ms, S.Offer(S.SetReady));
    ms := DoQuiet(b, ms, S.Take(S.SetReady));
    ms := DoQuiet(b, ms, S.Accept(S.SetReady));
  }

  /** The path handles it, then its context is cancelled. */
  lemma UpAndCancelled(b: Both, before: seq<Move>, p: P.Path) returns (ms: seq<Move>)
    requires AllCan(b, before) && P.Step(p, P.StaticSetReady(true)).alive
    requires End(b, before)
          == Both(S.System(S.Handling(S.SetReady), S.Select, S.Waiting(S.SetReady), true, 1, 1, false, false, false,
                           false, false, false), p)
    ensures AllCan(b, ms)
    ensures End(b, ms)
         == Both(S.System(S.Loop, S.Select, S.Working, true, 1, 1, false, true, false, false, true, true),
                 P.Step(p, P.StaticSetReady(true)).(cancelled := true))
  {
    hide AllCan, End, P.Step;
    ms := Do(b, before, Ready(true));
    PathProofs.CancelOnly(P.Step(p, P.StaticSetReady(true)));
    ms := Do(b, ms, Cancelled);
  }

  /** The stream is up and the path's context cancelled: a set-not-ready is dropped. */
  lemma NotReadyDropped(b: Both, before: seq<Move>, p: P.Path) returns (ms: seq<Move>)
    requires AllCan(b, before)
    requires End(b, before)
          == Both(S.System(S.Loop, S.Select, S.Working, true, 1, 1, false, true, false, false, true, true), p)
    ensures AllCan(b, ms)
    ensures End(b, ms)
         == Both(S.System(S.Loop, S.Select, S.Working, true, 1, 1, false, true, false, false, true, false), p)
  {
    hide AllCan, End;
    ms := DoQuiet(b, before, S.Offer(S.SetNotReady));
    ms := DoQuiet(b, ms, S.Take(S.SetNotReady));
    ms := DoQuiet(b, ms, S.NoticeCancel);
    ms := DoQuiet(b, ms, S.Refuse);
    ms := DoQuiet(b, ms, S.Resume);
  }

  /** Then the implementation is recreated, offers a set-ready, and the path accepts it. */
  lemma SecondOffer(b: Both, before: seq<Move>, p: P.Path) returns (ms: seq<Move>)
    requires AllCan(b, before)
    requires End(b, before)
          == Both(S.System(S.Loop, S.Select, S.Working, true, 1, 1, false, true, false, false, true, true), p)
    ensures AllCan(b, ms)
    ensures End(b, ms)
         == Both(S.System(S.Handling(S.SetReady), S.Select, S.Waiting(S.SetReady), true, 1, 1, false, true, false,
                          false, true, false), p)
  {
    hide AllCan, End;
    ms := NotReadyDropped(b, before, p);
    ms := DoQuiet(b, ms, S.Return);
    ms := DoQuiet(b, ms, S.ImplFailed);
    ms := DoQuiet(b, ms, S.Recreate);
    ms := DoQuiet(b, ms, S.Offer(S.SetReady));
    ms := DoQuiet(b, ms, S.Take(S.SetReady));
    ms := DoQuiet(b, ms, S.Accept(S.SetReady));
  }

  lemma Nothing(b: Both)
    ensures AllCan(b, []) && End(b, []) == b
  {
  }

  /** A path with a static source that is always on, and a ready command. */
  predicate Watched(rules: Rules) {
    rules.Sound() && rules.kind == ByStatic && !rules.sourceOnDemand && rules.runOnReady && !rules.runOnInit
  }

  /** A run of all three that loses a command: the first ready command is never closed. */
  lemma CommandIsLost(rules: Rules) returns (ms: seq<Move>)
    requires Watched(rules)
    ensures AllCan(Start(rules), ms)
    ensures
      var p := End(Start(rules), ms).p;
      !p.alive && p.cmds.started == 2 && p.cmds.closed == [1]
  {
    hide AllCan, End, P.Step;
    var b, p := Start(rules), P.NewPath(rules);
    Nothing(b);
    ms := FirstOffer(b, [], p);
    PathProofs.ReadyAgain(p);
    ms := UpAndCancelled(b, ms, p);
    var up := p.(stream := true, cmds := p.cmds.StartOnReady(), cancelled := true);
    ms := SecondOffer(b, ms, up);
    PathProofs.ReadyAgain(up);
    ms := Do(b, ms, Ready(true));
    var again := up.(cmds := up.cmds.StartOnReady());
    PathProofs.EndsAfter(again);
    ms := Do(b, ms, Other(P.Terminate));
  }

  /** A run of all three, of a source on demand, after which the closing is scheduled although a reader is there. */
  lemma ReaderIsClosedOver(rules: Rules, reader: P.Id) returns (ms: seq<Move>)
    requires rules.Sound() && rules.OnDemandStatic()
    ensures AllCan(Start(rules), ms)
    ensures
      var p := End(Start(rules), ms).p;
      p.alive && p.readers == {reader} && p.onStatic == P.Machine(P.Closing, false, true) && !PathProofs.Strict(p)
  {
    hide AllCan, End, P.Step;
    var b, p := Start(rules), P.NewPath(rules);
    Nothing(b);
    PathProofs.FirstReader(p, reader);
    ms := Do(b, [], Other(P.ReaderAddReq(0, reader)));
    var waiting := P.Step(p, P.ReaderAddReq(0, reader));
    ms := FirstOffer(b, ms, waiting);
    PathProofs.FirstReady(waiting, reader);
    ms := UpAndCancelled(b, ms, waiting);
    var up := P.Step(waiting, P.StaticSetReady(true)).(cancelled := true);
    ms := SecondOffer(b, ms, up);
    PathProofs.ReadyOver(up);
    ms := Do(b, ms, Ready(true));
  }
}
