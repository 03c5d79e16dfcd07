/**
 * Stopping a static source (internal/core/source_static.go with the receiving side in internal/core/path.go):
 * the path, the source's own loop and the source implementation run side by side and meet on unbuffered channels.
 * Every step below is one thing one of the three can do, alone or in a meeting of two.
 */
module StaticSource {

  datatype Kind = SetReady | SetNotReady

  /** Where the path is. */
  datatype PathAt =
    | Loop                                   // in its event loop
    | Handling(kind: Kind)                   // has accepted a request and owes the answer
    | Answered                               // has answered a set-not-ready and may now stop the source
    | Stopping(final: bool)                  // inside stop(), waiting for the loop of the source to be done
    | ShuttingDown                           // has left its event loop
    | Ended

  /** Where the source's loop is. */
  datatype LoopAt =
    | NotRunning
    | Starting
    | Select
    | Forwarding(kind: Kind)                 // offers a request to the path
    | Refusing(kind: Kind)                   // answers a request itself, with an error
    | Draining                               // waits for the implementation to return
    | Done                                   // has closed the done channel

  /** Where the implementation is. */
  datatype ImplAt =
    | Absent
    | Working
    | Offering(kind: Kind)                   // offers a request to the loop
    | Waiting(kind: Kind)                    // waits for the answer
    | Released                               // its answer channel has been closed
    | Returning                              // offers its error to the loop

  datatype System = System(
    path: PathAt,
    loop: LoopAt,
    impl: ImplAt,
    running: bool,
    run: nat,                                // number of the current or latest start
    implRun: nat,                            // the start the implementation belongs to
    stopAsked: bool,                         // the context of the source is cancelled
    pathGone: bool,                          // the context of the path is cancelled
    returnAsked: bool,                       // the context of the implementation is cancelled
    recreating: bool,
    stream: bool,                            // the path has a stream
    implReady: bool)                         // the implementation was told its stream is up

  datatype Step =
    // path
    | Start
    | Accept(kind: Kind)                     // path and loop meet
    | AnswerReady(ok: bool)                  // path and implementation meet
    | AnswerNotReady
    | GoOn
    | Stop                                   // on a timeout, or after a set-not-ready
    | Leave                                  // told to terminate, or not in use
    | FinalStop
    | StopReturns
    | CancelPath                             // the path manager closes the path, at any time
    // loop
    | Begin
    | ImplFailed                             // loop and implementation meet
    | Take(kind: Kind)                       // loop and implementation meet
    | Recreate
    | NoticeCancel                           // a forwarded request is dropped: source or path is going away
    | Refuse                                 // loop and implementation meet
    | NoticeStop
    | Drained                                // loop and implementation meet
    // implementation
    | Offer(kind: Kind)
    | Withdraw
    | Resume
    | Return

  predicate Enabled(s: System, step: Step) {
    match step
    case Start => s.path == Loop && !s.running
    case Accept(k) => s.path == Loop && s.loop == Forwarding(k)
    case AnswerReady(_) => s.path == Handling(SetReady) && s.impl == Waiting(SetReady)
    case AnswerNotReady => s.path == Handling(SetNotReady)
    case GoOn => s.path == Answered
    case Stop => (s.path == Loop || s.path == Answered) && s.running
    case Leave => s.path == Loop || s.path == Answered
    case FinalStop => s.path == ShuttingDown
    case StopReturns => s.path.Stopping? && s.loop == Done
    case CancelPath => true
    case Begin => s.loop == Starting
    case ImplFailed => s.loop == Select && s.impl == Returning
    case Take(k) => s.loop == Select && s.impl == Offering(k)
    case Recreate => s.loop == Select && s.recreating
    case NoticeCancel => s.loop.Forwarding? && (s.stopAsked || s.pathGone)
    case Refuse => s.loop.Refusing? && (s.loop.kind == SetReady ==> s.impl == Waiting(SetReady))
    case NoticeStop => s.loop == Select && s.stopAsked
    case Drained => s.loop == Draining && s.impl == Returning
    case Offer(k) => s.impl == Working && (s.implReady <==> k == SetNotReady)
    case Withdraw => s.impl.Offering? && s.stopAsked
    case Resume => s.impl == Released
    case Return => s.impl == Working && !s.implReady
  }

  function Next(s: System, step: Step): System
    requires Enabled(s, step)
  {
    match step
    case Start => s.(running := true, run := s.run + 1, stopAsked := false, loop := Starting)
    case Accept(k) => s.(path := Handling(k), loop := Select)
    case AnswerReady(ok) => s.(path := Loop, impl := Working, stream := s.stream || ok, implReady := ok)
    case AnswerNotReady =>
      s.(path := Answered, stream := false, implReady := false, impl := if s.impl.Waiting? then Released else s.impl)
    case GoOn => s.(path := Loop)
    case Stop => s.(path := Stopping(false), running := false, stopAsked := true, stream := false)
    case Leave => s.(path := ShuttingDown, pathGone := true)
    case FinalStop =>
      if s.running then s.(path := Stopping(true), running := false, stopAsked := true, stream := false)
      else s.(path := Ended, stream := false)
    case StopReturns => s.(path := if s.path.final then Ended else Loop)
    case CancelPath => s.(pathGone := true)
    case Begin =>
      s.(loop := Select, impl := Working, implRun := s.run, implReady := false,
         recreating := false, returnAsked := false)
    case ImplFailed => s.(impl := Absent, returnAsked := true, recreating := true)
    case Take(k) => s.(loop := Forwarding(k), impl := Waiting(k))
    case Recreate =>
      s.(impl := Working, implRun := s.run, implReady := false, recreating := false, returnAsked := false)
    case NoticeCancel => s.(loop := Refusing(s.loop.kind))
    case Refuse =>
      if s.loop.kind == SetReady then s.(loop := Select, impl := Working)
      else s.(loop := Select, implReady := false, impl := if s.impl.Waiting? then Released else s.impl)
    case NoticeStop => if s.recreating then s.(loop := Done) else s.(loop := Draining, returnAsked := true)
    case Drained => s.(loop := Done, impl := Absent)
    case Offer(k) => s.(impl := Offering(k))
    case Withdraw => s.(impl := Working, implReady := s.implReady && s.impl.kind != SetNotReady)
    case Resume => s.(impl := Working)
    case Return => s.(impl := Returning)
  }

  const FRESH := System(Loop, NotRunning, Absent, false, 0, 0, false, false, false, false, false, false)

  // ---------------------------------------------------------------- the invariant

  /** The loop of the source exists from start to the end of stop, and the implementation only inside it. */
  predicate LifeInv(s: System) {
    && (s.path.Stopping? ==> !s.running && s.stopAsked && s.loop != NotRunning)
    && (s.running ==> s.loop != NotRunning && s.loop != Done && s.loop != Draining && !s.stopAsked)
    && (!s.running && !s.path.Stopping? ==> s.loop == NotRunning || s.loop == Done)
    && (s.loop == NotRunning || s.loop == Done || s.loop == Starting ==> s.impl == Absent)
    && (s.loop == Select || s.loop.Forwarding? || s.loop.Refusing? ==> (s.impl == Absent <==> s.recreating))
    && (s.loop == Draining ==> s.impl != Absent && s.returnAsked && s.stopAsked)
    && (s.path == Ended || s.path == ShuttingDown || (s.path.Stopping? && s.path.final) ==> s.pathGone)
    && (s.loop.Refusing? ==> s.stopAsked || s.pathGone)
    && (s.path == Ended ==> !s.running)
    && (s.path.Handling? || s.path == Answered ==> s.running)
    && (s.impl != Absent ==> s.implRun == s.run)
  }

  /** An implementation that waits is owed an answer by exactly one of path and loop. */
  predicate DebtInv(s: System) {
    && (s.loop.Forwarding? || s.loop.Refusing? ==> s.impl == Waiting(s.loop.kind))
    && (s.path.Handling? ==> s.impl == Waiting(s.path.kind) && s.loop == Select)
    && (s.impl.Waiting? ==>
          s.path == Handling(s.impl.kind) || s.loop == Forwarding(s.impl.kind) || s.loop == Refusing(s.impl.kind))
  }

  /**
   * While the path's context lives, its stream is what the implementation was told; requests fit what it was told; and
   * an implementation that was told its stream is up is right.
   */
  predicate StreamInv(s: System) {
    && (s.running && !s.pathGone ==> s.stream == s.implReady)
    && (s.running && s.implReady ==> s.stream)
    && (s.impl == Absent ==> !s.implReady)
    && (!s.running ==> !s.stream)
    && (s.loop == Starting ==> !s.stream)
    && (s.impl.Offering? || s.impl.Waiting? ==> (s.implReady <==> s.impl.kind == SetNotReady))
    && (s.impl == Released || s.impl == Returning ==> !s.implReady)
  }

  predicate Inv(s: System) {
    LifeInv(s) && DebtInv(s) && StreamInv(s)
  }

  lemma StepKeepsLife(s: System, step: Step)
    requires Inv(s) && Enabled(s, step)
    ensures LifeInv(Next(s, step))
  {
  }

  lemma StepKeepsDebt(s: System, step: Step)
    requires Inv(s) && Enabled(s, step)
    ensures DebtInv(Next(s, step))
  {
  }

  lemma StepKeepsStream(s: System, step: Step)
    requires Inv(s) && Enabled(s, step)
    ensures StreamInv(Next(s, step))
  {
  }

  lemma StepKeepsInv(s: System, step: Step)
    requires Inv(s) && Enabled(s, step)
    ensures Inv(Next(s, step))
  {
    StepKeepsLife(s, step);
    StepKeepsDebt(s, step);
    StepKeepsStream(s, step);
    hide Next, Enabled, LifeInv, DebtInv, StreamInv;
  }

  predicate Possible(s: System, steps: seq<Step>)
    decreases |steps|
  {
    steps == [] || (Enabled(s, steps[0]) && Possible(Next(s, steps[0]), steps[1..]))
  }

  function After(s: System, steps: seq<Step>): System
    requires Possible(s, steps)
    decreases |steps|
  {
    if steps == [] then s else After(Next(s, steps[0]), steps[1..])
  }

  /** The invariant holds after every interleaving of the three. */
  lemma {:induction false} EveryInterleaving(s: System, steps: seq<Step>)
    requires Inv(s) && Possible(s, steps)
    ensures Inv(After(s, steps))
    decreases |steps|
  {
    if steps != [] {
      StepKeepsInv(s, steps[0]);
      hide Inv, Enabled, Next;
      EveryInterleaving(Next(s, steps[0]), steps[1..]);
    }
  }

  lemma {:induction false} Joined(s: System, first: seq<Step>, rest: seq<Step>)
    requires Possible(s, first) && Possible(After(s, first), rest)
    ensures Possible(s, first + rest) && After(s, first + rest) == After(After(s, first), rest)
    decreases |first|
  {
    hide Enabled, Next;
    if first == [] {
      assert first + rest == rest;
    } else {
      Joined(Next(s, first[0]), first[1..], rest);
      assert (first + rest)[1..] == first[1..] + rest;
    }
  }

  // ---------------------------------------------------------------- what follows

  /** What reaches the path: only requests of the start that is running now, never of one that was stopped. */
  lemma AcceptedIsCurrent(steps: seq<Step>, k: Kind)
    requires Possible(FRESH, steps) && Enabled(After(FRESH, steps), Accept(k))
    ensures
      var s := After(FRESH, steps);
      s.running && !s.stopAsked && s.implRun == s.run
  {
    EveryInterleaving(FRESH, steps);
  }

  /** What has come of the implementation's requests since the latest start. */
  datatype Story = Nothing | Up | Down | Dropped

  function NextStory(s: System, step: Step, t: Story): Story {
    match step
    case Start => Nothing
    case AnswerReady(ok) => if ok then Up else t
    case AnswerNotReady => Down
    case Refuse => if s.loop == Refusing(SetNotReady) then Dropped else t
    case _ => t
  }

  function StoryOf(s: System, steps: seq<Step>, t: Story): Story
    requires Possible(s, steps)
    decreases |steps|
  {
    if steps == [] then t else StoryOf(Next(s, steps[0]), steps[1..], NextStory(s, steps[0], t))
  }

  /** What the story says of stream and implementation while the source runs. */
  predicate Tells(s: System, t: Story) {
    s.running ==>
      match t
      case Up => s.stream && s.implReady
      case Dropped => s.stream && !s.implReady && s.pathGone
      case _ => !s.stream && !s.implReady
  }

  lemma StoryGoesOn(s: System, step: Step, t: Story)
    requires Inv(s) && Enabled(s, step) && Tells(s, t)
    ensures Tells(Next(s, step), NextStory(s, step, t))
  {
  }

  lemma {:induction false} StoryIsTrue(s: System, steps: seq<Step>, t: Story)
    requires Inv(s) && Possible(s, steps) && Tells(s, t)
    ensures Tells(After(s, steps), StoryOf(s, steps, t))
    decreases |steps|
  {
    if steps != [] {
      StepKeepsInv(s, steps[0]);
      StoryGoesOn(s, steps[0], t);
      hide Inv, Enabled, Next, Tells, NextStory;
      StoryIsTrue(Next(s, steps[0]), steps[1..], NextStory(s, steps[0], t));
    }
  }

  /**
   * A request that reaches the path fits its stream - a set-ready comes without one, a set-not-ready with one - if and
   * only if the latest of what has come of this start's requests is not a set-not-ready that was dropped. One that does
   * not fit is a set-ready, and then the path's own context has been cancelled.
   */
  lemma AcceptedFitsIff(steps: seq<Step>, k: Kind)
    requires Possible(FRESH, steps) && Enabled(After(FRESH, steps), Accept(k))
    ensures
      var s := After(FRESH, steps);
      var fits := k == SetReady <==> !s.stream;
      && (fits <==> StoryOf(FRESH, steps, Nothing) != Dropped)
      && (fits <==> s.stream == s.implReady)
      && (!fits ==> k == SetReady && s.pathGone)
  {
    EveryInterleaving(FRESH, steps);
    StoryIsTrue(FRESH, steps, Nothing);
    hide Possible, After, StoryOf;
  }

  lemma UpThenCancelled() returns (steps: seq<Step>)
    ensures Possible(FRESH, steps)
    ensures After(FRESH, steps)
      == System(Loop, Select, Working, true, 1, 1, false, true, false, false, true, true)
  {
    steps := [];
    assert After(FRESH, steps) == FRESH;
    hide Possible, After;
    steps := Do(steps, Start);
    steps := Do(steps, Begin);
    steps := Do(steps, Offer(SetReady));
    steps := Do(steps, Take(SetReady));
    steps := Do(steps, Accept(SetReady));
    steps := Do(steps, AnswerReady(true));
    steps := Do(steps, CancelPath);
  }

  lemma NotReadyDropped() returns (steps: seq<Step>)
    ensures Possible(FRESH, steps)
    ensures After(FRESH, steps)
      == System(Loop, Select, Working, true, 1, 1, false, true, false, false, true, false)
  {
    hide Possible, After;
    steps := UpThenCancelled();
    steps := Do(steps, Offer(SetNotReady));
    steps := Do(steps, Take(SetNotReady));
    steps := Do(steps, NoticeCancel);
    steps := Do(steps, Refuse);
    steps := Do(steps, Resume);
  }

  /**
   * It does happen: the path's context is cancelled, a set-not-ready is dropped by the loop, and a set-ready of the
   * recreated implementation then overtakes the path's own leaving.
   */
  lemma ReadyTwice() returns (steps: seq<Step>)
    ensures Possible(FRESH, steps) && Enabled(After(FRESH, steps), Accept(SetReady)) && After(FRESH, steps).stream
  {
    hide Possible, After;
    steps := NotReadyDropped();
    steps := Do(steps, Return);
    steps := Do(steps, ImplFailed);
    steps := Do(steps, Recreate);
    steps := Do(steps, Offer(SetReady));
    steps := Do(steps, Take(SetReady));
  }

  lemma Do(steps: seq<Step>, step: Step) returns (longer: seq<Step>)
    requires Possible(FRESH, steps) && Enabled(After(FRESH, steps), step)
    ensures Possible(FRESH, longer) && After(FRESH, longer) == Next(After(FRESH, steps), step)
  {
    longer := steps + [step];
    assert [step][1..] == [];
    Joined(FRESH, steps, [step]);
  }

  /** Inside stop() nothing waits for the path: any answer still due is due from the loop, which can give it. */
  lemma NothingOwedByPath(steps: seq<Step>)
    requires Possible(FRESH, steps) && After(FRESH, steps).path.Stopping?
    ensures
      var s := After(FRESH, steps);
      s.impl.Waiting? ==>
        || (s.loop == Forwarding(s.impl.kind) && Enabled(s, NoticeCancel))
        || (s.loop == Refusing(s.impl.kind) && Enabled(s, Refuse))
  {
    EveryInterleaving(FRESH, steps);
  }

  /** How far a stop in progress is from its end. */
  function Distance(s: System): nat {
    match s.loop
    case NotRunning => 0
    case Starting => 12
    case Forwarding(_) => 13
    case Refusing(_) => 12
    case Select => 11
    case Draining =>
      (match s.impl
       case Released => 5
       case Waiting(_) => 5
       case Working => if s.implReady then 6 else 4
       case Offering(k) => 5
       case Returning => 3
       case Absent => 3)
    case Done => 1
  }

  /** A step that brings a stop in progress closer to its end. */
  function Progress(s: System): Step {
    match s.loop
    case Starting => Begin
    case Forwarding(_) => NoticeCancel
    case Refusing(_) => Refuse
    case Select => NoticeStop
    case Draining =>
      (match s.impl
       case Released => Resume
       case Working => if s.implReady then Offer(SetNotReady) else Return
       case Offering(_) => Withdraw
       case _ => Drained)
    case _ => StopReturns
  }

  /**
   * No deadlock: inside stop() a step is always possible that brings its end closer, until stop() returns.
   */
  lemma StopNeverStuck(s: System)
    requires Inv(s) && s.path.Stopping?
    ensures Enabled(s, Progress(s))
    ensures
      var t := Next(s, Progress(s));
      if s.loop == Done then t.path == (if s.path.final then Ended else Loop)
      else t.path == s.path && Distance(t) < Distance(s)
  {
  }

  /** From every point inside stop(), a finite number of steps ends it with the loop and the implementation gone. */
  lemma {:induction false} StopCanComplete(s: System) returns (steps: seq<Step>)
    requires Inv(s) && s.path.Stopping?
    ensures |steps| <= Distance(s) && Possible(s, steps)
    ensures
      var t := After(s, steps);
      t.path == (if s.path.final then Ended else Loop) && t.loop == Done && t.impl == Absent && !t.running && !t.stream
    decreases Distance(s)
  {
    StopNeverStuck(s);
    StepKeepsInv(s, Progress(s));
    var t := Next(s, Progress(s));
    if s.loop == Done {
      steps := [Progress(s)];
      assert After(s, steps) == t;
    } else {
      var rest := StopCanComplete(t);
      steps := [Progress(s)] + rest;
      assert steps[1..] == rest;
    }
  }
}
