/**
 * The path manager waiting for paths it has closed (internal/core/path_manager.go): while it waits it listens to
 * nobody, and the path it waits for may be about to tell it something. Any number of paths run beside it.
 */
module ManagerWait {

  type Id = nat

  /** What a path tells the manager. */
  datatype News = SourceReady | SourceNotReady | Closed

  /** Where a path is. */
  datatype PathAt =
    | Looping
    | Telling(news: News)                    // inside the event loop, or at its end with `Closed`
    | Ending                                 // after the loop, with its context cancelled
    | LastNews                               // there, telling that its source is gone
    | Finished                               // has closed its done channel

  datatype Proc = Proc(at: PathAt, cancelled: bool)

  /** Where the manager is: `queue` are the paths a reload still has to close, the first being waited for. */
  datatype ManagerAt =
    | Selecting
    | Forwarding                             // tells the HLS server, which listens or has ended
    | Waiting(queue: seq<Id>)
    | Gone

  datatype System = System(manager: ManagerAt, managerGone: bool, paths: map<Id, Proc>)

  datatype Step =
    // one path
    | Tell(id: Id, news: News)               // in its event loop
    | Leave(id: Id)                          // told to terminate, or not in use
    | GiveUp(id: Id)                         // a call to the manager ends because a context is cancelled
    | TellLast(id: Id)                       // at its end, when there is still a stream
    | Finish(id: Id)
    // the manager
    | Listen(id: Id)                         // manager and path meet
    | Forwarded
    | Reload(queue: seq<Id>)                 // closes the first path and waits
    | WaitEnds                               // the path has finished: on to the next, or back to selecting
    | Create(id: Id)
    | CancelAll                              // the server stops: the manager's context and with it those of the paths
    | ManagerLeaves

  predicate IsTelling(at: PathAt) {
    at.Telling? || at == LastNews
  }

  predicate Enabled(s: System, step: Step) {
    match step
    case Tell(id, news) => id in s.paths && s.paths[id].at == Looping && news != Closed
    case Leave(id) => id in s.paths && s.paths[id].at == Looping
    case GiveUp(id) => id in s.paths && IsTelling(s.paths[id].at) && (s.paths[id].cancelled || s.managerGone)
    case TellLast(id) => id in s.paths && s.paths[id].at == Ending
    case Finish(id) => id in s.paths && s.paths[id].at == Ending
    case Listen(id) => s.manager == Selecting && id in s.paths && IsTelling(s.paths[id].at)
    case Forwarded => s.manager == Forwarding
    case Reload(queue) =>
      s.manager == Selecting && queue != [] && forall k :: 0 <= k < |queue| ==> queue[k] in s.paths
    case WaitEnds => s.manager.Waiting? && s.manager.queue != [] && s.manager.queue[0] in s.paths
                     && s.paths[s.manager.queue[0]].at == Finished
    case Create(id) => s.manager == Selecting && id !in s.paths
    case CancelAll => true
    case ManagerLeaves => s.manager == Selecting && s.managerGone
  }

  /** Where a path goes on when its call to the manager is over. */
  function AfterTelling(p: Proc): Proc
    requires IsTelling(p.at)
  {
    if p.at == LastNews then p.(at := Finished)
    else if p.at.news == Closed then Proc(Ending, true)
    else p.(at := Looping)
  }

  function Cancel(paths: map<Id, Proc>, id: Id): Proc
    requires id in paths
  {
    paths[id].(cancelled := true)
  }

  function Next(s: System, step: Step): System
    requires Enabled(s, step)
  {
    match step
    case Tell(id, news) => s.(paths := s.paths[id := s.paths[id].(at := Telling(news))])
    case Leave(id) => s.(paths := s.paths[id := s.paths[id].(at := Telling(Closed))])
    case GiveUp(id) => s.(paths := s.paths[id := AfterTelling(s.paths[id])])
    case TellLast(id) => s.(paths := s.paths[id := s.paths[id].(at := LastNews)])
    case Finish(id) => s.(paths := s.paths[id := s.paths[id].(at := Finished)])
    case Listen(id) =>
      System(if s.paths[id].at == Telling(Closed) then Selecting else Forwarding, s.managerGone,
             s.paths[id := AfterTelling(s.paths[id])])
    case Forwarded => s.(manager := Selecting)
    case Reload(queue) => System(Waiting(queue), s.managerGone, s.paths[queue[0] := Cancel(s.paths, queue[0])])
    case WaitEnds =>
      var rest := s.manager.queue[1..];
      if rest == [] then s.(manager := Selecting)
      else if rest[0] in s.paths then System(Waiting(rest), s.managerGone, s.paths[rest[0] := Cancel(s.paths, rest[0])])
      else s
    case Create(id) => s.(paths := s.paths[id := Proc(Looping, s.managerGone)])
    case CancelAll => System(s.manager, true, map id | id in s.paths :: Cancel(s.paths, id))
    case ManagerLeaves => s.(manager := Gone)
  }

  const FRESH := System(Selecting, false, map[])

  /** Who is waited for exists and has been told to terminate; a path past its loop has no context left. */
  predicate Inv(s: System) {
    && (s.manager.Waiting? ==>
          && s.manager.queue != []
          && (forall k :: 0 <= k < |s.manager.queue| ==> s.manager.queue[k] in s.paths)
          && s.paths[s.manager.queue[0]].cancelled)
    && forall id :: id in s.paths && (s.paths[id].at == Ending || s.paths[id].at == LastNews) ==> s.paths[id].cancelled
  }

  lemma StepKeepsInv(s: System, step: Step)
    requires Inv(s) && Enabled(s, step)
    ensures Inv(Next(s, step)) && s.paths.Keys <= Next(s, step).paths.Keys
    ensures s.managerGone ==> Next(s, step).managerGone
  {
  }

  predicate Possible(s: System, steps: seq<Step>)
    decreases |steps|
  {
    steps == [] || (Enabled(s, steps[0]) && Possible(Next(s, steps[0]), steps[1..]))
  }

  function After(s: System, steps: seq<Step>): System
    requires Possible(s, steps)
    decreases |steps|
  {
    if steps == [] then s else After(Next(s, steps[0]), steps[1..])
  }

  /** After every interleaving; a cancelled manager stays so, and no path is forgotten. */
  lemma {:induction false} EveryInterleaving(s: System, steps: seq<Step>)
    requires Inv(s) && Possible(s, steps)
    ensures Inv(After(s, steps)) && s.paths.Keys <= After(s, steps).paths.Keys
    ensures s.managerGone ==> After(s, steps).managerGone
    decreases |steps|
  {
    if steps != [] {
      StepKeepsInv(s, steps[0]);
      hide Inv, Enabled, Next;
      EveryInterleaving(Next(s, steps[0]), steps[1..]);
    }
  }

  // ---------------------------------------------------------------- no deadlock

  /** How far a path that has been told to terminate is from its end. */
  function Distance(at: PathAt): nat {
    match at
    case Telling(news) => if news == Closed then 3 else 5
    case Looping => 4
    case Ending => 2
    case LastNews => 1
    case Finished => 0
  }

  /** What the path that is waited for, or else the manager, can do next. */
  function Progress(s: System): Step
    requires Inv(s) && s.manager.Waiting?
  {
    var id := s.manager.queue[0];
    match s.paths[id].at
    case Telling(_) => GiveUp(id)
    case LastNews => GiveUp(id)
    case Looping => Leave(id)
    case Ending => Finish(id)
    case Finished => WaitEnds
  }

  /**
   * The manager in wait() never deadlocks with a path that tells it something: after every interleaving the path waited
   * for has a step of its own that brings its end closer, whatever all others do, until the wait is over.
   */
  lemma WaitNeverStuck(s: System)
    requires Inv(s) && s.manager.Waiting?
    ensures Enabled(s, Progress(s))
    ensures
      var id, t := s.manager.queue[0], Next(s, Progress(s));
      if s.paths[id].at == Finished then
        t.manager == if |s.manager.queue| == 1 then Selecting else Waiting(s.manager.queue[1..])
      else t.manager == s.manager && id in t.paths && Distance(t.paths[id].at) < Distance(s.paths[id].at)
  {
  }

  /** And so a reload that closes any number of paths can always come to its end. */
  lemma {:induction false} ReloadCanComplete(s: System) returns (steps: seq<Step>)
    requires Inv(s) && s.manager.Waiting?
    ensures Possible(s, steps) && After(s, steps).manager == Selecting
    decreases |s.manager.queue|, Distance(s.paths[s.manager.queue[0]].at)
  {
    WaitNeverStuck(s);
    StepKeepsInv(s, Progress(s));
    var t := Next(s, Progress(s));
    if t.manager == Selecting {
      steps := [Progress(s)];
      assert After(t, []) == t;
    } else {
      var rest := ReloadCanComplete(t);
      steps := [Progress(s)] + rest;
      assert steps[1..] == rest;
    }
  }

  /**
   * The path's own context is what it takes: for a path that tells the manager something while the manager waits for
   * it, giving up is the only step of the two.
   */
  lemma OnlyOwnContext(s: System, step: Step)
    requires Inv(s) && s.manager.Waiting? && !s.managerGone && Enabled(s, step)
    requires IsTelling(s.paths[s.manager.queue[0]].at)
    ensures
      var id := s.manager.queue[0];
      var t := Next(s, step);
      t.manager == s.manager && (t.paths[id] == s.paths[id] || step == GiveUp(id) || step == CancelAll)
  {
  }

  lemma Do(s: System, steps: seq<Step>, step: Step) returns (longer: seq<Step>)
    requires Possible(s, steps) && Enabled(After(s, steps), step)
    ensures Possible(s, longer) && After(s, longer) == Next(After(s, steps), step)
  {
    longer := steps + [step];
    Joined(s, steps, step);
  }

  lemma {:induction false} Joined(s: System, steps: seq<Step>, step: Step)
    requires Possible(s, steps) && Enabled(After(s, steps), step)
    ensures Possible(s, steps + [step]) && After(s, steps + [step]) == Next(After(s, steps), step)
    decreases |steps|
  {
    hide Enabled, Next;
    if steps == [] {
      assert steps + [step] == [step] && [step][1..] == [];
      assert After(Next(s, step), []) == Next(s, step);
    } else {
      Joined(Next(s, steps[0]), steps[1..], step);
      assert (steps + [step])[1..] == steps[1..] + [step];
    }
  }

  /** It does happen, from the start: the manager waits for a path that is about to tell it anything at all. */
  lemma WaitsForTelling(id: Id, at: PathAt) returns (steps: seq<Step>)
    requires IsTelling(at)
    ensures Possible(FRESH, steps)
    ensures After(FRESH, steps) == System(Waiting([id]), false, map[id := Proc(at, true)])
  {
    steps := [];
    assert After(FRESH, steps) == FRESH;
    hide Possible, After;
    steps := Do(FRESH, steps, Create(id));
    steps := Do(FRESH, steps, Reload([id]));
    if at.Telling? && at.news != Closed {
      steps := Do(FRESH, steps, Tell(id, at.news));
    } else {
      steps := Do(FRESH, steps, Leave(id));
      if at == LastNews {
        steps := Do(FRESH, steps, GiveUp(id));
        steps := Do(FRESH, steps, TellLast(id));
      }
    }
  }
}
