/**
 * The life of a path (internal/core/path.go) as a state machine: every case of its event loop is one step.
 * A timer is a flag that says whether it is armed; what the path answers, starts and closes is kept in logs.
 */
module PathSpec {
  import opened Bytes
  import opened PathConf

  type Id = nat                              // clients, requests and commands

  // ---------------------------------------------------------------- requests

  datatype Answer = WithStream | WithRedirect | Joined(reader: Id) | TimedOut | Terminated | NoOnePublishing

  datatype Reply = Reply(req: Id, answer: Answer)

  datatype HeldReader = HeldReader(req: Id, reader: Id)

  /** Describe and reader-add requests: those taken in, the answers given, and those on hold. */
  datatype Requests = Requests(
    accepted: seq<Id>,
    replies: seq<Reply>,
    describes: seq<Id>,
    readers: seq<HeldReader>)
  {
    predicate NoneHeld() {
      describes == [] && readers == []
    }

    function Answer(req: Id, a: Answer): Requests {
      this.(accepted := accepted + [req], replies := replies + [Reply(req, a)])
    }

    function HoldDescribe(req: Id): Requests {
      this.(accepted := accepted + [req], describes := describes + [req])
    }

    function HoldReader(req: Id, reader: Id): Requests {
      this.(accepted := accepted + [req], readers := readers + [HeldReader(req, reader)])
    }

    /** Both queues get the same answer. */
    function AnswerHeld(a: Answer): Requests {
      this.(replies := replies + AnswerAll(describes, a) + AnswerAll(RequestsOf(readers), a),
            describes := [], readers := [])
    }

    /** The held describes learn of the stream and the held readers join. */
    function Release(): Requests {
      this.(replies := replies + AnswerAll(describes, WithStream) + JoinAll(readers), describes := [], readers := [])
    }
  }

  function AnswerAll(reqs: seq<Id>, a: Answer): seq<Reply> {
    seq(|reqs|, k requires 0 <= k < |reqs| => Reply(reqs[k], a))
  }

  function JoinAll(held: seq<HeldReader>): seq<Reply> {
    seq(|held|, k requires 0 <= k < |held| => Reply(held[k].req, Joined(held[k].reader)))
  }

  function RequestsOf(held: seq<HeldReader>): seq<Id> {
    seq(|held|, k requires 0 <= k < |held| => held[k].req)
  }

  function ReadersOf(held: seq<HeldReader>): set<Id> {
    set h | h in held :: h.reader
  }

  // ---------------------------------------------------------------- commands

  /** External commands: the three that may be running, how many were started (numbered from zero), those closed. */
  datatype Commands = Commands(
    onInit: Option<Id>,
    onDemand: Option<Id>,
    onReady: Option<Id>,
    started: nat,
    closed: seq<Id>)
  {
    function StartOnDemand(): Commands {
      this.(onDemand := Some(started), started := started + 1)
    }

    function StartOnReady(): Commands {
      this.(onReady := Some(started), started := started + 1)
    }

    function CloseOnInit(): Commands {
      if onInit.Some? then this.(onInit := None, closed := closed + [onInit.value]) else this
    }

    function CloseOnDemand(): Commands {
      if onDemand.Some? then this.(onDemand := None, closed := closed + [onDemand.value]) else this
    }

    function CloseOnReady(): Commands {
      if onReady.Some? then this.(onReady := None, closed := closed + [onReady.value]) else this
    }
  }

  // ---------------------------------------------------------------- on-demand machines

  datatype State = Initial | WaitingReady | Ready | Closing

  /** An on-demand state with its two timers. */
  datatype Machine = Machine(state: State, readyTimer: bool, closeTimer: bool) {
    function Await(): Machine {
      this.(state := WaitingReady, readyTimer := true)
    }

    function ScheduleClose(): Machine {
      this.(state := Closing, closeTimer := true)
    }

    /** A reader has joined: no need to close any more. */
    function Join(): Machine {
      if state == Closing then this.(state := Ready, closeTimer := false) else this
    }

    function Stop(): Machine {
      this.(state := Initial, closeTimer := closeTimer && state != Closing)
    }
  }

  const IDLE := Machine(Initial, false, false)

  // ---------------------------------------------------------------- paths

  datatype Source = NoSource | Redirect | Static(running: bool) | Publisher(id: Id)

  datatype Path = Path(
    rules: Rules,
    source: Source,
    stream: bool,
    readers: set<Id>,
    onStatic: Machine,
    onPublisher: Machine,
    reqs: Requests,
    cmds: Commands,
    alive: bool,                             // the event loop is running
    cancelled: bool,                         // the context of the path is cancelled
    used: bool,                              // a describe, reader-add or publisher-add has been handled
    panicked: bool)

  function StaticStart(p: Path): Path {
    if p.source == Static(false) then p.(source := Static(true), onStatic := p.onStatic.Await())
    else p.(panicked := true)
  }

  function StaticStop(p: Path): Path {
    var q := p.(onStatic := p.onStatic.Stop());
    if q.source == Static(true) then q.(source := Static(false)) else q.(panicked := true)
  }

  function PublisherStart(p: Path): Path {
    p.(cmds := p.cmds.StartOnDemand(), onPublisher := p.onPublisher.Await())
  }

  function SourceSetReady(p: Path): Path {
    p.(stream := true, cmds := if p.rules.runOnReady then p.cmds.StartOnReady() else p.cmds)
  }

  function SourceSetNotReady(p: Path): Path {
    p.(readers := {}, cmds := p.cmds.CloseOnReady(), stream := false)
  }

  /** Stopping the on-demand publisher and removing the publisher call each other. */
  function PublisherStop(p: Path): Path
    decreases if p.onPublisher.state == Initial then 1 else 2
  {
    var q := p.(onPublisher := p.onPublisher.Stop());
    var r := if q.source == NoSource then q
             else if q.source.Publisher? then RemovePublisher(q) else q.(panicked := true);
    r.(cmds := r.cmds.CloseOnDemand())
  }

  function RemovePublisher(p: Path): Path
    decreases if p.onPublisher.state == Initial then 0 else 3
  {
    var q := if !p.stream then p
             else if p.rules.OnDemandPublisher() && p.onPublisher.state != Initial then PublisherStop(p)
             else SourceSetNotReady(p);
    q.(source := NoSource)
  }

  // ---------------------------------------------------------------- handlers

  /** A request has to wait: the on-demand source or publisher is started unless it already is. */
  function Demand(p: Path): Path {
    if p.rules.OnDemandStatic() then
      if p.onStatic.state == Initial then StaticStart(p) else p
    else
      if p.onPublisher.state == Initial then PublisherStart(p) else p
  }

  function HandleDescribe(p: Path, req: Id): Path {
    if p.source == Redirect then p.(reqs := p.reqs.Answer(req, WithRedirect))
    else if p.stream then p.(reqs := p.reqs.Answer(req, WithStream))
    else if p.rules.OnDemandStatic() || p.rules.OnDemandPublisher() then Demand(p).(reqs := p.reqs.HoldDescribe(req))
    else if p.rules.hasFallback then p.(reqs := p.reqs.Answer(req, WithRedirect))
    else p.(reqs := p.reqs.Answer(req, NoOnePublishing))
  }

  /** Readers have joined. */
  function Joining(p: Path, readers: set<Id>): Path {
    var q := p.(readers := p.readers + readers);
    if p.rules.OnDemandStatic() then q.(onStatic := p.onStatic.Join())
    else if p.rules.OnDemandPublisher() then q.(onPublisher := p.onPublisher.Join())
    else q
  }

  function HandleReaderAdd(p: Path, req: Id, reader: Id): Path {
    if p.stream then Joining(p, {reader}).(reqs := p.reqs.Answer(req, Joined(reader)))
    else if p.rules.OnDemandStatic() || p.rules.OnDemandPublisher() then
      Demand(p).(reqs := p.reqs.HoldReader(req, reader))
    else p.(reqs := p.reqs.Answer(req, NoOnePublishing))
  }

  /** The awaited stream has arrived: the held requests are answered and the held readers join. */
  function ReleaseHeld(p: Path): Path {
    (if p.reqs.readers == [] then p else Joining(p, ReadersOf(p.reqs.readers))).(reqs := p.reqs.Release())
  }

  function HandleReaderRemove(p: Path, reader: Id): Path {
    var q := p.(readers := p.readers - {reader});
    if q.readers != {} then q
    else if q.rules.OnDemandStatic() then
      if q.onStatic.state == Ready then q.(onStatic := q.onStatic.ScheduleClose()) else q
    else if q.rules.OnDemandPublisher() then
      if q.onPublisher.state == Ready then q.(onPublisher := q.onPublisher.ScheduleClose()) else q
    else q
  }

  function HandleStaticSetReady(p: Path, ok: bool): Path {
    if !ok then p
    else
      var q := SourceSetReady(p);
      if q.rules.OnDemandStatic() then
        ReleaseHeld(q.(onStatic := q.onStatic.(readyTimer := false).ScheduleClose()))
      else q
  }

  function HandleStaticSetNotReady(p: Path): Path {
    var q := SourceSetNotReady(p);
    if q.rules.OnDemandStatic() && q.onStatic.state != Initial then StaticStop(q) else q
  }

  function HandlePublisherAdd(p: Path, author: Id): Path {
    if p.rules.kind != ByPublisher then p
    else if p.source != NoSource && p.rules.noOverride then p
    else
      var q := if p.source == NoSource then p
               else if p.source.Publisher? then RemovePublisher(p) else p.(panicked := true);
      q.(source := Publisher(author))
  }

  function HandlePublisherRemove(p: Path, author: Id): Path {
    if p.source == Publisher(author) then RemovePublisher(p) else p
  }

  function HandlePublisherStart(p: Path, author: Id, ok: bool): Path {
    if p.source != Publisher(author) || !ok then p
    else
      var q := SourceSetReady(p);
      if q.rules.OnDemandPublisher() then
        ReleaseHeld(q.(onPublisher := q.onPublisher.(readyTimer := false).ScheduleClose()))
      else q
  }

  function HandlePublisherStop(p: Path, author: Id): Path {
    if p.source == Publisher(author) && p.stream then
      if p.rules.OnDemandPublisher() && p.onPublisher.state != Initial then PublisherStop(p) else SourceSetNotReady(p)
    else p
  }

  /** No stream came in time: the held requests are told. */
  function GiveUp(p: Path): Path {
    p.(reqs := p.reqs.AnswerHeld(TimedOut))
  }

  // ---------------------------------------------------------------- the event loop

  datatype Event =
    | StaticReadyTimeout
    | StaticCloseTimeout
    | PublisherReadyTimeout
    | PublisherCloseTimeout
    | ReloadConf(before: PathConf, after: PathConf)
    | StaticSetReady(ok: bool)
    | StaticSetNotReady
    | DescribeReq(req: Id)
    | PublisherRemoveReq(author: Id)
    | PublisherAddReq(author: Id)
    | PublisherStartReq(author: Id, ok: bool)
    | PublisherStopReq(author: Id)
    | ReaderAddReq(req: Id, reader: Id)
    | ReaderRemoveReq(reader: Id)
    | Cancel                                 // the path manager closes the path, at any time
    | Terminate                              // the loop notices

  function Handle(p: Path, e: Event): Path {
    match e
    case StaticReadyTimeout => StaticStop(GiveUp(p.(onStatic := p.onStatic.(readyTimer := false))))
    case StaticCloseTimeout => StaticStop(SourceSetNotReady(p.(onStatic := p.onStatic.(closeTimer := false))))
    case PublisherReadyTimeout => PublisherStop(GiveUp(p.(onPublisher := p.onPublisher.(readyTimer := false))))
    case PublisherCloseTimeout => PublisherStop(p.(onPublisher := p.onPublisher.(closeTimer := false)))
    case ReloadConf(_, after) => p.(rules := RulesOf(after))
    case StaticSetReady(ok) => HandleStaticSetReady(p, ok)
    case StaticSetNotReady => HandleStaticSetNotReady(p)
    case DescribeReq(req) => HandleDescribe(p, req)
    case PublisherRemoveReq(author) => HandlePublisherRemove(p, author)
    case PublisherAddReq(author) => HandlePublisherAdd(p, author)
    case PublisherStartReq(author, ok) => HandlePublisherStart(p, author, ok)
    case PublisherStopReq(author) => HandlePublisherStop(p, author)
    case ReaderAddReq(req, reader) => HandleReaderAdd(p, req, reader)
    case ReaderRemoveReq(reader) => HandleReaderRemove(p, reader)
    case Cancel => p.(cancelled := true)
    case Terminate => p
  }

  /** The cases of the loop that ask afterwards whether the path is still in use. */
  predicate Rechecks(e: Event) {
    !(|| e.Cancel? || e.ReloadConf? || e.StaticSetReady? || e.PublisherAddReq? || e.PublisherStartReq?
      || e.ReaderRemoveReq?)
  }

  predicate FirstUse(e: Event) {
    e.DescribeReq? || e.ReaderAddReq? || e.PublisherAddReq?
  }

  predicate ShouldClose(p: Path) {
    p.rules.pattern && p.source == NoSource && p.readers == {} && p.reqs.NoneHeld()
  }

  /** The end of the loop: everything the path still holds is answered, stopped or closed. */
  function Shutdown(p: Path): Path {
    var q := p.(alive := false, cancelled := true,
                onStatic := p.onStatic.(readyTimer := false, closeTimer := false),
                onPublisher := p.onPublisher.(readyTimer := false, closeTimer := false),
                cmds := p.cmds.CloseOnInit(),
                reqs := p.reqs.AnswerHeld(Terminated));
    var r := if q.stream then SourceSetNotReady(q) else q;
    r.(source := if r.source.Static? then Static(false) else r.source, cmds := r.cmds.CloseOnDemand())
  }

  function Step(p: Path, e: Event): Path {
    var q := Handle(p, e).(used := p.used || FirstUse(e));
    if e.Terminate? || (Rechecks(e) && ShouldClose(q)) then Shutdown(q) else q
  }

  /**
   * What the surroundings may do: an armed timer may fire; the manager reloads only what can be updated in place;
   * a running static source becomes ready only when it has no stream and not ready only when it has one; a
   * publisher starts at most once until it is stopped or removed. Once the context of the path is cancelled, requests
   * may be dropped on their way, so that a source or publisher can become ready while the path has its old stream.
   */
  predicate Enabled(p: Path, e: Event) {
    && p.alive
    && match e
       case StaticReadyTimeout => p.onStatic.readyTimer
       case StaticCloseTimeout => p.onStatic.closeTimer
       case PublisherReadyTimeout => p.onPublisher.readyTimer
       case PublisherCloseTimeout => p.onPublisher.closeTimer
       case ReloadConf(before, after) =>
         RulesOf(before) == p.rules && CanBeUpdated(before, after) && before.regexp.Some? == after.regexp.Some?
       case StaticSetReady(_) => p.source == Static(true) && (p.stream ==> p.cancelled)
       case StaticSetNotReady => p.source == Static(true) && p.stream
       case PublisherStartReq(author, _) => p.source == Publisher(author) && p.stream ==> p.cancelled
       case Terminate => p.cancelled
       case _ => true
  }

  /** A new path, its source chosen and its init command started. */
  function NewPath(rules: Rules): Path {
    var source := match rules.kind
                  case ByRedirect => Redirect
                  case ByStatic => Static(!rules.sourceOnDemand)
                  case ByPublisher => NoSource;
    var cmds := if rules.runOnInit then Commands(Some(0), None, None, 1, []) else Commands(None, None, None, 0, []);
    Path(rules, source, false, {}, IDLE, IDLE, Requests([], [], [], []), cmds, true, false, false, false)
  }

  function RunAll(p: Path, es: seq<Event>): Path
    decreases |es|
  {
    if es == [] then p else RunAll(Step(p, es[0]), es[1..])
  }

  /** Every event of the run is possible when it comes. */
  predicate Possible(p: Path, es: seq<Event>)
    decreases |es|
  {
    es == [] || (Enabled(p, es[0]) && Possible(Step(p, es[0]), es[1..]))
  }
}
