/**
 The run pipeline of internal/action/action.go as a labelled step system.

 Main submits one writer task, one kustomize task per path, one indexer task and,
 once the index is complete, one helm task per indexed HelmRelease. The tasks talk
 over two bounded channels, `manifests` and `resources`, and over the rendezvous
 channel `errs`, which the collector goroutine drains. Every submitted task has a
 forwarder goroutine that hands a panic of the task to `errs`.

 A step is one event of one goroutine. A send on a closed channel and a second
 close are not excluded: they set `fault`, and Inv proves that they never happen.
 */
module Pipeline {
  import opened Helpers
  import opened Wrappers
  import opened ResourceIndex

  const HELM_RELEASE_KIND := "HelmRelease"

  /** `content[i]` is what path `i` renders to; `None` is a resource whose metadata cannot be read. */
  datatype Config = Config(content: seq<seq<Option<Resource>>>, workers: nat)

  /** The task that rendered a manifest. */
  datatype Source = Path(index: nat) | Release(ref: Ref)

  datatype Which = Writer | Indexer

  /** What can arrive on `errs`. */
  datatype Report =
    | BuildFailed(src: Source)
    | NotHandled(which: Which, src: Source)
    | BuildPanicked(src: Source)
    | StagePanicked(which: Which)

  datatype Outcome = Succeeded | Failed

  /** A kustomize or helm task together with its forwarder. */
  datatype JobPhase =
    | Queued
    | Building
    | Reporting             // blocked in `errs <- err`
    | Emitting              // blocked in `manifests <- index`
    | Offering              // blocked in `resources <- index`, kustomize only
    | Returned(outcome: Outcome)
    | Crashed               // the task panicked, its forwarder is blocked in `errs <- ...`
    | Joined(outcome: Outcome)
    | Forwarded             // the panic was forwarded
  {
    predicate TaskDone() {
      Returned? || Crashed? || Joined? || Forwarded?
    }

    predicate ForwarderDone() {
      Joined? || Forwarded?
    }

    predicate Running() {
      Building? || Reporting? || Emitting? || Offering?
    }
  }

  /** What the writer or the indexer does with the item it took. */
  datatype Hold =
    | Handling
    | Complaining      // blocked in `errs <- err`
    | Panicked         // the forwarder is blocked in `errs <- ...`
    | PanicForwarded

  /** The writer or the indexer task together with its forwarder. */
  datatype LoopPhase =
    | Unsubmitted
    | Waiting          // queued in its pool
    | Receiving
    | Holding(item: Source, why: Hold)
    | Finished
    | Settled          // the forwarder is done
  {
    predicate TaskDone() {
      Finished? || Settled? || Died()
    }

    predicate ForwarderDone() {
      Settled? || Forwarded()
    }

    predicate Died() {
      Holding? && (why.Panicked? || why.PanicForwarded?)
    }

    predicate Forwarded() {
      Holding? && why.PanicForwarded?
    }

    predicate InHand(x: Source) {
      Holding? && item == x
    }

    predicate Is(h: Hold) {
      Holding? && why == h
    }
  }

  /** A consuming task with the bounded channel it ranges over, and what became of the items it took. */
  datatype Stage = Stage(
    phase: LoopPhase, queue: seq<Source>, closed: bool, handled: multiset<Source>, rejected: multiset<Source>)
  {
    /** Where item `x` is on its way through the stage; each place counts it once. */
    function Count(x: Source): nat {
      multiset(queue)[x] + Bit(phase.InHand(x)) + handled[x] + rejected[x]
    }

    /** How often its task was processed for `x` and the loop went on, or is about to report the failure. */
    function Absorbed(x: Source): nat {
      handled[x] + rejected[x] + Bit(phase == Holding(x, Complaining))
    }
  }

  /** Where main is; the names say what it does next. */
  datatype Main =
    | SubmitWriter
    | SubmitPath(next: nat)
    | SubmitIndexer
    | StopKustomize
    | CloseResources
    | StopIndexer
    | SubmitReleases(todo: set<Ref>)
    | StopHelm
    | CloseManifests
    | StopWriter
    | JoinForwarders
    | CloseErrs
    | Done
  {
    function Rank(): nat {
      match this
      case SubmitWriter => 12
      case SubmitPath(_) => 11
      case SubmitIndexer => 10
      case StopKustomize => 9
      case CloseResources => 8
      case StopIndexer => 7
      case SubmitReleases(_) => 6
      case StopHelm => 5
      case CloseManifests => 4
      case StopWriter => 3
      case JoinForwarders => 2
      case CloseErrs => 1
      case Done => 0
    }
  }

  /** The index, and which paths were pushed to it, in this order; the last of them may still be reporting. */
  datatype IndexState = IndexState(entries: Entries, pushes: seq<Source>)

  datatype State = State(
    main: Main,
    jobs: map<Source, JobPhase>,
    writer: Stage,
    indexer: Stage,
    index: IndexState,
    errsClosed: bool,
    collecting: bool,
    lastErr: Option<Report>,
    collected: multiset<Report>,
    fault: bool)

  /** What one goroutine does next. Choices the code leaves to libraries are in the label. */
  datatype JobAct = Start | Render | FailRender | Panic | Send | HandOver | Join
  datatype StageAct = Begin | Receive | Handle | FailHandle | Explode(progress: nat) | Complain | Return | Settle
  datatype Event =
    | MainMove(pick: Ref)
    | JobMove(src: Source, act: JobAct)
    | StageMove(which: Which, stageAct: StageAct)
    | CollectorExit

  function OneMore<T>(m: multiset<T>, x: T): multiset<T> {
    m[x := m[x] + 1]
  }

  const NewStage := Stage(Unsubmitted, [], false, multiset{}, multiset{})

  const Init := State(SubmitWriter, map[], NewStage, NewStage, IndexState(map[], []), false, true, None, multiset{}, false)

  function Contents(c: Config, x: Source): seq<Option<Resource>> {
    if x.Path? && x.index < |c.content| then c.content[x.index] else []
  }

  function Releases(index: set<Ref>): set<Ref> {
    set r | r in index && r.kind == HELM_RELEASE_KIND
  }

  /** The capacities of `manifests` and `resources`. */
  function Capacity(c: Config, w: Which): nat {
    if w == Writer then c.workers else |c.content|
  }

  function RunningHelm(s: State): set<Source> {
    set x | x in s.jobs && x.Release? && s.jobs[x].Running()
  }

  /** The helm pool runs at most `workers` tasks at a time, without limit when `workers` is 0. */
  predicate SlotFree(c: Config, s: State, x: Source) {
    x.Path? || c.workers == 0 || |RunningHelm(s)| < c.workers
  }

  predicate PathJobsDone(s: State) {
    forall x :: x in s.jobs && x.Path? ==> s.jobs[x].TaskDone()
  }

  predicate JobsDone(s: State) {
    forall x :: x in s.jobs ==> s.jobs[x].TaskDone()
  }

  predicate ForwardersDone(s: State) {
    && (forall x :: x in s.jobs ==> s.jobs[x].ForwarderDone())
    && s.writer.phase.ForwarderDone()
    && s.indexer.phase.ForwarderDone()
  }

  /** A rendezvous on `errs`: it needs the collector, or faults on the closed channel. */
  function SendErr(s: State, r: Report): Option<State> {
    if s.errsClosed then Some(s.(fault := true))
    else if s.collecting then Some(s.(lastErr := Some(r), collected := OneMore(s.collected, r)))
    else None
  }

  function SetPhase(s: State, x: Source, p: JobPhase): State {
    s.(jobs := s.jobs[x := p])
  }

  function SetStage(s: State, w: Which, st: Stage): State {
    if w == Writer then s.(writer := st) else s.(indexer := st)
  }

  function GetStage(s: State, w: Which): Stage {
    if w == Writer then s.writer else s.indexer
  }

  function CloseStage(s: State, w: Which): State {
    if GetStage(s, w).closed then s.(fault := true) else SetStage(s, w, GetStage(s, w).(closed := true))
  }

  /**
   The body of Run, one statement at a time: where main goes next, if it can, and what
   the statement does. `pick` is the next key of the map iteration.
   */
  function MainNext(c: Config, s: State, pick: Ref): Option<State> {
    var m :- NextMain(c, s, pick);
    Some(MainEffect(c, s, pick).(main := m))
  }

  function NextMain(c: Config, s: State, pick: Ref): Option<Main> {
    match s.main
    case SubmitWriter => Some(SubmitPath(0))
    case SubmitPath(i) => Some(if i < |c.content| then SubmitPath(i + 1) else SubmitIndexer)
    case SubmitIndexer => Some(StopKustomize)
    case StopKustomize => if PathJobsDone(s) then Some(CloseResources) else None
    case CloseResources => Some(StopIndexer)
    case StopIndexer => if s.indexer.phase.TaskDone() then Some(SubmitReleases(Releases(s.index.entries.Keys))) else None
    case SubmitReleases(todo) =>
      if todo == {} then Some(StopHelm)
      else if pick in todo then Some(SubmitReleases(todo - {pick}))
      else None
    case StopHelm => if JobsDone(s) then Some(CloseManifests) else None
    case CloseManifests => Some(StopWriter)
    case StopWriter => if s.writer.phase.TaskDone() then Some(JoinForwarders) else None
    case JoinForwarders => if ForwardersDone(s) then Some(CloseErrs) else None
    case CloseErrs => Some(Done)
    case Done => None
  }

  function MainEffect(c: Config, s: State, pick: Ref): State {
    match s.main
    case SubmitWriter => s.(writer := s.writer.(phase := Waiting))
    case SubmitPath(i) => if i < |c.content| then SetPhase(s, Path(i), Queued) else s
    case SubmitIndexer => s.(indexer := s.indexer.(phase := Waiting))
    case CloseResources => CloseStage(s, Indexer)
    case SubmitReleases(todo) => if pick in todo then SetPhase(s, Release(pick), Queued) else s
    case CloseManifests => CloseStage(s, Writer)
    case CloseErrs => if s.errsClosed then s.(fault := true) else s.(errsClosed := true)
    case _ => s
  }

  /** What a task's step does besides moving the task. */
  datatype Effect = Silent | Emit(which: Which) | PassOn | Raise(report: Report)

  /** One step of the task of `x` or of its forwarder. */
  function JobStep(x: Source, p: JobPhase, act: JobAct): Option<(JobPhase, Effect)> {
    match act
    case Start => if p.Queued? then Some((Building, Silent)) else None
    case Render => if p.Building? then Some((Emitting, Silent)) else None
    case FailRender => if p.Building? then Some((Reporting, Silent)) else None
    case Panic => if p.Building? then Some((Crashed, Silent)) else None
    case HandOver => if p.Emitting? then Some((AfterEmit(x), PassOn)) else None
    case Send =>
      if p.Emitting? then Some((AfterEmit(x), Emit(Writer)))
      else if p.Offering? then Some((Returned(Succeeded), Emit(Indexer)))
      else if p.Reporting? then Some((Returned(Failed), Raise(BuildFailed(x))))
      else None
    case Join =>
      if p.Returned? then Some((Joined(p.outcome), Silent))
      else if p.Crashed? then Some((Forwarded, Raise(BuildPanicked(x))))
      else None
  }

  /** After `manifests <- index` a kustomize task goes on to `resources <- index`. */
  function AfterEmit(x: Source): JobPhase {
    if x.Path? then Offering else Returned(Succeeded)
  }

  /** A send to a bounded channel of this capacity. */
  function Enqueue(st: Stage, x: Source, capacity: nat): Option<Stage> {
    if |st.queue| < capacity then Some(st.(queue := st.queue + [x])) else None
  }

  /** A send on an unbuffered channel passes the item straight to a receiving task. */
  function PassTo(st: Stage, x: Source, capacity: nat): Option<Stage> {
    if capacity == 0 && st.phase.Receiving? then Some(st.(phase := Holding(x, Handling))) else None
  }

  function JobNext(c: Config, s: State, x: Source, act: JobAct): Option<State>
    requires x in s.jobs
  {
    if act == Start && !SlotFree(c, s, x) then None
    else
      var (p, effect) :- JobStep(x, s.jobs[x], act);
      match effect
      case Silent => Some(SetPhase(s, x, p))
      case Raise(r) =>
        var s' :- SendErr(s, r);
        Some(SetPhase(s', x, p))
      case Emit(w) =>
        if GetStage(s, w).closed then Some(s.(fault := true))
        else
          var st :- Enqueue(GetStage(s, w), x, Capacity(c, w));
          Some(SetPhase(SetStage(s, w, st), x, p))
      case PassOn =>
        if s.writer.closed then Some(s.(fault := true))
        else
          var st :- PassTo(s.writer, x, Capacity(c, Writer));
          Some(SetPhase(SetStage(s, Writer, st), x, p))
  }

  /** One step of the loop of a stage or of its forwarder, with what it sends on `errs`. */
  function StageStep(w: Which, st: Stage, act: StageAct): Option<(Stage, Option<Report>)> {
    var p := st.phase;
    match act
    case Begin => if p.Waiting? then Some((st.(phase := Receiving), None)) else None
    case Receive =>
      if p.Receiving? && st.queue != []
      then Some((st.(phase := Holding(st.queue[0], Handling), queue := st.queue[1..]), None)) else None
    case Return =>
      if p.Receiving? && st.closed && st.queue == [] then Some((st.(phase := Finished), None)) else None
    case Handle =>
      if p.Is(Handling) then Some((st.(phase := Receiving, handled := OneMore(st.handled, p.item)), None)) else None
    case FailHandle => if p.Is(Handling) then Some((st.(phase := Holding(p.item, Complaining)), None)) else None
    case Explode(_) => if p.Is(Handling) then Some((st.(phase := Holding(p.item, Panicked)), None)) else None
    case Complain =>
      if p.Is(Complaining)
      then Some((st.(phase := Receiving, rejected := OneMore(st.rejected, p.item)), Some(NotHandled(w, p.item))))
      else None
    case Settle =>
      if p.Finished? then Some((st.(phase := Settled), None))
      else if p.Is(Panicked) then Some((st.(phase := Holding(p.item, PanicForwarded)), Some(StagePanicked(w))))
      else None
  }

  function Prefix<T>(s: seq<T>, n: nat): seq<T> {
    s[..if n < |s| then n else |s|]
  }

  /**
   What Push does to the index: it stores the readable prefix, whether or not it then
   fails; a panic inside it leaves the entries of some shorter prefix behind.
   */
  function IndexAfter(c: Config, s: State, act: StageAct): IndexState {
    if !s.indexer.phase.Is(Handling) then s.index
    else
      var x := s.indexer.phase.item;
      match act
      case Handle => IndexState(s.index.entries + Pushed(Contents(c, x)), s.index.pushes + [x])
      case FailHandle => IndexState(s.index.entries + Pushed(Contents(c, x)), s.index.pushes + [x])
      case Explode(n) => s.index.(entries := s.index.entries + Pushed(Prefix(Contents(c, x), n)))
      case _ => s.index
  }

  /** Push fails exactly on unreadable metadata; encoding and writing may fail on anything. */
  predicate Possible(c: Config, s: State, w: Which, act: StageAct) {
    w == Indexer && s.indexer.phase.Is(Handling) ==>
      var readable := AllReadable(Contents(c, s.indexer.phase.item));
      (act == Handle ==> readable) && (act == FailHandle ==> !readable)
  }

  function StageNext(c: Config, s: State, w: Which, act: StageAct): Option<State> {
    if !Possible(c, s, w, act) then None
    else
      var (st, report) :- StageStep(w, GetStage(s, w), act);
      var s' :- if report.Some? then SendErr(s, report.value) else Some(s);
      var index := if w == Indexer then IndexAfter(c, s, act) else s.index;
      Some(SetStage(s', w, st).(index := index))
  }

  function Next(c: Config, s: State, e: Event): Option<State> {
    match e
    case MainMove(pick) => MainNext(c, s, pick)
    case JobMove(x, act) => if x in s.jobs then JobNext(c, s, x, act) else None
    case StageMove(w, act) => StageNext(c, s, w, act)
    case CollectorExit => if s.collecting && s.errsClosed then Some(s.(collecting := false)) else None
  }

  ghost predicate Step(c: Config, s: State, s': State) {
    exists e :: Next(c, s, e) == Some(s')
  }

  /** No goroutine can move. */
  ghost predicate Quiet(c: Config, s: State) {
    forall e :: Next(c, s, e) == None
  }

  /** A finite run: each state is the initial one or a step away from the one before it. */
  ghost predicate Run(c: Config, run: seq<State>) {
    && run != []
    && run[0] == Init
    && forall i :: 0 < i < |run| ==> Step(c, run[i-1], run[i])
  }

  /** A task of source `x` in this phase has passed its send to the stage. */
  predicate Sent(x: Source, p: JobPhase, w: Which) {
    match p
    case Offering => w == Writer
    case Returned(o) => o == Succeeded && (w == Writer || x.Path?)
    case Joined(o) => o == Succeeded && (w == Writer || x.Path?)
    case _ => false
  }

  predicate Failure(p: JobPhase) {
    p == Returned(Failed) || p == Joined(Failed)
  }
}
