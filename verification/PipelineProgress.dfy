/**
 The run pipeline gets there: until main is done some goroutine can move, and every step lowers a measure.
 The one exception is a doomed task, which waits for a full `manifests` channel whose writer has panicked;
 a run completes exactly if no task is ever doomed.
 */
module PipelineProgress {
  import opened Helpers
  import opened Wrappers
  import opened ResourceIndex
  import opened Pipeline
  import opened PipelineSafety

  // ----- some goroutine can move -----

  /** The writer is gone, `manifests` is full, and the task of `x` waits to send to it. */
  predicate Doomed(c: Config, s: State, x: Source) {
    && s.writer.phase.Died() && !s.writer.closed && |s.writer.queue| >= c.workers
    && x in s.jobs && s.jobs[x].Emitting?
  }

  ghost predicate NotDoomed(c: Config, s: State) {
    forall x :: !Doomed(c, s, x)
  }

  /** Where a goroutine of the stage has something to do without waiting for an item. */
  predicate StageReady(st: Stage) {
    && !st.phase.Unsubmitted? && !st.phase.ForwarderDone()
    && (st.phase.Receiving? ==> st.queue != [] || st.closed)
  }

  lemma StageCanMove(c: Config, s: State, w: Which) returns (act: StageAct)
    requires StageReady(GetStage(s, w)) && (s.errsClosed || s.collecting)
    ensures StageNext(c, s, w, act).Some?
  {
    var st := GetStage(s, w);
    match st.phase
    case Waiting => act := Begin;
    case Receiving => act := if st.queue != [] then Receive else Return;
    case Finished => act := Settle;
    case Holding(x, why) =>
      match why {
        case Handling => act := if w == Indexer && !AllReadable(Contents(c, x)) then FailHandle else Handle;
        case Complaining => act := Complain;
        case Panicked => act := Settle;
      }
  }

  /** A task that is not queued for a worker and not blocked on a channel can move. */
  lemma FreeJobCanMove(c: Config, s: State, x: Source) returns (act: JobAct)
    requires x in s.jobs && (s.errsClosed || s.collecting)
    requires s.jobs[x].Building? || s.jobs[x].Reporting? || s.jobs[x].Returned? || s.jobs[x].Crashed?
    ensures JobNext(c, s, x, act).Some?
  {
    match s.jobs[x]
    case Building => act := FailRender;
    case Reporting => act := Send;
    case Returned(_) => act := Join;
    case Crashed => act := Join;
  }

  /** The paths below `n`, as sources. */
  function PathsBelow(n: nat): (ps: set<Source>)
    ensures |ps| == n
    ensures forall x: Source :: x in ps <==> x.Path? && x.index < n
  {
    if n == 0 then {} else
    var rest := PathsBelow(n - 1);
    assert Path(n - 1) !in rest;
    assert forall x: Source :: x in rest + {Path(n - 1)} <==> x.Path? && x.index < n by {
      assert forall x: Source :: x.Path? && x.index == n - 1 ==> x == Path(n - 1);
    }
    rest + {Path(n - 1)}
  }

  /** `resources` has room for every path, so a send on it never blocks. */
  lemma ResourcesHaveRoom(n: nat, queue: seq<Source>, x: Source)
    requires forall y :: multiset(queue)[y] <= 1
    requires forall y: Source :: y in queue ==> y.Path? && y.index < n && y != x
    requires x.Path? && x.index < n
    ensures |queue| < n
  {
    var others := PathsBelow(n) - {x};
    DistinctSize(queue);
    SubsetSize((set y | y in queue), others);
    assert |others| == n - 1;
  }

  lemma OfferCanMove(c: Config, s: State, x: Source)
    requires InvMain(s) && InvJobs(c, s) && InvFlow(s, Indexer) && x in s.jobs && s.jobs[x].Offering?
    ensures JobNext(c, s, x, Send).Some?
  {
    var queue := s.indexer.queue;
    forall y ensures multiset(queue)[y] <= 1 && (y in queue ==> y in s.jobs && Sent(y, s.jobs[y], Indexer)) {
      assert GetStage(s, Indexer).Count(y) == SentBit(s, Indexer, y);
    }
    forall y: Source | y in queue ensures y.Path? && y.index < |c.content| {
      assert y == Path(y.index);
    }
    assert x == Path(x.index);
    ResourcesHaveRoom(|c.content|, queue, x);
  }

  /** A task blocked on `manifests` is unblocked by the writer, or finds room in it, unless it is doomed. */
  lemma EmitCanMove(c: Config, s: State, x: Source) returns (e: Event)
    requires InvMain(s) && Drained(s.writer) && x in s.jobs && s.jobs[x].Emitting?
    requires !Doomed(c, s, x) && !s.writer.phase.Unsubmitted?
    ensures Next(c, s, e).Some?
  {
    if s.writer.closed || |s.writer.queue| < c.workers {
      e := JobMove(x, Send);
    } else if s.writer.phase.Receiving? && s.writer.queue == [] {
      e := JobMove(x, HandOver);
    } else {
      var act := StageCanMove(c, s, Writer);
      e := StageMove(Writer, act);
    }
  }

  lemma RunningCanMove(c: Config, s: State, x: Source) returns (e: Event)
    requires Inv(c, s) && x in s.jobs && s.jobs[x].Running() && NotDoomed(c, s)
    ensures Next(c, s, e).Some?
  {
    match s.jobs[x]
    case Emitting => e := EmitCanMove(c, s, x);
    case Offering => OfferCanMove(c, s, x); e := JobMove(x, Send);
    case _ => var act := FreeJobCanMove(c, s, x); e := JobMove(x, act);
  }

  /** An unfinished task can move itself, or waits for a worker that runs one that can, or for the writer. */
  lemma UnfinishedCanMove(c: Config, s: State, x: Source) returns (e: Event)
    requires Inv(c, s) && x in s.jobs && !s.jobs[x].TaskDone() && NotDoomed(c, s)
    ensures Next(c, s, e).Some?
  {
    if !s.jobs[x].Queued? {
      e := RunningCanMove(c, s, x);
    } else if SlotFree(c, s, x) {
      e := JobMove(x, Start);
    } else {
      var y :| y in RunningHelm(s);
      e := RunningCanMove(c, s, y);
    }
  }

  /** Deadlock freedom: until main is done, some goroutine can move, unless a task is doomed. */
  lemma Progress(c: Config, s: State) returns (e: Event)
    requires Inv(c, s) && !s.main.Done? && NotDoomed(c, s)
    ensures Next(c, s, e).Some?
  {
    var anyRef := Ref("", "", "", "");
    match s.main
    case StopKustomize =>
      if x :| x in s.jobs && x.Path? && !s.jobs[x].TaskDone() { e := UnfinishedCanMove(c, s, x); }
      else { e := MainMove(anyRef); }
    case StopHelm =>
      if x :| x in s.jobs && !s.jobs[x].TaskDone() { e := UnfinishedCanMove(c, s, x); }
      else { e := MainMove(anyRef); }
    case StopIndexer =>
      if s.indexer.phase.TaskDone() { e := MainMove(anyRef); }
      else { var act := StageCanMove(c, s, Indexer); e := StageMove(Indexer, act); }
    case StopWriter =>
      if s.writer.phase.TaskDone() { e := MainMove(anyRef); }
      else { var act := StageCanMove(c, s, Writer); e := StageMove(Writer, act); }
    case JoinForwarders =>
      if x :| x in s.jobs && !s.jobs[x].ForwarderDone() { var act := FreeJobCanMove(c, s, x); e := JobMove(x, act); }
      else if !s.writer.phase.ForwarderDone() { var act := StageCanMove(c, s, Writer); e := StageMove(Writer, act); }
      else if !s.indexer.phase.ForwarderDone() { var act := StageCanMove(c, s, Indexer); e := StageMove(Indexer, act); }
      else { e := MainMove(anyRef); }
    case SubmitReleases(todo) =>
      if r :| r in todo { e := MainMove(r); } else { e := MainMove(anyRef); }
    case _ => e := MainMove(anyRef);
  }

  // ----- every step lowers the measure -----

  function JobWeight(p: JobPhase): nat {
    match p
    case Queued => 20
    case Building => 19
    case Emitting => 18
    case Offering => 9
    case Reporting => 3
    case Returned(_) => 2
    case Crashed => 2
    case Joined(_) => 0
    case Forwarded => 0
  }

  ghost function JobsWeight(jobs: map<Source, JobPhase>): nat
    decreases |jobs|
  {
    if jobs == map[] then 0
    else
      var x :| x in jobs;
      JobWeight(jobs[x]) + JobsWeight(jobs - {x})
  }

  function PhaseWeight(p: LoopPhase): nat {
    match p
    case Unsubmitted => 0
    case Waiting => 12
    case Receiving => 10
    case Finished => 1
    case Settled => 0
    case Holding(_, why) =>
      match why
      case Handling => 13
      case Complaining => 12
      case Panicked => 2
      case PanicForwarded => 0
  }

  function StageWeight(st: Stage): nat {
    PhaseWeight(st.phase) + 5 * |st.queue|
  }

  /** The work left to goroutines other than main. */
  ghost function Work(s: State): nat {
    JobsWeight(s.jobs) + StageWeight(s.writer) + StageWeight(s.indexer) + Bit(s.collecting)
  }

  /** The submissions left in the loop main is in. */
  function Left(c: Config, s: State): nat {
    match s.main
    case SubmitPath(i) => if i <= |c.content| then |c.content| - i else 0
    case SubmitReleases(todo) => |todo|
    case _ => 0
  }

  ghost predicate Lower(c: Config, s': State, s: State) {
    || s'.main.Rank() < s.main.Rank()
    || (s'.main.Rank() == s.main.Rank() && Left(c, s') < Left(c, s))
    || (s'.main.Rank() == s.main.Rank() && Left(c, s') == Left(c, s) && Work(s') < Work(s))
  }

  lemma {:induction false} JobsWeightRemove(jobs: map<Source, JobPhase>, x: Source)
    requires x in jobs
    ensures JobsWeight(jobs) == JobWeight(jobs[x]) + JobsWeight(jobs - {x})
    decreases |jobs|
  {
    var y :| y in jobs && JobsWeight(jobs) == JobWeight(jobs[y]) + JobsWeight(jobs - {y});
    if y != x {
      JobsWeightRemove(jobs - {y}, x);
      JobsWeightRemove(jobs - {x}, y);
      assert jobs - {y} - {x} == jobs - {x} - {y};
    }
  }

  lemma JobsWeightUpdate(jobs: map<Source, JobPhase>, x: Source, p: JobPhase)
    requires x in jobs
    ensures JobsWeight(jobs[x := p]) + JobWeight(jobs[x]) == JobsWeight(jobs) + JobWeight(p)
  {
    JobsWeightRemove(jobs, x);
    JobsWeightRemove(jobs[x := p], x);
    assert jobs[x := p] - {x} == jobs - {x};
  }

  lemma StageStepLowers(w: Which, st: Stage, act: StageAct)
    requires StageStep(w, st, act).Some?
    ensures StageWeight(StageStep(w, st, act).value.0) < StageWeight(st)
  {
  }

  lemma JobStepLowers(x: Source, p: JobPhase, act: JobAct)
    requires JobStep(x, p, act).Some?
    ensures var (p', effect) := JobStep(x, p, act).value;
      JobWeight(p') + (if effect.Emit? || effect.PassOn? then 6 else 1) <= JobWeight(p)
  {
  }

  lemma SendWeighs(st: Stage, x: Source, capacity: nat, st': Stage)
    requires Enqueue(st, x, capacity) == Some(st') || PassTo(st, x, capacity) == Some(st')
    ensures StageWeight(st') <= StageWeight(st) + 5
  {
  }

  /** What a task's step leaves of the rest of the state. */
  ghost predicate JobMoveOk(c: Config, s: State, x: Source, p: JobPhase, effect: Effect, s': State)
    requires x in s.jobs
  {
    && s'.main == s.main && s'.collecting == s.collecting && s'.jobs == s.jobs[x := p]
    && (effect != Emit(Writer) && effect != PassOn ==> s'.writer == s.writer)
    && (effect != Emit(Indexer) ==> s'.indexer == s.indexer)
    && (effect == Emit(Writer) ==> Enqueue(s.writer, x, c.workers) == Some(s'.writer))
    && (effect == PassOn ==> PassTo(s.writer, x, c.workers) == Some(s'.writer))
    && (effect == Emit(Indexer) ==> Enqueue(s.indexer, x, |c.content|) == Some(s'.indexer))
  }

  lemma SendingShape(c: Config, s: State, x: Source, act: JobAct, s': State)
    requires x in s.jobs && JobNext(c, s, x, act) == Some(s') && !s'.fault && !s.fault
    requires var effect := JobStep(x, s.jobs[x], act).value.1; effect.Emit? || effect.PassOn?
    ensures var (p, effect) := JobStep(x, s.jobs[x], act).value; JobMoveOk(c, s, x, p, effect, s')
  {
  }

  lemma JobMoveShape(c: Config, s: State, x: Source, act: JobAct, s': State)
    requires x in s.jobs && JobNext(c, s, x, act) == Some(s') && !s'.fault && !s.fault
    ensures var (p, effect) := JobStep(x, s.jobs[x], act).value; JobMoveOk(c, s, x, p, effect, s')
  {
    var effect := JobStep(x, s.jobs[x], act).value.1;
    if effect.Emit? || effect.PassOn? {
      SendingShape(c, s, x, act, s');
    }
  }

  lemma JobMoveLowers(c: Config, s: State, x: Source, act: JobAct, s': State)
    requires x in s.jobs && JobNext(c, s, x, act) == Some(s') && !s'.fault && !s.fault
    ensures s'.main == s.main && Work(s') < Work(s)
  {
    JobMoveShape(c, s, x, act, s');
    var (p, effect) := JobStep(x, s.jobs[x], act).value;
    JobStepLowers(x, s.jobs[x], act);
    JobsWeightUpdate(s.jobs, x, p);
    if effect == Emit(Writer) || effect == PassOn { SendWeighs(s.writer, x, c.workers, s'.writer); }
    if effect == Emit(Indexer) { SendWeighs(s.indexer, x, |c.content|, s'.indexer); }
  }

  lemma StageMoveLowers(c: Config, s: State, w: Which, act: StageAct, s': State)
    requires StageNext(c, s, w, act) == Some(s')
    ensures s'.main == s.main && Work(s') < Work(s)
  {
    StageStepLowers(w, GetStage(s, w), act);
    match w case Writer => case Indexer =>
  }

  lemma MainMoveLowers(c: Config, s: State, pick: Ref, s': State)
    requires s.main.SubmitPath? ==> s.main.next <= |c.content|
    requires NextMain(c, s, pick) == Some(s'.main)
    ensures s'.main.Rank() < s.main.Rank() || (s'.main.Rank() == s.main.Rank() && Left(c, s') < Left(c, s))
  {
  }

  lemma StepLowers(c: Config, s: State, e: Event, s': State)
    requires !s.fault && (s.main.SubmitPath? ==> s.main.next <= |c.content|)
    requires Next(c, s, e) == Some(s') && !s'.fault
    ensures Lower(c, s', s)
  {
    match e
    case MainMove(pick) => MainMoveLowers(c, s, pick, s');
    case JobMove(x, act) => JobMoveLowers(c, s, x, act, s');
    case StageMove(w, act) => StageMoveLowers(c, s, w, act, s');
    case CollectorExit =>
  }

  /** An endless run: it stands still only where no goroutine can move. */
  ghost predicate Execution(c: Config, run: nat -> State) {
    && run(0) == Init
    && forall i: nat :: Moves(c, run, i)
  }

  ghost predicate Moves(c: Config, run: nat -> State, i: nat) {
    Step(c, run(i), run(i + 1)) || (Quiet(c, run(i)) && run(i + 1) == run(i))
  }

  lemma {:induction false} ExecutionKeepsInv(c: Config, run: nat -> State, i: nat)
    requires Execution(c, run)
    ensures Inv(c, run(i))
  {
    if i == 0 {
      InitInv(c);
    } else {
      ExecutionKeepsInv(c, run, i - 1);
      assert Moves(c, run, i - 1);
      if Step(c, run(i - 1), run(i)) {
        var e :| Next(c, run(i - 1), e) == Some(run(i));
        NextKeepsInv(c, run(i - 1), e, run(i));
      }
    }
  }

  lemma ExecutionLowers(c: Config, run: nat -> State, i: nat)
    requires Execution(c, run) && !run(i).main.Done? && NotDoomed(c, run(i))
    ensures Lower(c, run(i + 1), run(i))
  {
    ExecutionKeepsInv(c, run, i);
    ExecutionKeepsInv(c, run, i + 1);
    var e := Progress(c, run(i));
    assert Moves(c, run, i) && !Quiet(c, run(i));
    var e' :| Next(c, run(i), e') == Some(run(i + 1));
    StepLowers(c, run(i), e', run(i + 1));
  }

  /** Whatever the scheduling, a run in which no task is ever doomed reaches the point where main is done. */
  lemma {:induction false} ReachesDone(c: Config, run: nat -> State, i: nat) returns (n: nat)
    requires Execution(c, run)
    requires forall k: nat :: NotDoomed(c, run(k))
    ensures run(n).main.Done?
    decreases run(i).main.Rank(), Left(c, run(i)), Work(run(i))
  {
    if run(i).main.Done? {
      return i;
    }
    assert NotDoomed(c, run(i));
    ExecutionLowers(c, run, i);
    n := ReachesDone(c, run, i + 1);
  }

  // ----- a panic of the writer -----

  lemma JobMoveStaysDoomed(c: Config, s: State, y: Source, act: JobAct, s': State, x: Source)
    requires Doomed(c, s, x) && !s.fault && y in s.jobs && JobNext(c, s, y, act) == Some(s') && !s'.fault
    ensures Doomed(c, s', x)
  {
    JobMoveShape(c, s, y, act, s');
  }

  lemma StageMoveStaysDoomed(c: Config, s: State, w: Which, act: StageAct, s': State, x: Source)
    requires Doomed(c, s, x) && StageNext(c, s, w, act) == Some(s')
    ensures Doomed(c, s', x)
  {
    StageStepFacts(w, GetStage(s, w), act);
    if w == Writer {
      assert act == Settle;
    }
  }

  lemma MainMoveStaysDoomed(c: Config, s: State, pick: Ref, s': State, x: Source)
    requires InvMain(s) && InvJobs(c, s) && Doomed(c, s, x) && MainNext(c, s, pick) == Some(s')
    ensures Doomed(c, s', x)
  {
    assert s.main.Rank() >= 5;
    if s.main.SubmitPath? && s.main.next < |c.content| { assert Path(s.main.next) !in s.jobs; }
    if s.main.SubmitReleases? && pick in s.main.todo { assert Release(pick) !in s.jobs; }
  }

  lemma NextStaysDoomed(c: Config, s: State, e: Event, s': State, x: Source)
    requires InvMain(s) && InvJobs(c, s) && !s'.fault && Doomed(c, s, x) && Next(c, s, e) == Some(s')
    ensures Doomed(c, s', x)
  {
    match e
    case MainMove(pick) => MainMoveStaysDoomed(c, s, pick, s', x);
    case JobMove(y, act) => JobMoveStaysDoomed(c, s, y, act, s', x);
    case StageMove(w, act) => StageMoveStaysDoomed(c, s, w, act, s', x);
    case CollectorExit =>
  }

  lemma DoomedIsNotDone(c: Config, run: nat -> State, i: nat, x: Source)
    requires Execution(c, run) && Doomed(c, run(i), x)
    ensures !run(i).main.Done?
  {
    ExecutionKeepsInv(c, run, i);
  }

  /** A run that is blocked by a panicked writer never completes. */
  lemma {:induction false} DoomedForever(c: Config, run: nat -> State, i: nat, j: nat, x: Source)
    requires Execution(c, run) && i <= j && Doomed(c, run(i), x)
    ensures Doomed(c, run(j), x) && !run(j).main.Done?
    decreases j
  {
    if i < j {
      DoomedForever(c, run, i, j - 1, x);
      DoomedStep(c, run, j - 1, x);
    }
    DoomedIsNotDone(c, run, j, x);
  }

  lemma DoomedStep(c: Config, run: nat -> State, i: nat, x: Source)
    requires Execution(c, run) && Doomed(c, run(i), x)
    ensures Doomed(c, run(i + 1), x)
  {
    assert Moves(c, run, i);
    if Step(c, run(i), run(i + 1)) {
      ExecutionKeepsInv(c, run, i);
      ExecutionKeepsInv(c, run, i + 1);
      var e :| Next(c, run(i), e) == Some(run(i + 1));
      NextStaysDoomed(c, run(i), e, run(i + 1), x);
    }
  }

  /** Termination, exactly: a run completes if and only if no task is ever doomed by a panic of the writer. */
  lemma CompletesIffNeverDoomed(c: Config, run: nat -> State)
    requires Execution(c, run)
    ensures (exists n: nat :: run(n).main.Done?) <==> forall k: nat :: NotDoomed(c, run(k))
  {
    if forall k: nat :: NotDoomed(c, run(k)) {
      var n := ReachesDone(c, run, 0);
    }
    if n: nat :| run(n).main.Done? {
      forall k: nat ensures NotDoomed(c, run(k)) {
        if x :| Doomed(c, run(k), x) {
          DoomedForever(c, run, k, if n >= k then n else k, x);
          StaysDone(c, run, n, if n >= k then n else k);
        }
      }
    }
  }

  lemma {:induction false} StaysDone(c: Config, run: nat -> State, n: nat, k: nat)
    requires Execution(c, run) && run(n).main.Done? && n <= k
    ensures run(k).main.Done?
    decreases k
  {
    if n < k {
      StaysDone(c, run, n, k - 1);
      assert Moves(c, run, k - 1);
      if Step(c, run(k - 1), run(k)) {
        var e :| Next(c, run(k - 1), e) == Some(run(k));
        DoneStays(c, run(k - 1), e, run(k));
      }
    }
  }

  lemma DoneStays(c: Config, s: State, e: Event, s': State)
    requires s.main.Done? && Next(c, s, e) == Some(s')
    ensures s'.main.Done?
  {
    match e
    case MainMove(_) =>
    case JobMove(x, act) => JobLeaves(c, s, x, act);
    case StageMove(w, act) => StageLeaves(c, s, w, act);
    case CollectorExit =>
  }

  /** In particular a run in which the writer never panics completes; panics of all other tasks are allowed. */
  lemma EveryExecutionCompletes(c: Config, run: nat -> State)
    requires Execution(c, run)
    requires forall k: nat :: !run(k).writer.phase.Died()
    ensures exists n: nat :: run(n).main.Done?
  {
    forall k: nat ensures NotDoomed(c, run(k)) {
      assert !run(k).writer.phase.Died();
    }
    CompletesIffNeverDoomed(c, run);
  }
}
