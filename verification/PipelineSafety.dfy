/** The inductive invariant of the run pipeline and what it says about every run. */
module PipelineSafety {
  import opened Helpers
  import opened Wrappers
  import opened ResourceIndex
  import opened Pipeline

  /** What main's position says about the channels, the pools and the forwarders. */
  ghost predicate InvMain(s: State) {
    var r := s.main.Rank();
    && !s.fault
    && (s.writer.phase.Unsubmitted? <==> r == 12)
    && (s.indexer.phase.Unsubmitted? <==> r >= 10)
    && (s.indexer.closed <==> r < 8)
    && (s.writer.closed <==> r < 4)
    && (s.errsClosed <==> r == 0)
    && (!s.errsClosed ==> s.collecting)
    && (r < 9 ==> PathJobsDone(s))
    && (r < 7 ==> s.indexer.phase.TaskDone())
    && (r < 5 ==> JobsDone(s))
    && (r < 3 ==> s.writer.phase.TaskDone())
    && (r < 2 ==> ForwardersDone(s))
  }

  function Submitted(c: Config, m: Main): nat {
    match m
    case SubmitWriter => 0
    case SubmitPath(i) => i
    case _ => |c.content|
  }

  function Todo(m: Main): set<Ref> {
    if m.SubmitReleases? then m.todo else {}
  }

  /** One task for each path submitted so far, and one for each indexed release that is no longer to do. */
  ghost predicate InvJobs(c: Config, s: State) {
    && (s.main.SubmitPath? ==> s.main.next <= |c.content|)
    && (forall i: nat :: Path(i) in s.jobs <==> i < Submitted(c, s.main))
    && (forall r :: Release(r) in s.jobs <==> s.main.Rank() <= 6 && r in Releases(s.index.entries.Keys) && r !in Todo(s.main))
    && Todo(s.main) <= Releases(s.index.entries.Keys)
    && (forall x :: x in s.jobs && s.jobs[x].Offering? ==> x.Path?)
  }

  /** Each manifest that was sent to a stage is in exactly one place of it, and nothing else is. */
  ghost predicate InvFlow(s: State, w: Which) {
    && (forall x :: GetStage(s, w).Count(x) == SentBit(s, w, x))
    && Drained(GetStage(s, w))
  }

  function SentBit(s: State, w: Which, x: Source): nat {
    Bit(x in s.jobs && Sent(x, s.jobs[x], w))
  }

  /** A task that left its loop did so on a closed and empty channel. */
  predicate Drained(st: Stage) {
    st.phase == Finished || st.phase == Settled ==> st.queue == [] && st.closed
  }

  /** How often report `r` was sent, judging by its sender. */
  function Delivered(s: State, r: Report): nat {
    match r
    case BuildFailed(x) => Bit(x in s.jobs && Failure(s.jobs[x]))
    case BuildPanicked(x) => Bit(x in s.jobs && s.jobs[x].Forwarded?)
    case NotHandled(w, x) => GetStage(s, w).rejected[x]
    case StagePanicked(w) => Bit(GetStage(s, w).phase.Forwarded())
  }

  ghost predicate InvReports(s: State) {
    forall r :: s.collected[r] == Delivered(s, r)
  }

  /** The entries after these paths were pushed in this order. */
  function EntriesOf(c: Config, pushes: seq<Source>): Entries {
    if pushes == [] then map[] else EntriesOf(c, pushes[..|pushes|-1]) + Pushed(Contents(c, pushes[|pushes|-1]))
  }

  /** What the item that the indexer panicked on has left in the index. */
  ghost predicate LeftBehind(c: Config, p: LoopPhase, before: Entries, after: Entries) {
    if p.Died() then exists n :: after == before + Pushed(Prefix(Contents(c, p.item), n)) else after == before
  }

  /** The index holds what was pushed, in the order in which it was pushed, each path once. */
  ghost predicate InvIndex(c: Config, s: State) {
    && (forall x :: multiset(s.index.pushes)[x] == s.indexer.Absorbed(x))
    && LeftBehind(c, s.indexer.phase, EntriesOf(c, s.index.pushes), s.index.entries)
  }

  ghost predicate Inv(c: Config, s: State) {
    && InvMain(s)
    && InvJobs(c, s)
    && InvFlow(s, Writer)
    && InvFlow(s, Indexer)
    && InvReports(s)
    && InvIndex(c, s)
  }

  // ----- what the steps of tasks and stages leave alone -----

  lemma JobLeaves(c: Config, s: State, x: Source, act: JobAct)
    requires x in s.jobs && JobNext(c, s, x, act).Some?
    ensures var s' := JobNext(c, s, x, act).value; s'.index == s.index && s'.main == s.main
  {
  }

  lemma StageLeaves(c: Config, s: State, w: Which, act: StageAct)
    requires StageNext(c, s, w, act).Some?
    ensures var s' := StageNext(c, s, w, act).value;
      s'.main == s.main && s'.index == if w == Indexer then IndexAfter(c, s, act) else s.index
  {
  }

  // ----- one step of a task, as the change it makes to each part of the invariant -----

  /** Tasks only move forward and main stays where it is. */
  ghost predicate Onward(s: State, s': State) {
    && s'.main == s.main && s'.fault == s.fault && s'.errsClosed == s.errsClosed && s'.collecting == s.collecting
    && s'.jobs.Keys == s.jobs.Keys
    && (forall x :: x in s.jobs ==> JobOnward(x, s.jobs[x], s'.jobs[x]))
    && StageOnward(s.writer, s'.writer) && StageOnward(s.indexer, s'.indexer)
    && (s'.index == s.index || !s.indexer.phase.TaskDone())
  }

  predicate JobOnward(x: Source, p: JobPhase, p': JobPhase) {
    && (p.TaskDone() ==> p'.TaskDone())
    && (p.ForwarderDone() ==> p'.ForwarderDone())
    && (p'.Offering? ==> p.Offering? || x.Path?)
  }

  predicate StageOnward(st: Stage, st': Stage) {
    && st'.closed == st.closed
    && (st.phase.Unsubmitted? <==> st'.phase.Unsubmitted?)
    && (st.phase.TaskDone() ==> st'.phase.TaskDone())
    && (st.phase.ForwarderDone() ==> st'.phase.ForwarderDone())
    && (Drained(st) ==> Drained(st'))
  }

  /** What a stage holds of each source grows exactly by what is sent to it. */
  ghost predicate FlowDelta(s: State, s': State, w: Which) {
    forall x :: GetStage(s', w).Count(x) + SentBit(s, w, x) == GetStage(s, w).Count(x) + SentBit(s', w, x)
  }

  ghost predicate ReportDelta(s: State, s': State) {
    forall r :: s'.collected[r] + Delivered(s, r) == s.collected[r] + Delivered(s', r)
  }

  /** The index stays, or the whole of path `y` is pushed, or a panic interrupts this. */
  ghost predicate IndexDelta(c: Config, s: State, s': State) {
    || IndexStays(s, s')
    || (exists y :: IndexGrows(c, s, s', y))
    || IndexBreaks(c, s, s')
  }

  ghost predicate IndexStays(s: State, s': State) {
    && s'.index == s.index && (forall x :: s'.indexer.Absorbed(x) == s.indexer.Absorbed(x))
    && s'.indexer.phase.Died() == s.indexer.phase.Died()
    && (s.indexer.phase.Died() ==> s'.indexer.phase.item == s.indexer.phase.item)
  }

  ghost predicate IndexGrows(c: Config, s: State, s': State, y: Source) {
    && !s.indexer.phase.Died() && !s'.indexer.phase.Died()
    && s'.index == IndexState(s.index.entries + Pushed(Contents(c, y)), s.index.pushes + [y])
    && forall x :: s'.indexer.Absorbed(x) == s.indexer.Absorbed(x) + Bit(x == y)
  }

  ghost predicate IndexBreaks(c: Config, s: State, s': State) {
    && !s.indexer.phase.Died() && s'.indexer.phase.Died()
    && s'.index.pushes == s.index.pushes && (forall x :: s'.indexer.Absorbed(x) == s.indexer.Absorbed(x))
    && exists n :: s'.index.entries == s.index.entries + Pushed(Prefix(Contents(c, s'.indexer.phase.item), n))
  }

  ghost predicate Delta(c: Config, s: State, s': State) {
    && Onward(s, s')
    && FlowDelta(s, s', Writer) && FlowDelta(s, s', Indexer)
    && ReportDelta(s, s')
    && IndexDelta(c, s, s')
  }

  lemma DeltaKeepsIndex(c: Config, s: State, s': State)
    requires InvIndex(c, s) && IndexDelta(c, s, s')
    ensures InvIndex(c, s')
  {
    if y :| IndexGrows(c, s, s', y) {
      assert s'.index.pushes[..|s.index.pushes|] == s.index.pushes;
    }
  }

  lemma DeltaKeepsInv(c: Config, s: State, s': State)
    requires Inv(c, s) && Delta(c, s, s')
    ensures Inv(c, s')
  {
    DeltaKeepsIndex(c, s, s');
  }

  // ----- what one goroutine's own step does, apart from the rest of the state -----

  lemma JobStepFacts(x: Source, p: JobPhase, act: JobAct)
    requires JobStep(x, p, act).Some? && (p.Offering? ==> x.Path?)
    ensures var (p', effect) := JobStep(x, p, act).value;
      && JobOnward(x, p, p')
      && (forall w :: Sent(x, p', w) == (Sent(x, p, w) || effect == Emit(w) || (effect == PassOn && w == Writer)))
      && (forall w :: effect == Emit(w) || (effect == PassOn && w == Writer) ==> !Sent(x, p, w))
      && (Failure(p') == (Failure(p) || effect == Raise(BuildFailed(x))))
      && (p'.Forwarded? == (p.Forwarded? || effect == Raise(BuildPanicked(x))))
      && (effect == Raise(BuildFailed(x)) ==> !Failure(p))
      && (effect == Raise(BuildPanicked(x)) ==> !p.Forwarded?)
      && (effect.Raise? ==> effect.report == BuildFailed(x) || effect.report == BuildPanicked(x))
      && (!effect.Silent? ==> !p.ForwarderDone())
      && (effect.Emit? || effect.PassOn? ==> !p.TaskDone())
  {
  }

  lemma StageStepFacts(w: Which, st: Stage, act: StageAct)
    requires StageStep(w, st, act).Some?
    ensures var (st', report) := StageStep(w, st, act).value;
      && StageOnward(st, st')
      && (forall x :: st'.rejected[x] == st.rejected[x] + Bit(report == Some(NotHandled(w, x))))
      && Bit(st'.phase.Forwarded()) == Bit(st.phase.Forwarded()) + Bit(report == Some(StagePanicked(w)))
      && (report.Some? ==> (report.value.NotHandled? || report.value.StagePanicked?) && report.value.which == w)
      && (report.Some? ==> !st.phase.ForwarderDone())
  {
  }

  lemma ReceiveCounts(w: Which, st: Stage, x: Source)
    requires StageStep(w, st, Receive).Some?
    ensures StageStep(w, st, Receive).value.0.Count(x) == st.Count(x)
  {
    assert st.queue == [st.queue[0]] + st.queue[1..];
  }

  lemma HandleCounts(w: Which, st: Stage, act: StageAct, x: Source)
    requires act == Handle || act == Complain
    requires StageStep(w, st, act).Some?
    ensures StageStep(w, st, act).value.0.Count(x) == st.Count(x)
  {
  }

  lemma OtherCounts(w: Which, st: Stage, act: StageAct, x: Source)
    requires act != Receive && act != Handle && act != Complain
    requires StageStep(w, st, act).Some?
    ensures StageStep(w, st, act).value.0.Count(x) == st.Count(x)
  {
  }

  lemma StageStepCounts(w: Which, st: Stage, act: StageAct, x: Source)
    requires StageStep(w, st, act).Some?
    ensures StageStep(w, st, act).value.0.Count(x) == st.Count(x)
  {
    if act == Receive { ReceiveCounts(w, st, x); }
    else if act == Handle || act == Complain { HandleCounts(w, st, act, x); }
    else { OtherCounts(w, st, act, x); }
  }

  // ----- a step in the whole state -----

  /** The collector has received `r`, if anything, and no other goroutine than a task has moved. */
  ghost predicate Received(s: State, r: Option<Report>, s': State) {
    && s'.main == s.main && s'.fault == s.fault && s'.errsClosed == s.errsClosed && s'.collecting == s.collecting
    && s'.collected == (if r.None? then s.collected else OneMore(s.collected, r.value))
  }

  ghost predicate StageSet(s: State, w: Which, st: Stage, s': State) {
    && GetStage(s', w) == st
    && (forall v :: v != w ==> GetStage(s', v) == GetStage(s, v))
  }

  /** The task of `x` moves to `p`, stage `w` becomes `st`, and `r` is reported. */
  ghost predicate JobMoved(s: State, x: Source, p: JobPhase, w: Which, st: Stage, r: Option<Report>, s': State) {
    && x in s.jobs && s'.jobs == s.jobs[x := p]
    && s'.index == s.index
    && StageSet(s, w, st, s')
    && Received(s, r, s')
  }

  /** Stage `w` becomes `st`, the index may grow, and `r` is reported. */
  ghost predicate StageMoved(s: State, w: Which, st: Stage, r: Option<Report>, s': State) {
    && s'.jobs == s.jobs
    && StageSet(s, w, st, s')
    && Received(s, r, s')
  }

  lemma JobMovedOnward(c: Config, s: State, x: Source, p: JobPhase, w: Which, st: Stage, r: Option<Report>, s': State)
    requires JobMoved(s, x, p, w, st, r, s')
    requires JobOnward(x, s.jobs[x], p) && StageOnward(GetStage(s, w), st)
    requires st.phase.Died() == GetStage(s, w).phase.Died()
    requires st.phase.Died() ==> st.phase.item == GetStage(s, w).phase.item
    requires forall y :: st.Absorbed(y) == GetStage(s, w).Absorbed(y)
    ensures Onward(s, s') && IndexDelta(c, s, s')
  {
    assert GetStage(s, Writer) == s.writer && GetStage(s, Indexer) == s.indexer;
    assert GetStage(s', Writer) == s'.writer && GetStage(s', Indexer) == s'.indexer;
  }

  lemma JobMovedFlow(s: State, x: Source, p: JobPhase, w: Which, st: Stage, r: Option<Report>, s': State, v: Which)
    requires JobMoved(s, x, p, w, st, r, s')
    requires forall y :: y != x ==> st.Count(y) == GetStage(s, w).Count(y)
    requires st.Count(x) + Bit(Sent(x, s.jobs[x], w)) == GetStage(s, w).Count(x) + Bit(Sent(x, p, w))
    requires v != w ==> Sent(x, p, v) == Sent(x, s.jobs[x], v)
    ensures FlowDelta(s, s', v)
  {
  }

  lemma JobMovedReports(s: State, x: Source, p: JobPhase, w: Which, st: Stage, r: Option<Report>, s': State)
    requires JobMoved(s, x, p, w, st, r, s')
    requires st.rejected == GetStage(s, w).rejected && st.phase.Forwarded() == GetStage(s, w).phase.Forwarded()
    requires Bit(Failure(p)) == Bit(Failure(s.jobs[x])) + Bit(r == Some(BuildFailed(x)))
    requires Bit(p.Forwarded?) == Bit(s.jobs[x].Forwarded?) + Bit(r == Some(BuildPanicked(x)))
    requires r.None? || r.value == BuildFailed(x) || r.value == BuildPanicked(x)
    ensures ReportDelta(s, s')
  {
  }

  lemma StageMovedOnward(s: State, w: Which, st: Stage, r: Option<Report>, s': State)
    requires StageMoved(s, w, st, r, s')
    requires StageOnward(GetStage(s, w), st)
    requires s'.index == s.index || !s.indexer.phase.TaskDone()
    ensures Onward(s, s')
  {
    assert GetStage(s, Writer) == s.writer && GetStage(s, Indexer) == s.indexer;
    assert GetStage(s', Writer) == s'.writer && GetStage(s', Indexer) == s'.indexer;
  }

  lemma StageMovedFlow(s: State, w: Which, st: Stage, r: Option<Report>, s': State, v: Which)
    requires StageMoved(s, w, st, r, s')
    requires forall x :: st.Count(x) == GetStage(s, w).Count(x)
    ensures FlowDelta(s, s', v)
  {
  }

  lemma StageMovedReport(s: State, w: Which, st: Stage, r: Option<Report>, s': State, q: Report)
    requires StageMoved(s, w, st, r, s')
    requires forall x :: st.rejected[x] == GetStage(s, w).rejected[x] + Bit(r == Some(NotHandled(w, x)))
    requires Bit(st.phase.Forwarded()) == Bit(GetStage(s, w).phase.Forwarded()) + Bit(r == Some(StagePanicked(w)))
    requires r.Some? ==> (r.value.NotHandled? || r.value.StagePanicked?) && r.value.which == w
    ensures s'.collected[q] + Delivered(s, q) == s.collected[q] + Delivered(s', q)
  {
  }

  lemma StageMovedIndex(c: Config, s: State, w: Which, act: StageAct, s': State)
    requires StageNext(c, s, w, act) == Some(s') && !s'.fault
    ensures IndexDelta(c, s, s')
  {
    if w == Indexer {
      IndexerStep(s.indexer, act);
      if act == Handle || act == FailHandle {
        assert IndexGrows(c, s, s', s.indexer.phase.item);
      } else if act.Explode? {
        assert IndexBreaks(c, s, s') by {
          assert s'.index.entries == s.index.entries + Pushed(Prefix(Contents(c, s.indexer.phase.item), act.progress));
        }
      } else {
        assert IndexStays(s, s');
      }
    } else {
      assert IndexStays(s, s');
    }
  }

  lemma IndexerStep(st: Stage, act: StageAct)
    requires StageStep(Indexer, st, act).Some?
    ensures var st' := StageStep(Indexer, st, act).value.0;
      if act == Handle || act == FailHandle then
        st.phase.Is(Handling) && !st'.phase.Died() && forall x :: st'.Absorbed(x) == st.Absorbed(x) + Bit(x == st.phase.item)
      else
        && (forall x :: st'.Absorbed(x) == st.Absorbed(x))
        && (act.Explode? <==> st'.phase.Died() && !st.phase.Died())
        && (act.Explode? ==> st.phase.Is(Handling) && st'.phase.item == st.phase.item)
        && (st.phase.Died() ==> st'.phase.Died() && st'.phase.item == st.phase.item)
  {
  }

  // ----- every step keeps the invariant -----

  lemma ReportReceived(s: State, r: Report, s': State)
    requires SendErr(s, r) == Some(s') && !s'.fault && !s.fault
    ensures Received(s, Some(r), s') && s'.jobs == s.jobs && s'.index == s.index
    ensures s'.writer == s.writer && s'.indexer == s.indexer
  {
  }

  lemma IndexMoves(c: Config, s: State, act: StageAct)
    ensures IndexAfter(c, s, act) == s.index || !s.indexer.phase.TaskDone()
  {
  }

  lemma StageShape(c: Config, s: State, w: Which, act: StageAct, s': State)
    requires StageNext(c, s, w, act) == Some(s') && !s'.fault && !s.fault
    ensures StageStep(w, GetStage(s, w), act).Some?
    ensures var (st, r) := StageStep(w, GetStage(s, w), act).value; StageMoved(s, w, st, r, s')
    ensures s'.index == s.index || !s.indexer.phase.TaskDone()
  {
    var (st, r) := StageStep(w, GetStage(s, w), act).value;
    IndexMoves(c, s, act);
    if r.Some? {
      ReportReceived(s, r.value, SendErr(s, r.value).value);
    }
  }

  lemma StageFlows(s: State, w: Which, act: StageAct, s': State)
    requires StageStep(w, GetStage(s, w), act).Some?
    requires var (st, r) := StageStep(w, GetStage(s, w), act).value; StageMoved(s, w, st, r, s')
    ensures FlowDelta(s, s', Writer) && FlowDelta(s, s', Indexer)
  {
    var (st, r) := StageStep(w, GetStage(s, w), act).value;
    forall x ensures st.Count(x) == GetStage(s, w).Count(x) { StageStepCounts(w, GetStage(s, w), act, x); }
    StageMovedFlow(s, w, st, r, s', Writer);
    StageMovedFlow(s, w, st, r, s', Indexer);
  }

  lemma StageReports(s: State, w: Which, act: StageAct, s': State)
    requires StageStep(w, GetStage(s, w), act).Some?
    requires var (st, r) := StageStep(w, GetStage(s, w), act).value; StageMoved(s, w, st, r, s')
    ensures ReportDelta(s, s')
  {
    var (st, r) := StageStep(w, GetStage(s, w), act).value;
    StageStepFacts(w, GetStage(s, w), act);
    forall q ensures s'.collected[q] + Delivered(s, q) == s.collected[q] + Delivered(s', q) {
      StageMovedReport(s, w, st, r, s', q);
    }
  }

  lemma StageDelta(c: Config, s: State, w: Which, act: StageAct, s': State)
    requires StageNext(c, s, w, act) == Some(s') && !s'.fault && !s.fault
    ensures Delta(c, s, s')
  {
    StageShape(c, s, w, act, s');
    var (st, r) := StageStep(w, GetStage(s, w), act).value;
    StageStepFacts(w, GetStage(s, w), act);
    StageMovedOnward(s, w, st, r, s');
    StageFlows(s, w, act, s');
    StageReports(s, w, act, s');
    StageMovedIndex(c, s, w, act, s');
  }

  /** A send changes the stage it goes to only by the one item. */
  lemma SendFacts(st: Stage, x: Source, capacity: nat, st': Stage)
    requires !st.closed && (Enqueue(st, x, capacity) == Some(st') || PassTo(st, x, capacity) == Some(st'))
    ensures StageOnward(st, st')
    ensures st'.phase.Died() == st.phase.Died() && st'.phase.Forwarded() == st.phase.Forwarded()
    ensures st.phase.Died() ==> st'.phase.item == st.phase.item
    ensures st'.rejected == st.rejected
    ensures forall y :: st'.Absorbed(y) == st.Absorbed(y)
    ensures forall y :: st'.Count(y) == st.Count(y) + Bit(y == x)
  {
  }

  lemma JobMovedDelta(c: Config, s: State, x: Source, act: JobAct, w: Which, r: Option<Report>, s': State)
    requires x in s.jobs && JobStep(x, s.jobs[x], act).Some? && (s.jobs[x].Offering? ==> x.Path?)
    requires var (p, effect) := JobStep(x, s.jobs[x], act).value;
      && JobMoved(s, x, p, w, GetStage(s', w), r, s')
      && r == (if effect.Raise? then Some(effect.report) else None)
      && (if effect == Emit(w) || (effect == PassOn && w == Writer)
          then !GetStage(s, w).closed && exists n ::
            || Enqueue(GetStage(s, w), x, n) == Some(GetStage(s', w))
            || PassTo(GetStage(s, w), x, n) == Some(GetStage(s', w))
          else !effect.Emit? && !effect.PassOn? && GetStage(s', w) == GetStage(s, w))
    ensures Delta(c, s, s')
  {
    var (p, effect) := JobStep(x, s.jobs[x], act).value;
    JobStepFacts(x, s.jobs[x], act);
    var st0, st := GetStage(s, w), GetStage(s', w);
    if effect.Emit? || effect.PassOn? {
      var n :| Enqueue(st0, x, n) == Some(st) || PassTo(st0, x, n) == Some(st);
      SendFacts(st0, x, n, st);
    }
    JobMovedOnward(c, s, x, p, w, st, r, s');
    JobMovedFlow(s, x, p, w, st, r, s', Writer);
    JobMovedFlow(s, x, p, w, st, r, s', Indexer);
    JobMovedReports(s, x, p, w, st, r, s');
  }

  lemma JobDelta(c: Config, s: State, x: Source, act: JobAct, s': State)
    requires x in s.jobs && JobNext(c, s, x, act) == Some(s') && !s'.fault && !s.fault
    requires s.jobs[x].Offering? ==> x.Path?
    ensures Delta(c, s, s')
  {
    var (p, effect) := JobStep(x, s.jobs[x], act).value;
    var w := if effect.Emit? then effect.which else Writer;
    var r := if effect.Raise? then Some(effect.report) else None;
    var n := Capacity(c, w);
    assert effect.Emit? ==> Enqueue(GetStage(s, w), x, n) == Some(GetStage(s', w));
    assert effect.PassOn? ==> PassTo(GetStage(s, w), x, n) == Some(GetStage(s', w));
    assert JobMoved(s, x, p, w, GetStage(s', w), r, s');
    JobMovedDelta(c, s, x, act, w, r, s');
  }

  // ----- main -----

  /** Main submits tasks and closes channels; it moves no item. */
  ghost predicate MainMoved(s: State, s': State) {
    && s'.collected == s.collected && s'.index == s.index
    && (s'.jobs == s.jobs || exists x :: x !in s.jobs && s'.jobs == s.jobs[x := Queued])
    && StageUntouched(s.writer, s'.writer) && StageUntouched(s.indexer, s'.indexer)
  }

  predicate StageUntouched(st: Stage, st': Stage) {
    && st'.queue == st.queue && st'.handled == st.handled && st'.rejected == st.rejected
    && (st'.phase == st.phase || (st.phase.Unsubmitted? && st'.phase.Waiting?))
    && (st.closed ==> st'.closed)
  }

  lemma MainMovesNothing(c: Config, s: State, pick: Ref, s': State)
    requires InvMain(s) && InvJobs(c, s) && MainNext(c, s, pick) == Some(s')
    ensures MainMoved(s, s')
  {
  }

  /** The two loops of main, each of which submits one task per round. */
  predicate Submitting(m: Main) {
    m.SubmitPath? || m.SubmitReleases?
  }

  lemma SubmitKeepsMain(c: Config, s: State, pick: Ref, s': State)
    requires InvMain(s) && InvJobs(c, s) && MainNext(c, s, pick) == Some(s') && Submitting(s.main)
    ensures InvMain(s')
  {
  }

  lemma OtherKeepsMain(c: Config, s: State, pick: Ref, s': State)
    requires InvMain(s) && InvJobs(c, s) && MainNext(c, s, pick) == Some(s') && !Submitting(s.main)
    ensures InvMain(s')
  {
  }

  lemma SubmitKeepsJobs(c: Config, s: State, pick: Ref, s': State)
    requires InvMain(s) && InvJobs(c, s) && MainNext(c, s, pick) == Some(s') && Submitting(s.main)
    ensures InvJobs(c, s')
  {
  }

  /** Outside the two loops main leaves the tasks and the index alone. */
  lemma OtherMain(c: Config, s: State, pick: Ref, s': State)
    requires MainNext(c, s, pick) == Some(s') && !Submitting(s.main)
    ensures s'.jobs == s.jobs && s'.index == s.index && Submitted(c, s'.main) == Submitted(c, s.main)
    ensures s'.main.SubmitPath? ==> s'.main.next == 0
    ensures s'.main.SubmitReleases? ==> s.main.Rank() == 7 && s'.main.todo == Releases(s.index.entries.Keys)
    ensures !s'.main.SubmitReleases? ==> (s'.main.Rank() <= 6 <==> s.main.Rank() <= 6)
  {
  }

  lemma OtherKeepsJobs(c: Config, s: State, pick: Ref, s': State)
    requires InvJobs(c, s) && MainNext(c, s, pick) == Some(s') && !Submitting(s.main)
    ensures InvJobs(c, s')
  {
    OtherMain(c, s, pick, s');
  }

  lemma MainKeepsControl(c: Config, s: State, pick: Ref, s': State)
    requires InvMain(s) && InvJobs(c, s) && MainNext(c, s, pick) == Some(s')
    ensures InvMain(s') && InvJobs(c, s')
  {
    if Submitting(s.main) {
      SubmitKeepsMain(c, s, pick, s');
      SubmitKeepsJobs(c, s, pick, s');
    } else {
      OtherKeepsMain(c, s, pick, s');
      OtherKeepsJobs(c, s, pick, s');
    }
  }

  lemma MainKeepsFlow(s: State, s': State, w: Which)
    requires InvFlow(s, w) && MainMoved(s, s')
    ensures InvFlow(s', w)
  {
    if s'.jobs != s.jobs {
      var y :| y !in s.jobs && s'.jobs == s.jobs[y := Queued];
      assert SentBit(s', w, y) == SentBit(s, w, y) == 0;
    }
    forall x ensures GetStage(s', w).Count(x) == SentBit(s', w, x) {
      assert GetStage(s', w).Count(x) == GetStage(s, w).Count(x) == SentBit(s, w, x);
    }
  }

  lemma MainKeepsReports(s: State, s': State)
    requires InvReports(s) && MainMoved(s, s')
    ensures InvReports(s')
  {
  }

  lemma MainKeepsIndex(c: Config, s: State, s': State)
    requires InvIndex(c, s) && MainMoved(s, s')
    ensures InvIndex(c, s')
  {
  }

  // ----- every step keeps the invariant -----

  lemma JobNoFault(c: Config, s: State, x: Source, act: JobAct, s': State)
    requires InvMain(s) && InvJobs(c, s) && x in s.jobs && JobNext(c, s, x, act) == Some(s')
    ensures !s'.fault
  {
  }

  lemma StageNoFault(c: Config, s: State, w: Which, act: StageAct, s': State)
    requires InvMain(s) && StageNext(c, s, w, act) == Some(s')
    ensures !s'.fault
  {
    StageStepFacts(w, GetStage(s, w), act);
  }

  lemma InitInv(c: Config)
    ensures Inv(c, Init)
  {
  }

  lemma NextKeepsInv(c: Config, s: State, e: Event, s': State)
    requires Inv(c, s) && Next(c, s, e) == Some(s')
    ensures Inv(c, s')
  {
    match e
    case MainMove(pick) =>
      MainKeepsControl(c, s, pick, s');
      MainMovesNothing(c, s, pick, s');
      MainKeepsFlow(s, s', Writer);
      MainKeepsFlow(s, s', Indexer);
      MainKeepsReports(s, s');
      MainKeepsIndex(c, s, s');
    case JobMove(x, act) =>
      JobNoFault(c, s, x, act, s');
      JobDelta(c, s, x, act, s');
      DeltaKeepsInv(c, s, s');
    case StageMove(w, act) =>
      StageNoFault(c, s, w, act, s');
      StageDelta(c, s, w, act, s');
      DeltaKeepsInv(c, s, s');
    case CollectorExit =>
  }

  /** Every state of every run satisfies the invariant. */
  lemma {:induction false} RunKeepsInv(c: Config, run: seq<State>, i: nat)
    requires Run(c, run) && i < |run|
    ensures Inv(c, run[i])
  {
    if i == 0 {
      InitInv(c);
    } else {
      RunKeepsInv(c, run, i - 1);
      assert Step(c, run[i-1], run[i]);
      var e :| Next(c, run[i-1], e) == Some(run[i]);
      NextKeepsInv(c, run[i-1], e, run[i]);
    }
  }
}
