/**
 When a panic of the writer can block a run for good. It takes a full `manifests` channel and one more task, so
 paths and HelmReleases together must outnumber the workers by two; and then there is such a run.
 */
module PipelineBlocking {
  import opened Helpers
  import opened Wrappers
  import opened ResourceIndex
  import opened Pipeline
  import opened PipelineSafety
  import opened PipelineProgress

  /** The keys that the first `k` paths put in the index. */
  function Keys(c: Config, k: nat): set<Ref>
    requires k <= |c.content|
  {
    if k == 0 then {} else Keys(c, k - 1) + Readable(c.content[k-1])
  }

  /** Some resource has this key, and it and all before it are readable. */
  predicate IsReadable(rs: seq<Option<Resource>>, r: Ref) {
    exists k | 0 <= k < |rs| :: AllReadable(rs[..k+1]) && rs[k].Some? && rs[k].value.key == r
  }

  lemma ReadableIff(rs: seq<Option<Resource>>, r: Ref)
    ensures r in Readable(rs) <==> IsReadable(rs, r)
  {
    if r in Readable(rs) {
      var k := ReadableAt(rs, r);
      assert rs[..k+1][k] == rs[k];
    }
    if k :| 0 <= k < |rs| && AllReadable(rs[..k+1]) && rs[k].Some? && rs[k].value.key == r {
      ReadableIn(rs, k);
    }
  }

  lemma {:induction false} KeysAre(c: Config, k: nat)
    requires k <= |c.content|
    ensures forall r :: r in Keys(c, k) <==> exists i :: 0 <= i < k && IsReadable(c.content[i], r)
  {
    if k > 0 {
      KeysAre(c, k - 1);
      forall r ensures r in Keys(c, k) <==> exists i :: 0 <= i < k && IsReadable(c.content[i], r) {
        ReadableIff(c.content[k-1], r);
        if i :| 0 <= i < k && IsReadable(c.content[i], r) {
          assert i < k - 1 || i == k - 1;
        }
      }
    }
  }

  /** Every HelmRelease that the paths contain, before the first unreadable resource of each. */
  function AllReleases(c: Config): set<Ref> {
    Releases(Keys(c, |c.content|))
  }

  lemma AllReleasesAre(c: Config)
    ensures forall r :: r in AllReleases(c) <==>
      r.kind == "HelmRelease" && exists i :: 0 <= i < |c.content| && IsReadable(c.content[i], r)
  {
    KeysAre(c, |c.content|);
  }

  // ----- a doomed state needs many tasks -----

  /** A channel of different manifests, the one that the writer holds, and one more task. */
  lemma ThreePlaces(jobs: set<Source>, queue: seq<Source>, item: Source, x: Source)
    requires forall y :: multiset(queue)[y] + Bit(y == item) <= 1
    requires forall y :: y in queue ==> y in jobs && y != x
    requires item in jobs && x in jobs && item != x
    ensures |jobs| >= |queue| + 2
  {
    forall y ensures multiset(queue)[y] <= 1 {
      assert multiset(queue)[y] + Bit(y == item) <= 1;
    }
    DistinctSize(queue);
    assert multiset(queue)[item] + Bit(item == item) <= 1;
    var queued := set y | y in queue;
    assert item !in queued && x !in queued;
    SubsetSize(queued + {item} + {x}, jobs);
  }

  lemma DoomedNeedsMany(c: Config, s: State, x: Source)
    requires InvFlow(s, Writer) && Doomed(c, s, x)
    ensures |s.jobs.Keys| >= c.workers + 2
  {
    var queue, item := s.writer.queue, s.writer.phase.item;
    forall y ensures multiset(queue)[y] + Bit(y == item) <= 1 && (y in queue || y == item ==> InChannel(s, y)) {
      assert GetStage(s, Writer).Count(y) == SentBit(s, Writer, y);
    }
    assert InChannel(s, item) && !InChannel(s, x);
    ThreePlaces(s.jobs.Keys, queue, item, x);
  }

  /** The manifest of `x` has been sent to the writer. */
  predicate InChannel(s: State, x: Source) {
    x in s.jobs && Sent(x, s.jobs[x], Writer)
  }

  lemma {:induction false} KeysContain(c: Config, k: nat, i: nat)
    requires i < k <= |c.content|
    ensures Readable(c.content[i]) <= Keys(c, k)
    decreases k
  {
    if i < k - 1 {
      KeysContain(c, k - 1, i);
    }
  }

  lemma ContentsContain(c: Config, x: Source)
    ensures Readable(Contents(c, x)) <= Keys(c, |c.content|)
  {
    if x.Path? && x.index < |c.content| {
      KeysContain(c, |c.content|, x.index);
    }
  }

  /** Whatever the indexer does to the index, even panicking in the middle, adds only keys of the paths. */
  lemma IndexAfterWithin(c: Config, s: State, act: StageAct)
    requires s.index.entries.Keys <= Keys(c, |c.content|)
    ensures IndexAfter(c, s, act).entries.Keys <= Keys(c, |c.content|)
  {
    if s.indexer.phase.Is(Handling) {
      var rs := Contents(c, s.indexer.phase.item);
      ContentsContain(c, s.indexer.phase.item);
      if act.Explode? {
        ReadablePrefix(rs, if act.progress < |rs| then act.progress else |rs|);
      }
    }
  }

  lemma IndexStaysWithin(c: Config, s: State, e: Event, s': State)
    requires s.index.entries.Keys <= Keys(c, |c.content|) && Next(c, s, e) == Some(s')
    ensures s'.index.entries.Keys <= Keys(c, |c.content|)
  {
    match e
    case MainMove(_) =>
    case JobMove(x, act) => JobLeaves(c, s, x, act);
    case StageMove(w, act) => IndexAfterWithin(c, s, act); StageLeaves(c, s, w, act);
    case CollectorExit =>
  }

  lemma {:induction false} IndexWithin(c: Config, run: nat -> State, i: nat)
    requires Execution(c, run)
    ensures run(i).index.entries.Keys <= Keys(c, |c.content|)
  {
    if i > 0 {
      IndexWithin(c, run, i - 1);
      assert Moves(c, run, i - 1);
      if Step(c, run(i - 1), run(i)) {
        var e :| Next(c, run(i - 1), e) == Some(run(i));
        IndexStaysWithin(c, run(i - 1), e, run(i));
      }
    }
  }

  lemma {:induction false} ReleaseCount(refs: set<Ref>)
    ensures |set r | r in refs :: Release(r)| == |refs|
    decreases |refs|
  {
    if refs != {} {
      var r :| r in refs;
      ReleaseCount(refs - {r});
      assert (set q | q in refs :: Release(q)) == (set q | q in refs - {r} :: Release(q)) + {Release(r)};
    }
  }

  lemma JobsAreFew(c: Config, s: State)
    requires InvJobs(c, s) && s.index.entries.Keys <= Keys(c, |c.content|)
    ensures |s.jobs.Keys| <= |c.content| + |AllReleases(c)|
  {
    var releases := set r | r in AllReleases(c) :: Release(r);
    var all := PathsBelow(|c.content|) + releases;
    forall x | x in s.jobs ensures x in all {
      assert x.Path? ==> x == Path(x.index);
      assert x.Release? ==> x == Release(x.ref);
    }
    SubsetSize(s.jobs.Keys, all);
    ReleaseCount(AllReleases(c));
  }

  /** With few enough paths and HelmReleases every run completes, whatever panics. */
  lemma FewTasksComplete(c: Config, run: nat -> State)
    requires Execution(c, run) && |c.content| + |AllReleases(c)| <= c.workers + 1
    ensures exists n: nat :: run(n).main.Done?
  {
    forall k: nat ensures NotDoomed(c, run(k)) {
      ExecutionKeepsInv(c, run, k);
      IndexWithin(c, run, k);
      JobsAreFew(c, run(k));
      if x :| Doomed(c, run(k), x) {
        DoomedNeedsMany(c, run(k), x);
      }
    }
    CompletesIffNeverDoomed(c, run);
  }

  // ----- otherwise there is a run that is blocked -----

  const AnyRef := Ref("", "", "", "")

  ghost predicate Running(s: State) {
    !s.fault && !s.errsClosed && s.collecting
  }

  /** The writer after `sent` manifests: it died on the first one, and the others are in the channel. */
  ghost predicate WriterAt(s: State, sent: nat) {
    && !s.writer.closed
    && |s.writer.queue| == (if sent == 0 then 0 else sent - 1)
    && s.writer.phase == if sent == 0 then Receiving else Holding(Path(0), Panicked)
  }

  /** The paths before `k` are done, path `k` is in phase `p`, the later ones are queued. */
  ghost predicate PathsAt(c: Config, s: State, k: nat, p: JobPhase) {
    && s.jobs.Keys == PathsBelow(|c.content|)
    && forall i: nat :: i < |c.content| && Path(i) in s.jobs ==>
         s.jobs[Path(i)] == if i < k then Returned(Succeeded) else if i == k then p else Queued
  }

  /** The first `k` paths, in their order. */
  function FirstPaths(k: nat): seq<Source> {
    seq(k, i requires 0 <= i => Path(i))
  }

  /** Main waits for the path tasks; the indexer has taken what the first `k` paths put in the index. */
  ghost predicate Kustomizing(c: Config, s: State, k: nat, p: JobPhase, sent: nat) {
    && k <= |c.content|
    && Running(s) && s.main == StopKustomize && PathsAt(c, s, k, p) && WriterAt(s, sent)
    && s.indexer.phase == Receiving && s.indexer.queue == [] && !s.indexer.closed
    && s.index.pushes == FirstPaths(k)
  }

  /** Some run ends in this state. */
  ghost predicate Reachable(c: Config, s: State) {
    exists run :: Run(c, run) && run[|run|-1] == s
  }

  lemma InitReachable(c: Config)
    ensures Reachable(c, Init)
  {
    assert Run(c, [Init]);
  }

  lemma Then(c: Config, s: State, e: Event, s': State)
    requires Reachable(c, s) && Next(c, s, e) == Some(s')
    ensures Reachable(c, s')
  {
    var run :| Run(c, run) && run[|run|-1] == s;
    var run' := run + [s'];
    assert Step(c, s, s');
    forall i | 0 < i < |run'| ensures Step(c, run'[i-1], run'[i]) {
      assert i < |run| ==> Step(c, run[i-1], run[i]);
    }
    assert Run(c, run') && run'[|run'|-1] == s';
  }

  /** A set of states that holds the initial one and is left by no step; the proofs below build their run in it. */
  ghost predicate Closed(c: Config, R: State -> bool) {
    R(Init) && forall s, e :: R(s) && Next(c, s, e).Some? ==> R(Next(c, s, e).value)
  }

  ghost predicate Reached(c: Config, R: State -> bool, s: State) {
    Closed(c, R) && R(s)
  }

  lemma GoesTo(c: Config, R: State -> bool, s: State, e: Event, s': State)
    requires Reached(c, R, s) && Next(c, s, e) == Some(s')
    ensures Reached(c, R, s')
  {
  }

  lemma ReachableIsClosed(c: Config, R: State -> bool)
    requires R == ((s: State) => Reachable(c, s))
    ensures Closed(c, R)
  {
    InitReachable(c);
    forall s, e | R(s) && Next(c, s, e).Some? ensures R(Next(c, s, e).value) {
      Then(c, s, e, Next(c, s, e).value);
    }
  }

  // What single steps do.

  lemma StepMain(c: Config, R: State -> bool, s: State, pick: Ref, m: Main)
    requires Reached(c, R, s) && NextMain(c, s, pick) == Some(m)
    ensures Reached(c, R, MainEffect(c, s, pick).(main := m))
  {
    GoesTo(c, R, s, MainMove(pick), MainEffect(c, s, pick).(main := m));
  }

  lemma StepSilent(c: Config, R: State -> bool, s: State, x: Source, act: JobAct, p: JobPhase)
    requires Reached(c, R, s) && x in s.jobs && JobStep(x, s.jobs[x], act) == Some((p, Silent))
    requires act == Start ==> SlotFree(c, s, x)
    ensures Reached(c, R, SetPhase(s, x, p))
  {
    GoesTo(c, R, s, JobMove(x, act), SetPhase(s, x, p));
  }

  lemma StepSend(c: Config, R: State -> bool, s: State, x: Source, w: Which, p: JobPhase, st: Stage)
    requires Reached(c, R, s) && x in s.jobs && JobStep(x, s.jobs[x], Send) == Some((p, Emit(w)))
    requires !GetStage(s, w).closed && Enqueue(GetStage(s, w), x, Capacity(c, w)) == Some(st)
    ensures Reached(c, R, SetPhase(SetStage(s, w, st), x, p))
  {
    GoesTo(c, R, s, JobMove(x, Send), SetPhase(SetStage(s, w, st), x, p));
  }

  lemma StepHandOver(c: Config, R: State -> bool, s: State, x: Source, p: JobPhase, st: Stage)
    requires Reached(c, R, s) && x in s.jobs && JobStep(x, s.jobs[x], HandOver) == Some((p, PassOn))
    requires !s.writer.closed && PassTo(s.writer, x, c.workers) == Some(st)
    ensures Reached(c, R, SetPhase(SetStage(s, Writer, st), x, p))
  {
    GoesTo(c, R, s, JobMove(x, HandOver), SetPhase(SetStage(s, Writer, st), x, p));
  }

  lemma StepStage(c: Config, R: State -> bool, s: State, w: Which, act: StageAct, st: Stage)
    requires Reached(c, R, s) && Possible(c, s, w, act) && StageStep(w, GetStage(s, w), act) == Some((st, None))
    ensures Reached(c, R, SetStage(s, w, st).(index := if w == Indexer then IndexAfter(c, s, act) else s.index))
  {
    GoesTo(c, R, s, StageMove(w, act), SetStage(s, w, st).(index := if w == Indexer then IndexAfter(c, s, act) else s.index));
  }

  lemma StepComplain(c: Config, R: State -> bool, s: State, st: Stage, r: Report)
    requires Reached(c, R, s) && s.indexer.phase.Is(Complaining) && Running(s)
    requires StageStep(Indexer, s.indexer, Complain) == Some((st, Some(r)))
    ensures Reached(c, R, s.(indexer := st, lastErr := Some(r), collected := OneMore(s.collected, r)))
  {
    GoesTo(c, R, s, StageMove(Indexer, Complain), s.(indexer := st, lastErr := Some(r), collected := OneMore(s.collected, r)));
  }

  // Main submits the path tasks.

  ghost predicate Submitting(c: Config, s: State, i: nat) {
    && i <= |c.content|
    && s == Init.(main := SubmitPath(i), writer := NewStage.(phase := Waiting), jobs := s.jobs)
    && s.jobs.Keys == PathsBelow(i)
    && forall x :: x in s.jobs ==> s.jobs[x] == Queued
  }

  lemma {:induction false} SubmitAll(c: Config, R: State -> bool, i: nat) returns (s: State)
    requires Closed(c, R)
    requires i <= |c.content|
    ensures Reached(c, R, s) && Submitting(c, s, i)
  {
    if i == 0 {
      StepMain(c, R, Init, AnyRef, SubmitPath(0));
      s := MainEffect(c, Init, AnyRef).(main := SubmitPath(0));
    } else {
      var s0 := SubmitAll(c, R, i - 1);
      StepMain(c, R, s0, AnyRef, SubmitPath(i));
      s := SetPhase(s0, Path(i - 1), Queued).(main := SubmitPath(i));
      assert PathsBelow(i) == PathsBelow(i - 1) + {Path(i - 1)};
    }
  }

  lemma StartStages(c: Config, R: State -> bool) returns (s: State)
    requires Closed(c, R)
    ensures Reached(c, R, s) && Kustomizing(c, s, 0, Queued, 0) && s.index == Init.index
  {
    s := SubmitAll(c, R, |c.content|);
    StepMain(c, R, s, AnyRef, SubmitIndexer);
    s := s.(main := SubmitIndexer);
    StepMain(c, R, s, AnyRef, StopKustomize);
    s := s.(main := StopKustomize, indexer := s.indexer.(phase := Waiting));
    StepStage(c, R, s, Writer, Begin, s.writer.(phase := Receiving));
    s := s.(writer := s.writer.(phase := Receiving));
    StepStage(c, R, s, Indexer, Begin, s.indexer.(phase := Receiving));
    s := s.(indexer := s.indexer.(phase := Receiving));
  }

  // One path task, from start to end.

  lemma PathMoves(c: Config, s: State, k: nat, p: JobPhase, p': JobPhase)
    requires k < |c.content| && PathsAt(c, s, k, p)
    ensures Path(k) in s.jobs && s.jobs[Path(k)] == p && PathsAt(c, SetPhase(s, Path(k), p'), k, p')
  {
    assert Path(k) in PathsBelow(|c.content|);
  }

  lemma BeginPath(c: Config, R: State -> bool, s0: State, k: nat) returns (s: State)
    requires Reached(c, R, s0) && k < |c.content| && Kustomizing(c, s0, k, Queued, k)
    ensures Reached(c, R, s) && Kustomizing(c, s, k, Emitting, k)
  {
    PathMoves(c, s0, k, Queued, Building);
    StepSilent(c, R, s0, Path(k), Start, Building);
    s := SetPhase(s0, Path(k), Building);
    PathMoves(c, s, k, Building, Emitting);
    StepSilent(c, R, s, Path(k), Render, Emitting);
    s := SetPhase(s, Path(k), Emitting);
  }

  predicate Open(st: Stage) {
    st.phase == Receiving && st.queue == [] && !st.closed
  }

  /** An idle writer takes the manifest of `x`, through the channel or directly. */
  lemma HandOverItem(c: Config, R: State -> bool, s0: State, x: Source) returns (s: State)
    requires Reached(c, R, s0) && x in s0.jobs && s0.jobs[x] == Emitting && Open(s0.writer)
    ensures Reached(c, R, s)
    ensures s == SetPhase(s0, x, AfterEmit(x)).(writer := s0.writer.(phase := Holding(x, Handling)))
  {
    if c.workers > 0 {
      s := QueueItem(c, R, s0, x);
    } else {
      StepHandOver(c, R, s0, x, AfterEmit(x), s0.writer.(phase := Holding(x, Handling)));
      s := SetPhase(s0, x, AfterEmit(x)).(writer := s0.writer.(phase := Holding(x, Handling)));
    }
  }

  lemma QueueItem(c: Config, R: State -> bool, s0: State, x: Source) returns (s: State)
    requires Reached(c, R, s0) && x in s0.jobs && s0.jobs[x] == Emitting && Open(s0.writer) && c.workers > 0
    ensures Reached(c, R, s)
    ensures s == SetPhase(s0, x, AfterEmit(x)).(writer := s0.writer.(phase := Holding(x, Handling)))
  {
    var st := s0.writer.(queue := s0.writer.queue + [x]);
    StepSend(c, R, s0, x, Writer, AfterEmit(x), st);
    s := SetPhase(SetStage(s0, Writer, st), x, AfterEmit(x));
    assert st.queue == [x] && st.queue[1..] == s0.writer.queue;
    StepStage(c, R, s, Writer, Receive, s0.writer.(phase := Holding(x, Handling)));
    s := s.(writer := s0.writer.(phase := Holding(x, Handling)));
  }

  /** The first manifest makes the writer panic. */
  lemma SendFirst(c: Config, R: State -> bool, s0: State) returns (s: State)
    requires Reached(c, R, s0) && 0 < |c.content| && Kustomizing(c, s0, 0, Emitting, 0)
    ensures Reached(c, R, s) && Kustomizing(c, s, 0, Offering, 1)
  {
    PathMoves(c, s0, 0, Emitting, Offering);
    s := HandOverItem(c, R, s0, Path(0));
    StepStage(c, R, s, Writer, Explode(0), s.writer.(phase := Holding(Path(0), Panicked)));
    s := s.(writer := s.writer.(phase := Holding(Path(0), Panicked)));
  }

  lemma SendLater(c: Config, R: State -> bool, s0: State, k: nat) returns (s: State)
    requires Reached(c, R, s0) && 0 < k < |c.content| && k <= c.workers && Kustomizing(c, s0, k, Emitting, k)
    ensures Reached(c, R, s) && Kustomizing(c, s, k, Offering, k + 1)
  {
    PathMoves(c, s0, k, Emitting, Offering);
    var st := s0.writer.(queue := s0.writer.queue + [Path(k)]);
    StepSend(c, R, s0, Path(k), Writer, Offering, st);
    s := SetPhase(SetStage(s0, Writer, st), Path(k), Offering);
  }

  /** An idle indexer takes the result of path `x`. */
  lemma OfferItem(c: Config, R: State -> bool, s0: State, x: Source) returns (s: State)
    requires Reached(c, R, s0) && x in s0.jobs && s0.jobs[x] == Offering && Open(s0.indexer) && 0 < |c.content|
    ensures Reached(c, R, s)
    ensures s == SetPhase(s0, x, Returned(Succeeded)).(indexer := s0.indexer.(phase := Holding(x, Handling)))
  {
    var st := s0.indexer.(queue := s0.indexer.queue + [x]);
    StepSend(c, R, s0, x, Indexer, Returned(Succeeded), st);
    s := SetPhase(SetStage(s0, Indexer, st), x, Returned(Succeeded));
    assert st.queue == [x] && st.queue[1..] == s0.indexer.queue;
    StepStage(c, R, s, Indexer, Receive, s0.indexer.(phase := Holding(x, Handling)));
    s := s.(indexer := s0.indexer.(phase := Holding(x, Handling)));
  }

  function AfterPush(c: Config, index: IndexState, x: Source): IndexState {
    IndexState(index.entries + Pushed(Contents(c, x)), index.pushes + [x])
  }

  /** The indexer goes on, with all of `x` that is readable in the index. */
  ghost predicate ItemPushed(c: Config, s0: State, x: Source, s: State) {
    && s == s0.(indexer := s.indexer, index := AfterPush(c, s0.index, x), lastErr := s.lastErr, collected := s.collected)
    && s.indexer == s0.indexer.(phase := Receiving, handled := s.indexer.handled, rejected := s.indexer.rejected)
  }

  /** Whether or not Push fails, it stores all that is readable. */
  lemma PushItem(c: Config, R: State -> bool, s0: State, x: Source) returns (s: State)
    requires Reached(c, R, s0) && Running(s0) && s0.indexer.phase == Holding(x, Handling)
    ensures Reached(c, R, s) && ItemPushed(c, s0, x, s)
  {
    if AllReadable(Contents(c, x)) {
      var st := s0.indexer.(phase := Receiving, handled := OneMore(s0.indexer.handled, x));
      StepStage(c, R, s0, Indexer, Handle, st);
      s := s0.(indexer := st, index := AfterPush(c, s0.index, x));
    } else {
      var st := s0.indexer.(phase := Holding(x, Complaining));
      StepStage(c, R, s0, Indexer, FailHandle, st);
      s := Complaint(c, R, s0.(indexer := st, index := AfterPush(c, s0.index, x)), x);
    }
  }

  /** The indexer reports the failure and goes on. */
  lemma Complaint(c: Config, R: State -> bool, s0: State, x: Source) returns (s: State)
    requires Reached(c, R, s0) && Running(s0) && s0.indexer.phase == Holding(x, Complaining)
    ensures Reached(c, R, s)
    ensures s == s0.(indexer := s.indexer, lastErr := s.lastErr, collected := s.collected)
    ensures s.indexer == s0.indexer.(phase := Receiving, rejected := s.indexer.rejected)
  {
    var st := s0.indexer.(phase := Receiving, rejected := OneMore(s0.indexer.rejected, x));
    var r := NotHandled(Indexer, x);
    StepComplain(c, R, s0, st, r);
    s := s0.(indexer := st, lastErr := Some(r), collected := OneMore(s0.collected, r));
  }

  lemma NextPath(c: Config, s: State, k: nat)
    requires k < |c.content| && PathsAt(c, s, k, Returned(Succeeded))
    ensures PathsAt(c, s, k + 1, Queued)
  {
  }

  lemma SendPath(c: Config, R: State -> bool, s0: State, k: nat) returns (s: State)
    requires Reached(c, R, s0) && k < |c.content| && k <= c.workers && Kustomizing(c, s0, k, Emitting, k)
    ensures Reached(c, R, s) && Kustomizing(c, s, k, Offering, k + 1)
  {
    if k == 0 {
      s := SendFirst(c, R, s0);
    } else {
      s := SendLater(c, R, s0, k);
    }
  }

  lemma FinishPath(c: Config, R: State -> bool, s0: State, k: nat) returns (s: State)
    requires Reached(c, R, s0) && k < |c.content| && Kustomizing(c, s0, k, Offering, k + 1)
    ensures Reached(c, R, s) && Kustomizing(c, s, k + 1, Queued, k + 1)
  {
    PathMoves(c, s0, k, Offering, Returned(Succeeded));
    NextPath(c, SetPhase(s0, Path(k), Returned(Succeeded)), k);
    var s1 := OfferItem(c, R, s0, Path(k));
    s := PushItem(c, R, s1, Path(k));
    PathFinished(c, s0, s1, s, k);
  }

  lemma PathFinished(c: Config, s0: State, s1: State, s: State, k: nat)
    requires k < |c.content| && Kustomizing(c, s0, k, Offering, k + 1)
    requires s1 == SetPhase(s0, Path(k), Returned(Succeeded)).(indexer := s0.indexer.(phase := Holding(Path(k), Handling)))
    requires ItemPushed(c, s1, Path(k), s) && PathsAt(c, SetPhase(s0, Path(k), Returned(Succeeded)), k + 1, Queued)
    ensures Kustomizing(c, s, k + 1, Queued, k + 1)
  {
    assert FirstPaths(k + 1) == FirstPaths(k) + [Path(k)];
  }

  lemma OnePath(c: Config, R: State -> bool, s0: State, k: nat) returns (s: State)
    requires Reached(c, R, s0) && k < |c.content| && k <= c.workers && Kustomizing(c, s0, k, Queued, k)
    ensures Reached(c, R, s) && Kustomizing(c, s, k + 1, Queued, k + 1)
  {
    s := BeginPath(c, R, s0, k);
    s := SendPath(c, R, s, k);
    s := FinishPath(c, R, s, k);
  }

  /** A state with the first `k` paths done can be reached. */
  ghost predicate PathsDriven(c: Config, R: State -> bool, k: nat) {
    exists s :: Reached(c, R, s) && Kustomizing(c, s, k, Queued, k)
  }

  lemma DriveOnePath(c: Config, R: State -> bool, k: nat)
    requires PathsDriven(c, R, k) && k < |c.content| && k <= c.workers
    ensures PathsDriven(c, R, k + 1)
  {
    var s :| Reached(c, R, s) && Kustomizing(c, s, k, Queued, k);
    var s' := OnePath(c, R, s, k);
  }

  lemma NoPathDriven(c: Config, R: State -> bool)
    requires Closed(c, R)
    ensures PathsDriven(c, R, 0)
  {
    var s := StartStages(c, R);
  }

  /** As long as their manifests fit into the channel and the writer's hands. */
  lemma DrivePaths(c: Config, R: State -> bool, n: nat)
    requires Closed(c, R)
    requires n <= |c.content| && n <= c.workers + 1
    ensures PathsDriven(c, R, n)
  {
    NoPathDriven(c, R);
    for k := 0 to n
      invariant PathsDriven(c, R, k)
    {
      DriveOnePath(c, R, k);
    }
  }

  /** One more path than that is doomed. */
  lemma ManyPathsBlock(c: Config, R: State -> bool) returns (s: State)
    requires Closed(c, R)
    requires |c.content| >= c.workers + 2
    ensures Reached(c, R, s) && Doomed(c, s, Path(c.workers + 1))
  {
    var k := c.workers + 1;
    DrivePaths(c, R, k);
    s :| Reached(c, R, s) && Kustomizing(c, s, k, Queued, k);
    s := BeginPath(c, R, s, k);
    PathMoves(c, s, k, Emitting, Emitting);
  }

  // Then the helm tasks, one after the other.

  /** All paths are done, the releases in `done` too, and those in `todo` are not submitted yet. */
  ghost predicate Releasing(c: Config, s: State, todo: set<Ref>, done: set<Ref>) {
    && Running(s) && s.main == SubmitReleases(todo) && WriterAt(s, |c.content| + |done|)
    && (forall i: nat :: Path(i) in s.jobs <==> i < |c.content|)
    && (forall r :: Release(r) in s.jobs <==> r in AllReleases(c) - todo)
    && (forall i: nat :: Path(i) in s.jobs ==> s.jobs[Path(i)] == Returned(Succeeded))
    && (forall r :: Release(r) in s.jobs ==> s.jobs[Release(r)] == if r in done then Returned(Succeeded) else Queued)
  }

  lemma AllPathsDone(c: Config, s: State)
    requires Kustomizing(c, s, |c.content|, Queued, |c.content|)
    ensures PathJobsDone(s)
    ensures forall i: nat :: Path(i) in s.jobs <==> i < |c.content|
    ensures forall i: nat :: Path(i) in s.jobs ==> s.jobs[Path(i)] == Returned(Succeeded)
    ensures forall r :: Release(r) !in s.jobs
  {
    forall x | x in s.jobs && x.Path? ensures s.jobs[x].TaskDone() {
      assert x == Path(x.index);
    }
    assert forall i: nat :: Path(i) in PathsBelow(|c.content|) <==> i < |c.content|;
  }

  /** Main closes `resources` and the indexer leaves. */
  lemma CloseIndexer(c: Config, R: State -> bool, s0: State) returns (s: State)
    requires Reached(c, R, s0) && s0.main == StopKustomize && PathJobsDone(s0)
    requires s0.indexer.phase == Receiving && s0.indexer.queue == [] && !s0.indexer.closed
    ensures Reached(c, R, s)
    ensures s == s0.(main := StopIndexer, indexer := s0.indexer.(closed := true, phase := Finished))
  {
    StepMain(c, R, s0, AnyRef, CloseResources);
    s := s0.(main := CloseResources);
    StepMain(c, R, s, AnyRef, StopIndexer);
    s := s.(main := StopIndexer, indexer := s.indexer.(closed := true));
    StepStage(c, R, s, Indexer, Return, s.indexer.(phase := Finished));
    s := s.(indexer := s.indexer.(phase := Finished));
  }

  /** What a live indexer has put in the index when it has taken all paths in their order. */
  ghost predicate KnowsIndex(c: Config, R: State -> bool) {
    forall s :: R(s) ==> KeysKnown(c, s)
  }

  ghost predicate KeysKnown(c: Config, s: State) {
    s.index.pushes == FirstPaths(|c.content|) && !s.indexer.phase.Died() ==> s.index.entries.Keys == Keys(c, |c.content|)
  }

  lemma {:induction false} FirstKeys(c: Config, k: nat)
    requires k <= |c.content|
    ensures EntriesOf(c, FirstPaths(k)).Keys == Keys(c, k)
  {
    if k > 0 {
      FirstKeys(c, k - 1);
      assert FirstPaths(k)[..k-1] == FirstPaths(k - 1) && FirstPaths(k)[k-1] == Path(k - 1);
    }
  }

  lemma ReachableIndexKnown(c: Config, s: State)
    requires Reachable(c, s)
    ensures KeysKnown(c, s)
  {
    var run :| Run(c, run) && run[|run|-1] == s;
    RunKeepsInv(c, run, |run| - 1);
    FirstKeys(c, |c.content|);
  }

  /** Then the releases are known. */
  lemma StartReleases(c: Config, R: State -> bool, s0: State) returns (s: State)
    requires KeysKnown(c, s0)
    requires Reached(c, R, s0) && 0 < |c.content| && Kustomizing(c, s0, |c.content|, Queued, |c.content|)
    ensures Reached(c, R, s) && Releasing(c, s, AllReleases(c), {})
  {
    AllPathsDone(c, s0);
    s := CloseIndexer(c, R, s0);
    StepMain(c, R, s, AnyRef, SubmitReleases(AllReleases(c)));
    s := s.(main := SubmitReleases(AllReleases(c)));
  }

  lemma SubmitRelease(c: Config, R: State -> bool, s0: State, todo: set<Ref>, r: Ref) returns (s: State)
    requires Reached(c, R, s0) && Releasing(c, s0, todo, {}) && todo <= AllReleases(c) && r in todo
    ensures Reached(c, R, s) && Releasing(c, s, todo - {r}, {})
  {
    StepMain(c, R, s0, r, SubmitReleases(todo - {r}));
    s := SetPhase(s0, Release(r), Queued).(main := SubmitReleases(todo - {r}));
  }

  /** A state with these releases still to submit can be reached. */
  ghost predicate ReleasesLeft(c: Config, R: State -> bool, todo: set<Ref>) {
    exists s :: Reached(c, R, s) && Releasing(c, s, todo, {})
  }

  lemma OneReleaseLess(c: Config, R: State -> bool, todo: set<Ref>, r: Ref)
    requires ReleasesLeft(c, R, todo) && todo <= AllReleases(c) && r in todo
    ensures ReleasesLeft(c, R, todo - {r})
  {
    var s :| Reached(c, R, s) && Releasing(c, s, todo, {});
    var s' := SubmitRelease(c, R, s, todo, r);
  }

  lemma {:induction false} SubmitAllReleases(c: Config, R: State -> bool, todo: set<Ref>)
    requires ReleasesLeft(c, R, todo) && todo <= AllReleases(c)
    ensures ReleasesLeft(c, R, {})
    decreases |todo|
  {
    if todo != {} {
      var r :| r in todo;
      OneReleaseLess(c, R, todo, r);
      SubmitAllReleases(c, R, todo - {r});
    }
  }

  /** A release is rendered and waits to send. */
  lemma RenderRelease(c: Config, R: State -> bool, s0: State, done: set<Ref>, r: Ref) returns (s: State)
    requires Reached(c, R, s0) && Releasing(c, s0, {}, done) && r in AllReleases(c) - done
    ensures Reached(c, R, s) && s == SetPhase(s0, Release(r), Emitting)
  {
    assert Release(r) in s0.jobs && s0.jobs[Release(r)] == Queued;
    forall x | x in s0.jobs && x.Release? ensures !s0.jobs[x].Running() {
      assert x == Release(x.ref);
    }
    assert RunningHelm(s0) == {};
    StepSilent(c, R, s0, Release(r), Start, Building);
    s := SetPhase(s0, Release(r), Building);
    StepSilent(c, R, s, Release(r), Render, Emitting);
    s := SetPhase(s, Release(r), Emitting);
    assert s.jobs == s0.jobs[Release(r) := Emitting];
  }

  lemma SendRelease(c: Config, R: State -> bool, s0: State, done: set<Ref>, r: Ref) returns (s: State)
    requires Reached(c, R, s0) && Releasing(c, s0, {}, done) && r in AllReleases(c) - done
    requires 0 < |c.content| && |c.content| + |done| <= c.workers
    ensures Reached(c, R, s) && Releasing(c, s, {}, done + {r})
  {
    var s1 := RenderRelease(c, R, s0, done, r);
    var st := s1.writer.(queue := s1.writer.queue + [Release(r)]);
    StepSend(c, R, s1, Release(r), Writer, Returned(Succeeded), st);
    s := SetPhase(SetStage(s1, Writer, st), Release(r), Returned(Succeeded));
    assert s.jobs == s0.jobs[Release(r) := Returned(Succeeded)];
  }

  /** A state with all paths done and `n` releases done can be reached. */
  ghost predicate ReleasesDriven(c: Config, R: State -> bool, n: nat) {
    exists s, done :: Reached(c, R, s) && Releasing(c, s, {}, done) && done <= AllReleases(c) && |done| == n
  }

  lemma AnotherRelease(c: Config, done: set<Ref>) returns (r: Ref)
    requires done <= AllReleases(c) && |done| < |AllReleases(c)|
    ensures r in AllReleases(c) - done
  {
    assert AllReleases(c) == done + (AllReleases(c) - done);
    r :| r in AllReleases(c) - done;
  }

  lemma ReleaseIsDriven(c: Config, R: State -> bool, s: State, done: set<Ref>, r: Ref)
    requires Reached(c, R, s) && Releasing(c, s, {}, done + {r}) && done <= AllReleases(c) && r in AllReleases(c) - done
    ensures ReleasesDriven(c, R, |done| + 1)
  {
    assert |done + {r}| == |done| + 1;
  }

  lemma DriveOneRelease(c: Config, R: State -> bool, n: nat)
    requires ReleasesDriven(c, R, n) && 0 < |c.content| && |c.content| + n <= c.workers && n < |AllReleases(c)|
    ensures ReleasesDriven(c, R, n + 1)
  {
    var s, done :| Reached(c, R, s) && Releasing(c, s, {}, done) && done <= AllReleases(c) && |done| == n;
    var r := AnotherRelease(c, done);
    var s' := SendRelease(c, R, s, done, r);
    ReleaseIsDriven(c, R, s', done, r);
  }

  lemma DriveReleases(c: Config, R: State -> bool, n: nat)
    requires ReleasesDriven(c, R, 0) && 0 < |c.content| && |c.content| + n <= c.workers + 1 && n <= |AllReleases(c)|
    ensures ReleasesDriven(c, R, n)
  {
    for i := 0 to n
      invariant ReleasesDriven(c, R, i)
    {
      DriveOneRelease(c, R, i);
    }
  }

  lemma AllPathsDriven(c: Config, R: State -> bool)
    requires Closed(c, R) && KnowsIndex(c, R)
    requires 0 < |c.content| <= c.workers + 1
    ensures ReleasesDriven(c, R, 0)
  {
    DrivePaths(c, R, |c.content|);
    ReleasesKnown(c, R);
    SubmitAllReleases(c, R, AllReleases(c));
    NoReleaseDone(c, R);
  }

  lemma ReleasesKnown(c: Config, R: State -> bool)
    requires 0 < |c.content| && PathsDriven(c, R, |c.content|) && KnowsIndex(c, R)
    ensures ReleasesLeft(c, R, AllReleases(c))
  {
    var s :| Reached(c, R, s) && Kustomizing(c, s, |c.content|, Queued, |c.content|);
    assert KeysKnown(c, s);
    var s' := StartReleases(c, R, s);
  }

  lemma NoReleaseDone(c: Config, R: State -> bool)
    requires ReleasesLeft(c, R, {})
    ensures ReleasesDriven(c, R, 0)
  {
    var s :| Reached(c, R, s) && Releasing(c, s, {}, {});
    var none: set<Ref> := {};
    assert |none| == 0 && Releasing(c, s, {}, none);
  }

  /** Releases send until the channel is full, and the next one is doomed. */
  lemma ManyReleasesBlock(c: Config, R: State -> bool) returns (s: State, x: Source)
    requires Closed(c, R) && KnowsIndex(c, R)
    requires 0 < |c.content| <= c.workers + 1 && |c.content| + |AllReleases(c)| >= c.workers + 2
    ensures Reached(c, R, s) && Doomed(c, s, x)
  {
    var n := c.workers + 1 - |c.content|;
    AllPathsDriven(c, R);
    DriveReleases(c, R, n);
    var s0, done :| Reached(c, R, s0) && Releasing(c, s0, {}, done) && done <= AllReleases(c) && |done| == n;
    var r := AnotherRelease(c, done);
    s := RenderRelease(c, R, s0, done, r);
    x := Release(r);
  }

  /** With too many paths and HelmReleases some run is blocked by a panic of the writer. */
  lemma WriterPanicBlocks(c: Config) returns (s: State, x: Source)
    requires |c.content| + |AllReleases(c)| >= c.workers + 2
    ensures Reachable(c, s) && Doomed(c, s, x)
  {
    var R := (s: State) => Reachable(c, s);
    ReachableIsClosed(c, R);
    forall s0 | R(s0) ensures KeysKnown(c, s0) {
      ReachableIndexKnown(c, s0);
    }
    s, x := SomeTaskBlocks(c, R);
  }

  lemma SomeTaskBlocks(c: Config, R: State -> bool) returns (s: State, x: Source)
    requires Closed(c, R) && KnowsIndex(c, R) && |c.content| + |AllReleases(c)| >= c.workers + 2
    ensures R(s) && Doomed(c, s, x)
  {
    if |c.content| >= c.workers + 2 {
      s := ManyPathsBlock(c, R);
      x := Path(c.workers + 1);
    } else {
      s, x := ManyReleasesBlock(c, R);
    }
  }

  // ----- the exact condition -----

  /** Some goroutine moves, if one can. */
  ghost function Onwards(c: Config, s: State): State {
    if s' :| Step(c, s, s') then s' else s
  }

  ghost function Iterated(c: Config, s: State, n: nat): State {
    if n == 0 then s else Onwards(c, Iterated(c, s, n - 1))
  }

  /** A finite run, continued for ever. */
  ghost function Continued(c: Config, run: seq<State>): nat -> State
    requires Run(c, run)
  {
    (i: nat) => if i < |run| then run[i] else Iterated(c, run[|run|-1], i + 1 - |run|)
  }

  lemma ContinuedIsExecution(c: Config, run: seq<State>)
    requires Run(c, run)
    ensures Execution(c, Continued(c, run))
  {
    var f := Continued(c, run);
    forall i: nat ensures Moves(c, f, i) {
      if i + 1 < |run| {
        assert Step(c, run[i+1-1], run[i+1]);
      } else {
        var last, n := run[|run|-1], i + 1 - |run|;
        assert f(i) == Iterated(c, last, n);
        assert f(i + 1) == Iterated(c, last, n + 1) == Onwards(c, Iterated(c, last, n));
        if e :| Next(c, f(i), e).Some? {
          assert Step(c, f(i), Next(c, f(i), e).value);
        }
      }
    }
  }

  /**
   Every run of a configuration completes, whatever panics, if and only if its paths and HelmReleases
   number at most one more than its workers.
   */
  lemma AlwaysCompletesIff(c: Config)
    ensures (forall run: nat -> State :: Execution(c, run) ==> exists n: nat :: run(n).main.Done?)
            <==> |c.content| + |AllReleases(c)| <= c.workers + 1
  {
    if |c.content| + |AllReleases(c)| <= c.workers + 1 {
      forall run: nat -> State | Execution(c, run) ensures exists n: nat :: run(n).main.Done? {
        FewTasksComplete(c, run);
      }
    } else {
      var s, x := WriterPanicBlocks(c);
      var run :| Run(c, run) && run[|run|-1] == s;
      var f := Continued(c, run);
      ContinuedIsExecution(c, run);
      assert f(|run| - 1) == s;
      CompletesIffNeverDoomed(c, f);
      assert !NotDoomed(c, f(|run| - 1));
    }
  }
}
