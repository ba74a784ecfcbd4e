/**
 In which orders the rendered paths can reach the index, and when that decides what the index holds: every order
 happens, and of two paths with one key the one pushed later wins.
 */
module PipelineOrders {
  import opened Helpers
  import opened Wrappers
  import opened ResourceIndex
  import opened Pipeline
  import opened PipelineSafety
  import opened PipelineTheorems
  import opened PipelineProgress
  import opened PipelineBlocking

  /** A completed run with a live indexer in which exactly these paths rendered ends in `s`. */
  ghost predicate Ends(c: Config, rendered: set<Source>, s: State) {
    && (exists run :: Completed(c, run, s))
    && !s.indexer.phase.Died()
    && forall x :: SentBit(s, Indexer, x) == Bit(x in rendered)
  }

  predicate IsPath(c: Config, x: Source) {
    x.Path? && x.index < |c.content|
  }

  predicate ArePaths(c: Config, xs: set<Source>) {
    forall x :: x in xs ==> IsPath(c, x)
  }

  /** A list of these paths, each once. */
  predicate Orders(order: seq<Source>, rendered: set<Source>) {
    multiset(order) == multiset(rendered)
  }

  // ----- one task, from start to end -----

  lemma StepRaise(c: Config, R: State -> bool, s: State, x: Source, act: JobAct, p: JobPhase, r: Report)
    requires Reached(c, R, s) && Running(s) && act != Start
    requires x in s.jobs && JobStep(x, s.jobs[x], act) == Some((p, Raise(r)))
    ensures Reached(c, R, SetPhase(s.(lastErr := Some(r), collected := OneMore(s.collected, r)), x, p))
  {
    GoesTo(c, R, s, JobMove(x, act), SetPhase(s.(lastErr := Some(r), collected := OneMore(s.collected, r)), x, p));
  }

  lemma FailTask(c: Config, R: State -> bool, s0: State, x: Source) returns (s: State)
    requires Reached(c, R, s0) && Running(s0) && x in s0.jobs && s0.jobs[x] == Queued && SlotFree(c, s0, x)
    ensures Reached(c, R, s)
    ensures s == s0.(jobs := s0.jobs[x := Joined(Failed)], lastErr := s.lastErr, collected := s.collected)
  {
    StepSilent(c, R, s0, x, Start, Building);
    s := SetPhase(s0, x, Building);
    StepSilent(c, R, s, x, FailRender, Reporting);
    s := SetPhase(s, x, Reporting);
    var r := BuildFailed(x);
    StepRaise(c, R, s, x, Send, Returned(Failed), r);
    s := SetPhase(s.(lastErr := Some(r), collected := OneMore(s.collected, r)), x, Returned(Failed));
    StepSilent(c, R, s, x, Join, Joined(Failed));
    s := SetPhase(s, x, Joined(Failed));
    assert s.jobs == s0.jobs[x := Joined(Failed)];
  }

  /** The task has sent its manifest, which is written. */
  lemma WritePath(c: Config, R: State -> bool, s0: State, x: Source) returns (s: State)
    requires Reached(c, R, s0) && x.Path? && x in s0.jobs && s0.jobs[x] == Queued && Open(s0.writer)
    ensures Reached(c, R, s) && s == s0.(jobs := s0.jobs[x := Offering], writer := s.writer) && Open(s.writer)
  {
    StepSilent(c, R, s0, x, Start, Building);
    s := SetPhase(s0, x, Building);
    StepSilent(c, R, s, x, Render, Emitting);
    s := SetPhase(s, x, Emitting);
    s := HandOverItem(c, R, s, x);
    var st := s0.writer.(handled := OneMore(s0.writer.handled, x));
    StepStage(c, R, s, Writer, Handle, st);
    s := s.(writer := st);
    assert s.jobs == s0.jobs[x := Offering];
  }

  lemma RenderPath(c: Config, R: State -> bool, s0: State, x: Source) returns (s: State)
    requires Reached(c, R, s0) && Running(s0) && x.Path? && x in s0.jobs && s0.jobs[x] == Queued
    requires Open(s0.writer) && Open(s0.indexer) && 0 < |c.content|
    ensures Reached(c, R, s) && Running(s) && s.main == s0.main && s.jobs == s0.jobs[x := Joined(Succeeded)]
    ensures Open(s.writer) && Open(s.indexer) && s.index.pushes == s0.index.pushes + [x]
  {
    s := WritePath(c, R, s0, x);
    s := OfferItem(c, R, s, x);
    s := PushItem(c, R, s, x);
    StepSilent(c, R, s, x, Join, Joined(Succeeded));
    s := SetPhase(s, x, Joined(Succeeded));
    assert s.jobs == s0.jobs[x := Joined(Succeeded)];
  }

  // ----- all kustomize tasks, in a given order -----

  /** Between two tasks: some have failed, some were pushed in this order, the others are queued. */
  ghost predicate Between(c: Config, s: State, failed: set<Source>, pushes: seq<Source>) {
    && Running(s) && s.main == StopKustomize && Open(s.writer) && Open(s.indexer) && s.index.pushes == pushes
    && s.jobs.Keys == PathsBelow(|c.content|)
    && InPhases(s.jobs, failed, pushes)
  }

  predicate InPhases(jobs: map<Source, JobPhase>, failed: set<Source>, pushes: seq<Source>) {
    forall x :: x in jobs ==> jobs[x] == PhaseOf(x, failed, pushes)
  }

  function PhaseOf(x: Source, failed: set<Source>, pushes: seq<Source>): JobPhase {
    if x in failed then Joined(Failed) else if x in pushes then Joined(Succeeded) else Queued
  }

  ghost predicate Driven(c: Config, R: State -> bool, failed: set<Source>, pushes: seq<Source>) {
    exists s :: Reached(c, R, s) && Between(c, s, failed, pushes)
  }

  lemma NoneDriven(c: Config, R: State -> bool)
    requires Closed(c, R)
    ensures Driven(c, R, {}, [])
  {
    var s := StartStages(c, R);
    forall x | x in s.jobs ensures s.jobs[x] == Queued {
      assert x == Path(x.index);
    }
    assert Between(c, s, {}, []);
  }

  /** Nothing is under way but what the tasks and the index say. */
  ghost predicate Idle(s: State, jobs: map<Source, JobPhase>, pushes: seq<Source>) {
    && Running(s) && s.main == StopKustomize && Open(s.writer) && Open(s.indexer)
    && s.jobs == jobs && s.index.pushes == pushes
  }

  lemma OneMorePhase(jobs: map<Source, JobPhase>, failed: set<Source>, pushes: seq<Source>, x: Source)
    requires InPhases(jobs, failed, pushes) && x !in failed
    ensures InPhases(jobs[x := Joined(Succeeded)], failed, pushes + [x])
    ensures pushes == [] ==> InPhases(jobs[x := Joined(Failed)], failed + {x}, [])
  {
  }

  lemma OneMoreFailed(c: Config, s0: State, s: State, failed: set<Source>, x: Source)
    requires Between(c, s0, failed, []) && x in s0.jobs && x !in failed && Idle(s, s0.jobs[x := Joined(Failed)], [])
    ensures Between(c, s, failed + {x}, [])
  {
    OneMorePhase(s0.jobs, failed, [], x);
  }

  lemma OneMorePushed(c: Config, s0: State, s: State, failed: set<Source>, pushes: seq<Source>, x: Source)
    requires Between(c, s0, failed, pushes) && x in s0.jobs && x !in failed
    requires Idle(s, s0.jobs[x := Joined(Succeeded)], pushes + [x])
    ensures Between(c, s, failed, pushes + [x])
  {
    OneMorePhase(s0.jobs, failed, pushes, x);
  }

  lemma FailOne(c: Config, R: State -> bool, failed: set<Source>, x: Source)
    requires Driven(c, R, failed, []) && x in PathsBelow(|c.content|) && x !in failed
    ensures Driven(c, R, failed + {x}, [])
  {
    var s0 :| Reached(c, R, s0) && Between(c, s0, failed, []);
    var s := FailTask(c, R, s0, x);
    OneMoreFailed(c, s0, s, failed, x);
  }

  lemma FailAnother(c: Config, R: State -> bool, failed: set<Source>, x: Source)
    requires Driven(c, R, failed - {x}, []) && x in failed && IsPath(c, x)
    ensures Driven(c, R, failed, [])
  {
    FailOne(c, R, failed - {x}, x);
    assert failed - {x} + {x} == failed;
  }

  lemma {:induction false} FailAll(c: Config, R: State -> bool, failed: set<Source>)
    requires Closed(c, R) && forall x :: x in failed ==> IsPath(c, x)
    ensures Driven(c, R, failed, [])
    decreases |failed|
  {
    if failed == {} {
      NoneDriven(c, R);
    } else {
      var x :| x in failed;
      FailAll(c, R, failed - {x});
      FailAnother(c, R, failed, x);
    }
  }

  lemma PushOne(c: Config, R: State -> bool, failed: set<Source>, pushes: seq<Source>, x: Source)
    requires Driven(c, R, failed, pushes) && x in PathsBelow(|c.content|) && x !in failed && x !in pushes
    ensures Driven(c, R, failed, pushes + [x])
  {
    var s0 :| Reached(c, R, s0) && Between(c, s0, failed, pushes);
    var s := RenderPath(c, R, s0, x);
    OneMorePushed(c, s0, s, failed, pushes, x);
  }

  lemma {:induction false} PushAll(c: Config, R: State -> bool, failed: set<Source>, pushes: seq<Source>)
    requires Closed(c, R) && failed <= PathsBelow(|c.content|)
    requires forall x :: multiset(pushes)[x] <= 1
    requires forall x :: x in pushes ==> x in PathsBelow(|c.content|) && x !in failed
    ensures Driven(c, R, failed, pushes)
  {
    if pushes == [] {
      FailAll(c, R, failed);
    } else {
      var n := |pushes| - 1;
      assert pushes == pushes[..n] + [pushes[n]];
      forall x ensures multiset(pushes[..n])[x] + Bit(x == pushes[n]) <= 1 {
        assert multiset(pushes)[x] == multiset(pushes[..n])[x] + Bit(x == pushes[n]);
      }
      assert multiset(pushes[..n])[pushes[n]] + Bit(pushes[n] == pushes[n]) <= 1;
      PushAll(c, R, failed, pushes[..n]);
      PushOne(c, R, failed, pushes[..n], pushes[n]);
    }
  }

  // ----- the rest of the run -----

  /** The tasks that are there are over, the indexer too, and main submits what is to do. */
  ghost predicate Closing(s: State, todo: set<Ref>) {
    && Running(s) && s.main == SubmitReleases(todo) && Open(s.writer) && s.indexer.phase == Settled
    && (forall x :: x in s.jobs ==> s.jobs[x].ForwarderDone())
    && (forall r :: r in todo ==> Release(r) !in s.jobs)
  }

  /** What `s` has in common with the state in which the kustomize tasks were over. */
  ghost predicate SameResult(s0: State, s: State) {
    s.index == s0.index && forall x :: SentBit(s, Indexer, x) == SentBit(s0, Indexer, x)
  }

  lemma BeginClosing(c: Config, R: State -> bool, s0: State) returns (s: State)
    requires Reached(c, R, s0) && Running(s0) && s0.main == StopKustomize && Open(s0.writer) && Open(s0.indexer)
    requires forall x :: x in s0.jobs ==> x.Path? && s0.jobs[x].ForwarderDone()
    ensures Reached(c, R, s) && Closing(s, Releases(s0.index.entries.Keys)) && SameResult(s0, s)
  {
    s := CloseIndexer(c, R, s0);
    StepStage(c, R, s, Indexer, Settle, s.indexer.(phase := Settled));
    s := s.(indexer := s.indexer.(phase := Settled));
    var todo := Releases(s0.index.entries.Keys);
    StepMain(c, R, s, AnyRef, SubmitReleases(todo));
    s := s.(main := SubmitReleases(todo));
  }

  lemma CloseOne(c: Config, R: State -> bool, s0: State, todo: set<Ref>, r: Ref) returns (s: State)
    requires Reached(c, R, s0) && Closing(s0, todo) && r in todo
    ensures Reached(c, R, s) && Closing(s, todo - {r}) && SameResult(s0, s)
  {
    StepMain(c, R, s0, r, SubmitReleases(todo - {r}));
    s := SetPhase(s0, Release(r), Queued).(main := SubmitReleases(todo - {r}));
    assert RunningHelm(s) == {};
    s := FailTask(c, R, s, Release(r));
  }

  lemma {:induction false} CloseReleases(c: Config, R: State -> bool, s0: State, todo: set<Ref>) returns (s: State)
    requires Reached(c, R, s0) && Closing(s0, todo)
    ensures Reached(c, R, s) && Closing(s, {}) && SameResult(s0, s)
    decreases |todo|
  {
    s := s0;
    if todo != {} {
      var r :| r in todo;
      s := CloseOne(c, R, s0, todo, r);
      s := CloseReleases(c, R, s, todo - {r});
    }
  }

  lemma StopTheWriter(c: Config, R: State -> bool, s0: State) returns (s: State)
    requires Reached(c, R, s0) && Closing(s0, {})
    ensures Reached(c, R, s) && s == s0.(main := JoinForwarders, writer := s.writer) && s.writer.phase == Settled
  {
    StepMain(c, R, s0, AnyRef, StopHelm);
    s := s0.(main := StopHelm);
    StepMain(c, R, s, AnyRef, CloseManifests);
    s := s.(main := CloseManifests);
    StepMain(c, R, s, AnyRef, StopWriter);
    s := s.(main := StopWriter, writer := s.writer.(closed := true));
    StepStage(c, R, s, Writer, Return, s.writer.(phase := Finished));
    s := s.(writer := s.writer.(phase := Finished));
    StepStage(c, R, s, Writer, Settle, s.writer.(phase := Settled));
    s := s.(writer := s.writer.(phase := Settled));
    StepMain(c, R, s, AnyRef, JoinForwarders);
    s := s.(main := JoinForwarders);
  }

  lemma FinishRun(c: Config, R: State -> bool, s0: State) returns (s: State)
    requires Reached(c, R, s0) && Closing(s0, {})
    ensures Reached(c, R, s) && s.main.Done? && s.indexer.phase == Settled && SameResult(s0, s)
  {
    s := StopTheWriter(c, R, s0);
    StepMain(c, R, s, AnyRef, CloseErrs);
    s := s.(main := CloseErrs);
    StepMain(c, R, s, AnyRef, Done);
    s := s.(main := Done, errsClosed := true);
  }

  /** The run goes on to its end. */
  lemma Conclude(c: Config, R: State -> bool, s0: State) returns (s: State)
    requires Reached(c, R, s0) && Running(s0) && s0.main == StopKustomize && Open(s0.writer) && Open(s0.indexer)
    requires forall x :: x in s0.jobs ==> x.Path? && s0.jobs[x].ForwarderDone()
    ensures Reached(c, R, s) && s.main.Done? && s.indexer.phase == Settled && SameResult(s0, s)
  {
    s := BeginClosing(c, R, s0);
    s := CloseReleases(c, R, s, Releases(s0.index.entries.Keys));
    s := FinishRun(c, R, s);
  }

  lemma AllOver(c: Config, s: State, failed: set<Source>, pushes: seq<Source>)
    requires Between(c, s, failed, pushes) && (forall x :: x in pushes ==> x !in failed)
    requires forall x :: x in PathsBelow(|c.content|) <==> x in failed || x in pushes
    ensures forall x :: x in s.jobs ==> x.Path? && s.jobs[x].ForwarderDone()
    ensures forall x :: SentBit(s, Indexer, x) == Bit(x in pushes)
  {
  }

  // ----- every order happens -----

  lemma OrderFacts(rendered: set<Source>, order: seq<Source>)
    requires Orders(order, rendered)
    ensures forall x :: x in order <==> x in rendered
    ensures forall x :: multiset(order)[x] <= 1
  {
    forall x ensures x in order <==> x in rendered {
      assert x in order <==> x in multiset(order);
    }
  }

  lemma OrderReached(c: Config, R: State -> bool, rendered: set<Source>, order: seq<Source>) returns (s: State)
    requires Closed(c, R) && ArePaths(c, rendered) && Orders(order, rendered)
    ensures Reached(c, R, s) && s.main.Done? && s.indexer.phase == Settled && s.index.pushes == order
    ensures forall x :: SentBit(s, Indexer, x) == Bit(x in rendered)
  {
    var failed := PathsBelow(|c.content|) - rendered;
    OrderFacts(rendered, order);
    PushAll(c, R, failed, order);
    var s0 :| Reached(c, R, s0) && Between(c, s0, failed, order);
    AllOver(c, s0, failed, order);
    s := Conclude(c, R, s0);
  }

  lemma EveryOrderHappens(c: Config, rendered: set<Source>, order: seq<Source>) returns (s: State)
    requires ArePaths(c, rendered) && Orders(order, rendered)
    ensures Ends(c, rendered, s) && s.index.pushes == order
  {
    var R := (s: State) => Reachable(c, s);
    ReachableIsClosed(c, R);
    s := OrderReached(c, R, rendered, order);
    var run :| Run(c, run) && run[|run|-1] == s;
    assert Completed(c, run, s);
  }

  lemma EndsInSomeOrder(c: Config, rendered: set<Source>, s: State)
    requires Ends(c, rendered, s)
    ensures Orders(s.index.pushes, rendered) && s.index.entries == EntriesOf(c, s.index.pushes)
  {
    var run :| Completed(c, run, s);
    CompletedInv(c, run, s);
    IndexAtEnd(c, s);
    forall x ensures multiset(s.index.pushes)[x] == multiset(rendered)[x] {
      assert multiset(s.index.pushes)[x] == SentBit(s, Indexer, x);
    }
  }

  /**
   What the index can hold at the end, exactly: the rendered paths pushed one after the other, in any order.
   */
  lemma PossibleIndexes(c: Config, rendered: set<Source>, m: Entries)
    requires ArePaths(c, rendered)
    ensures (exists s :: Ends(c, rendered, s) && s.index.entries == m)
        <==> exists order :: Orders(order, rendered) && EntriesOf(c, order) == m
  {
    if s :| Ends(c, rendered, s) && s.index.entries == m {
      EndsInSomeOrder(c, rendered, s);
    }
    if order :| Orders(order, rendered) && EntriesOf(c, order) == m {
      var s := EveryOrderHappens(c, rendered, order);
      EndsInSomeOrder(c, rendered, s);
    }
  }

  // ----- when the order matters -----

  /** Under a key that two of these paths have, both have the same last resource. */
  ghost predicate Agree(c: Config, rendered: set<Source>) {
    forall x, y, r :: x in rendered && y in rendered ==> AgreeOn(c, x, y, r)
  }

  predicate AgreeOn(c: Config, x: Source, y: Source, r: Ref) {
    var xs, ys := Pushed(Contents(c, x)), Pushed(Contents(c, y));
    r in xs && r in ys ==> xs[r] == ys[r]
  }

  lemma AgreeingEntries(c: Config, rendered: set<Source>, one: seq<Source>, other: seq<Source>, r: Ref)
    requires Agree(c, rendered) && Orders(one, rendered) && Orders(other, rendered) && r in EntriesOf(c, one)
    ensures r in EntriesOf(c, other) && EntriesOf(c, other)[r] == EntriesOf(c, one)[r]
  {
    var j := EntriesHaveLast(c, one, r);
    assert one[j] in multiset(one) && one[j] in other;
    EntriesKeys(c, other, r);
    var k := EntriesHaveLast(c, other, r);
    assert other[k] in multiset(other);
    EntriesLast(c, one, j, r);
    EntriesLast(c, other, k, r);
    assert AgreeOn(c, one[j], other[k], r);
  }

  lemma {:induction false} Listed(rendered: set<Source>) returns (order: seq<Source>)
    ensures Orders(order, rendered)
  {
    order := [];
    if rendered != {} {
      var x :| x in rendered;
      var rest := Listed(rendered - {x});
      order := rest + [x];
      assert rendered == (rendered - {x}) + {x};
    }
  }

  /** A run in which path `x` is pushed last. */
  lemma PushedAtLast(c: Config, rendered: set<Source>, x: Source, r: Ref) returns (s: State)
    requires ArePaths(c, rendered) && x in rendered && r in Readable(Contents(c, x))
    ensures Ends(c, rendered, s) && r in s.index.entries && s.index.entries[r] == Pushed(Contents(c, x))[r]
  {
    var rest := Listed(rendered - {x});
    var order := rest + [x];
    assert rendered == (rendered - {x}) + {x};
    s := EveryOrderHappens(c, rendered, order);
    EndsInSomeOrder(c, rendered, s);
    EntriesLast(c, order, |rest|, r);
  }

  /** Where two paths differ under a key, the schedule decides: there is a run for each of the two resources. */
  lemma ScheduleDecides(c: Config, rendered: set<Source>, x: Source, y: Source, r: Ref) returns (s: State, t: State)
    requires ArePaths(c, rendered) && x in rendered && y in rendered && !AgreeOn(c, x, y, r)
    ensures Ends(c, rendered, s) && Ends(c, rendered, t)
    ensures r in s.index.entries && r in t.index.entries && s.index.entries[r] != t.index.entries[r]
  {
    s := PushedAtLast(c, rendered, x, r);
    t := PushedAtLast(c, rendered, y, r);
  }

  /**
   All completed runs with a live indexer in which the same paths rendered end with the same index, if and only if
   no two of these paths end with different resources under one key.
   */
  lemma ScheduleIndependentIff(c: Config, rendered: set<Source>)
    requires ArePaths(c, rendered)
    ensures (forall s, t :: Ends(c, rendered, s) && Ends(c, rendered, t) ==> s.index.entries == t.index.entries)
        <==> Agree(c, rendered)
  {
    if Agree(c, rendered) {
      forall s, t | Ends(c, rendered, s) && Ends(c, rendered, t) ensures s.index.entries == t.index.entries {
        EndsInSomeOrder(c, rendered, s);
        EndsInSomeOrder(c, rendered, t);
        SameEntries(c, rendered, s.index.pushes, t.index.pushes);
      }
    } else {
      var x, y, r :| x in rendered && y in rendered && !AgreeOn(c, x, y, r);
      var s, t := ScheduleDecides(c, rendered, x, y, r);
    }
  }

  lemma SameEntries(c: Config, rendered: set<Source>, one: seq<Source>, other: seq<Source>)
    requires Agree(c, rendered) && Orders(one, rendered) && Orders(other, rendered)
    ensures EntriesOf(c, one) == EntriesOf(c, other)
  {
    forall r ensures r in EntriesOf(c, one) <==> r in EntriesOf(c, other) {
      if r in EntriesOf(c, one) { AgreeingEntries(c, rendered, one, other, r); }
      if r in EntriesOf(c, other) { AgreeingEntries(c, rendered, other, one, r); }
    }
    forall r | r in EntriesOf(c, one) ensures EntriesOf(c, one)[r] == EntriesOf(c, other)[r] {
      AgreeingEntries(c, rendered, one, other, r);
    }
  }
}
