/** What the run pipeline guarantees: over every run, at completion, and about getting there. */
module PipelineTheorems {
  import opened Helpers
  import opened Wrappers
  import opened ResourceIndex
  import opened Pipeline
  import opened PipelineSafety

  // ----- safety over whole runs -----

  /** Nothing is sent on a closed channel and no channel is closed twice, even if tasks panic. */
  lemma NoUseAfterClose(c: Config, run: seq<State>, i: nat)
    requires Run(c, run) && i < |run|
    ensures !run[i].fault && UsesOpenChannels(run[i])
  {
    RunKeepsInv(c, run, i);
  }

  /** Whoever is about to send or to close finds the channel open. */
  ghost predicate UsesOpenChannels(s: State) {
    && (s.main == CloseResources ==> !s.indexer.closed)
    && (s.main == CloseManifests ==> !s.writer.closed)
    && (s.main == CloseErrs ==> !s.errsClosed)
    && (forall x :: x in s.jobs && s.jobs[x].Emitting? ==> !s.writer.closed)
    && (forall x :: x in s.jobs && s.jobs[x].Offering? ==> !s.indexer.closed)
    && (forall x :: x in s.jobs && (s.jobs[x].Reporting? || s.jobs[x].Crashed?) ==> !s.errsClosed)
    && (forall w :: GetStage(s, w).phase.Holding? && !GetStage(s, w).phase.why.PanicForwarded? ==> !s.errsClosed)
  }

  /** A build may end in each of three ways, and in no other: the next state is one of these. */
  lemma BuildEndsIn(c: Config, s: State, x: Source, s': State)
    requires x in s.jobs && s.jobs[x].Building?
    ensures (exists act :: Next(c, s, JobMove(x, act)) == Some(s')) <==>
      s' in {s.(jobs := s.jobs[x := Emitting]), s.(jobs := s.jobs[x := Reporting]), s.(jobs := s.jobs[x := Crashed])}
  {
    assert JobStep(x, Building, Render) == Some((Emitting, Silent));
    assert JobStep(x, Building, FailRender) == Some((Reporting, Silent));
    assert JobStep(x, Building, Panic) == Some((Crashed, Silent));
    assert s' == s.(jobs := s.jobs[x := Emitting]) ==> Next(c, s, JobMove(x, Render)) == Some(s');
    assert s' == s.(jobs := s.jobs[x := Reporting]) ==> Next(c, s, JobMove(x, FailRender)) == Some(s');
    assert s' == s.(jobs := s.jobs[x := Crashed]) ==> Next(c, s, JobMove(x, Panic)) == Some(s');
  }

  /** The collector ends only after main has ended, and then it can. */
  lemma CollectorEndsIff(c: Config, run: seq<State>, i: nat)
    requires Run(c, run) && i < |run|
    ensures Next(c, run[i], CollectorExit).Some? <==> run[i].main == Done && run[i].collecting
  {
    RunKeepsInv(c, run, i);
  }

  lemma IndexAtEnd(c: Config, s: State)
    requires Inv(c, s) && s.main.Rank() < 7 && !s.indexer.phase.Died()
    ensures forall x :: s.indexer.handled[x] + s.indexer.rejected[x] == SentBit(s, Indexer, x)
    ensures forall x :: multiset(s.index.pushes)[x] == SentBit(s, Indexer, x)
    ensures s.index.entries == EntriesOf(c, s.index.pushes)
  {
    forall x ensures multiset(s.index.pushes)[x] == s.indexer.Absorbed(x) == SentBit(s, Indexer, x) {
      assert s.indexer.Count(x) == SentBit(s, Indexer, x);
    }
  }

  lemma {:induction false} EntriesKeys(c: Config, pushes: seq<Source>, r: Ref)
    ensures r in EntriesOf(c, pushes) <==> exists x :: x in pushes && r in Readable(Contents(c, x))
  {
    if pushes != [] {
      var n := |pushes| - 1;
      assert pushes == pushes[..n] + [pushes[n]];
      EntriesKeys(c, pushes[..n], r);
    }
  }

  /** Path `j` is the last one with this key among the paths that were pushed. */
  predicate LastPush(c: Config, pushes: seq<Source>, j: nat, r: Ref) {
    && j < |pushes| && r in Readable(Contents(c, pushes[j]))
    && forall k :: j < k < |pushes| ==> r !in Readable(Contents(c, pushes[k]))
  }

  lemma {:induction false} EntriesLast(c: Config, pushes: seq<Source>, j: nat, r: Ref)
    requires LastPush(c, pushes, j, r)
    ensures r in EntriesOf(c, pushes) && EntriesOf(c, pushes)[r] == Pushed(Contents(c, pushes[j]))[r]
  {
    var n := |pushes| - 1;
    if j < n {
      assert r !in Readable(Contents(c, pushes[n]));
      EntriesLast(c, pushes[..n], j, r);
    }
  }

  lemma {:induction false} EntriesHaveLast(c: Config, pushes: seq<Source>, r: Ref) returns (j: nat)
    requires r in EntriesOf(c, pushes)
    ensures LastPush(c, pushes, j, r)
  {
    var n := |pushes| - 1;
    var before := pushes[..n];
    if r in Readable(Contents(c, pushes[n])) {
      j := n;
    } else {
      j := EntriesHaveLast(c, before, r);
      assert forall k :: j < k < n ==> before[k] == pushes[k];
    }
  }

  /**
   What a finished indexer leaves behind, unless it panicked: every rendered path was pushed exactly once, and
   the keys in the index are those that precede the first unreadable resource of each, and no others.
   */
  lemma IndexComplete(c: Config, run: seq<State>, i: nat, r: Ref)
    requires Run(c, run) && i < |run| && run[i].main.Rank() < 7 && !run[i].indexer.phase.Died()
    ensures forall x :: multiset(run[i].index.pushes)[x] == SentBit(run[i], Indexer, x)
    ensures r in run[i].index.entries <==>
      exists x :: x in run[i].jobs && x.Path? && Sent(x, run[i].jobs[x], Indexer) && r in Readable(Contents(c, x))
  {
    RunKeepsInv(c, run, i);
    IndexAtEnd(c, run[i]);
    KeysAtEnd(c, run[i], r);
  }

  lemma KeysAtEnd(c: Config, s: State, r: Ref)
    requires s.index.entries == EntriesOf(c, s.index.pushes)
    requires forall x :: multiset(s.index.pushes)[x] == SentBit(s, Indexer, x)
    ensures r in s.index.entries <==>
      exists x :: x in s.jobs && x.Path? && Sent(x, s.jobs[x], Indexer) && r in Readable(Contents(c, x))
  {
    EntriesKeys(c, s.index.pushes, r);
    forall x ensures x in s.index.pushes <==> x in s.jobs && Sent(x, s.jobs[x], Indexer) {
      assert x in multiset(s.index.pushes) <==> SentBit(s, Indexer, x) == 1;
    }
  }

  /** And each key is bound to the last readable resource that has it, of the path that was pushed last among those. */
  lemma IndexBindsLast(c: Config, run: seq<State>, i: nat, j: nat, k: nat)
    requires Run(c, run) && i < |run| && run[i].main.Rank() < 7 && !run[i].indexer.phase.Died()
    requires j < |run[i].index.pushes| && LastOfKey(Contents(c, run[i].index.pushes[j]), k)
    requires var res := Contents(c, run[i].index.pushes[j])[k].value; LastPush(c, run[i].index.pushes, j, res.key)
    ensures var res := Contents(c, run[i].index.pushes[j])[k].value;
      res.key in run[i].index.entries && run[i].index.entries[res.key] == res
  {
    RunKeepsInv(c, run, i);
    IndexAtEnd(c, run[i]);
    var pushes := run[i].index.pushes;
    var rs := Contents(c, pushes[j]);
    EntriesLast(c, pushes, j, rs[k].value.key);
    PushedLast(rs, k);
  }

  lemma MainLeavesIndex(c: Config, s: State, pick: Ref)
    ensures MainEffect(c, s, pick).index == s.index
  {
  }

  lemma MainGoesOn(c: Config, s: State, pick: Ref)
    requires NextMain(c, s, pick).Some?
    ensures NextMain(c, s, pick).value.Rank() <= s.main.Rank()
  {
  }

  lemma IndexFrozenStep(c: Config, s: State, e: Event, s': State)
    requires s.main.Rank() <= 6 && s.indexer.phase.TaskDone() && Next(c, s, e) == Some(s')
    ensures s'.main.Rank() <= 6 && s'.index == s.index
  {
    match e
    case MainMove(pick) => MainLeavesIndex(c, s, pick); MainGoesOn(c, s, pick);
    case JobMove(x, act) => JobLeaves(c, s, x, act);
    case StageMove(w, act) => StageLeaves(c, s, w, act);
    case CollectorExit =>
  }

  /**
   No helm task exists before the kustomize results are in the index: once one does,
   every path task is over, each rendered path was offered to the index exactly once
   unless the indexer panicked, and the index never changes again.
   */
  lemma {:induction false} HelmBuildsSeeTheFinalIndex(c: Config, run: seq<State>, i: nat, j: nat, r: Ref)
    requires Run(c, run) && i <= j < |run| && Release(r) in run[i].jobs
    ensures PathJobsDone(run[i])
    ensures run[j].index == run[i].index
    ensures !run[i].indexer.phase.Died() ==> forall x :: multiset(run[i].index.pushes)[x] == SentBit(run[i], Indexer, x)
    decreases j
  {
    RunKeepsInv(c, run, i);
    if !run[i].indexer.phase.Died() {
      IndexAtEnd(c, run[i]);
    }
    IndexFrozen(c, run, i, j);
  }

  lemma IndexerOver(c: Config, run: seq<State>, i: nat)
    requires Run(c, run) && i < |run| && run[i].main.Rank() <= 6
    ensures run[i].indexer.phase.TaskDone()
  {
    RunKeepsInv(c, run, i);
  }

  lemma {:induction false} IndexFrozen(c: Config, run: seq<State>, i: nat, j: nat)
    requires Run(c, run) && i <= j < |run| && run[i].main.Rank() <= 6
    ensures run[j].main.Rank() <= 6 && run[j].index == run[i].index
    decreases j
  {
    if i < j {
      IndexFrozen(c, run, i, j - 1);
      IndexerOver(c, run, j - 1);
      assert Step(c, run[j-1], run[j]);
      var e :| Next(c, run[j-1], e) == Some(run[j]);
      IndexFrozenStep(c, run[j-1], e, run[j]);
    }
  }

  // ----- what a completed run has done -----

  /** A run in which main is done, with its last state. */
  ghost predicate Completed(c: Config, run: seq<State>, s: State) {
    Run(c, run) && run[|run|-1] == s && s.main.Done?
  }

  lemma CompletedInv(c: Config, run: seq<State>, s: State)
    requires Completed(c, run, s)
    ensures Inv(c, s)
  {
    RunKeepsInv(c, run, |run| - 1);
  }

  /** The sources that had a task are exactly the paths and the indexed releases, and all tasks are over. */
  lemma CompletedTasks(c: Config, run: seq<State>, s: State, x: Source)
    requires Completed(c, run, s)
    ensures x in s.jobs <==>
      if x.Path? then x.index < |c.content| else x.ref in s.index.entries && x.ref.kind == "HelmRelease"
    ensures x in s.jobs ==> s.jobs[x].ForwarderDone()
  {
    CompletedInv(c, run, s);
    TasksAtEnd(c, s, x);
  }

  lemma TasksAtEnd(c: Config, s: State, x: Source)
    requires InvMain(s) && InvJobs(c, s) && s.main.Done?
    ensures x in s.jobs <==> if x.Path? then x.index < |c.content| else x.ref in Releases(s.index.entries.Keys)
    ensures x in s.jobs ==> s.jobs[x].ForwarderDone()
  {
    assert x.Path? ==> x == Path(x.index);
    assert x.Release? ==> x == Release(x.ref);
  }

  /** Each failed build and each panic, of a task or of a stage, was collected exactly once. */
  lemma CompletedReports(c: Config, run: seq<State>, s: State, x: Source)
    requires Completed(c, run, s)
    ensures s.collected[BuildFailed(x)] == Bit(x in s.jobs && s.jobs[x] == Joined(Failed))
    ensures s.collected[BuildPanicked(x)] == Bit(x in s.jobs && s.jobs[x] == Forwarded)
    ensures forall w :: s.collected[StagePanicked(w)] == Bit(GetStage(s, w).phase.Died())
  {
    CompletedInv(c, run, s);
    TasksAtEnd(c, s, x);
    assert s.collected[BuildFailed(x)] == Delivered(s, BuildFailed(x));
    assert s.collected[BuildPanicked(x)] == Delivered(s, BuildPanicked(x));
    forall w ensures s.collected[StagePanicked(w)] == Bit(GetStage(s, w).phase.Died()) {
      assert s.collected[StagePanicked(w)] == Delivered(s, StagePanicked(w));
      StageAtEnd(s, w);
    }
  }

  lemma StageAtEnd(s: State, w: Which)
    requires InvMain(s) && InvFlow(s, w) && s.main.Done?
    ensures GetStage(s, w).phase.Died() <==> GetStage(s, w).phase.Forwarded()
    ensures !GetStage(s, w).phase.Died() ==> GetStage(s, w).queue == [] && !GetStage(s, w).phase.Holding?
  {
    match w case Writer => case Indexer =>
  }

  /**
   Every item that was sent to stage `w`, and nothing else, is accounted for exactly once: it was handled, or its
   failure was collected, or the stage panicked on it, or it was left in the channel by the panic. Without a panic
   nothing is left. For the writer the items are the manifests of all tasks that rendered, for the indexer those of
   the paths.
   */
  lemma CompletedItems(c: Config, run: seq<State>, s: State, w: Which, x: Source)
    requires Completed(c, run, s)
    ensures var st := GetStage(s, w);
      && st.handled[x] + s.collected[NotHandled(w, x)] + Bit(st.phase.InHand(x)) + multiset(st.queue)[x]
         == Bit(x in s.jobs && s.jobs[x] == Joined(Succeeded) && (w == Writer || x.Path?))
      && (!st.phase.Died() ==> !st.phase.InHand(x) && st.queue == [])
  {
    CompletedInv(c, run, s);
    TasksAtEnd(c, s, x);
    StageAtEnd(s, w);
    assert GetStage(s, w).Count(x) == SentBit(s, w, x);
    assert s.collected[NotHandled(w, x)] == Delivered(s, NotHandled(w, x));
  }

  /**
   Which releases a run builds depends only on which paths rendered, not on the order in
   which tasks ran: two completed runs of one configuration whose indexers did not panic and
   in which the same paths rendered have the same keys in the index and the same tasks.
   */
  lemma KeysDoNotDependOnSchedule(c: Config, run: seq<State>, s: State, run': seq<State>, t: State)
    requires Completed(c, run, s) && !s.indexer.phase.Died()
    requires Completed(c, run', t) && !t.indexer.phase.Died()
    requires forall i: nat :: i < |c.content| ==> SentBit(s, Indexer, Path(i)) == SentBit(t, Indexer, Path(i))
    ensures s.index.entries.Keys == t.index.entries.Keys
    ensures s.jobs.Keys == t.jobs.Keys
  {
    CompletedInv(c, run, s);
    CompletedInv(c, run', t);
    forall x ensures SentBit(s, Indexer, x) == SentBit(t, Indexer, x) {
      assert x.Path? ==> x == Path(x.index);
      TasksAtEnd(c, s, x);
      TasksAtEnd(c, t, x);
    }
    IndexAtEnd(c, s);
    IndexAtEnd(c, t);
    SameKeys(c, s, t);
    forall x ensures x in s.jobs <==> x in t.jobs {
      TasksAtEnd(c, s, x);
      TasksAtEnd(c, t, x);
    }
  }

  lemma SameKeys(c: Config, s: State, t: State)
    requires s.index.entries == EntriesOf(c, s.index.pushes) && t.index.entries == EntriesOf(c, t.index.pushes)
    requires multiset(s.index.pushes) == multiset(t.index.pushes)
    ensures s.index.entries.Keys == t.index.entries.Keys
  {
    assert forall x :: x in s.index.pushes <==> x in multiset(s.index.pushes);
    assert forall x :: x in t.index.pushes <==> x in multiset(t.index.pushes);
    forall r ensures r in s.index.entries <==> r in t.index.entries {
      EntriesKeys(c, s.index.pushes, r);
      EntriesKeys(c, t.index.pushes, r);
    }
  }

  // ----- limits of the helm pool -----

  /** The helm tasks that are at work. */
  function AtWork(jobs: map<Source, JobPhase>): set<Source> {
    set x | x in jobs && x.Release? && (jobs[x].Building? || jobs[x].Reporting? || jobs[x].Emitting? || jobs[x].Offering?)
  }

  lemma OneMoreAtWork(jobs: map<Source, JobPhase>, x: Source, p: JobPhase)
    requires x in jobs
    ensures |AtWork(jobs[x := p])| <= |AtWork(jobs)| + 1
    ensures x.Path? || jobs[x].Running() || !p.Running() ==> |AtWork(jobs[x := p])| <= |AtWork(jobs)|
  {
    var before, after := AtWork(jobs), AtWork(jobs[x := p]);
    assert after <= before + {x};
    SubsetSize(after, before + {x});
    if x.Path? || jobs[x].Running() || !p.Running() {
      assert after <= before;
      SubsetSize(after, before);
    }
  }

  /** Only the start of a task puts it to work. */
  lemma JobStepPhases(c: Config, s: State, x: Source, act: JobAct, s': State)
    requires x in s.jobs && JobNext(c, s, x, act) == Some(s') && !s'.fault && !s.fault
    ensures x in s'.jobs && s'.jobs == s.jobs[x := s'.jobs[x]]
    ensures s'.jobs[x].Running() ==> s.jobs[x].Running() || act == Start
    ensures act == Start ==> SlotFree(c, s, x)
  {
  }

  lemma StepKeepsLimit(c: Config, s: State, e: Event, s': State)
    requires Inv(c, s) && Next(c, s, e) == Some(s') && !s'.fault && c.workers > 0 && |AtWork(s.jobs)| <= c.workers
    ensures |AtWork(s'.jobs)| <= c.workers
  {
    match e
    case MainMove(pick) =>
      MainMovesNothing(c, s, pick, s');
      assert AtWork(s'.jobs) == AtWork(s.jobs);
    case JobMove(x, act) =>
      JobStepPhases(c, s, x, act, s');
      assert RunningHelm(s) == AtWork(s.jobs);
      OneMoreAtWork(s.jobs, x, s'.jobs[x]);
    case StageMove(w, act) => StageKeepsJobs(c, s, w, act, s');
    case CollectorExit =>
  }

  lemma StageKeepsJobs(c: Config, s: State, w: Which, act: StageAct, s': State)
    requires StageNext(c, s, w, act) == Some(s')
    ensures s'.jobs == s.jobs
  {
  }

  /** Never more helm tasks than workers are at work, if the number of workers is limited at all. */
  lemma {:induction false} HelmPoolIsBounded(c: Config, run: seq<State>, i: nat)
    requires Run(c, run) && i < |run| && c.workers > 0
    ensures |AtWork(run[i].jobs)| <= c.workers
  {
    if i == 0 {
      assert AtWork(map[]) == {};
    } else {
      HelmPoolIsBounded(c, run, i - 1);
      RunKeepsInv(c, run, i - 1);
      RunKeepsInv(c, run, i);
      assert Step(c, run[i-1], run[i]);
      var e :| Next(c, run[i-1], e) == Some(run[i]);
      StepKeepsLimit(c, run[i-1], e, run[i]);
    }
  }

  // ----- which pushes fail -----

  ghost predicate PushesTold(c: Config, st: Stage) {
    forall x ::
      && (st.handled[x] > 0 ==> AllReadable(Contents(c, x)))
      && (st.rejected[x] > 0 || st.phase == Holding(x, Complaining) ==> !AllReadable(Contents(c, x)))
  }

  lemma IndexerTells(c: Config, s: State, act: StageAct)
    requires PushesTold(c, s.indexer) && StageStep(Indexer, s.indexer, act).Some? && Possible(c, s, Indexer, act)
    ensures PushesTold(c, StageStep(Indexer, s.indexer, act).value.0)
  {
  }

  lemma StepTells(c: Config, s: State, e: Event, s': State)
    requires Inv(c, s) && PushesTold(c, s.indexer) && Next(c, s, e) == Some(s') && !s'.fault
    ensures PushesTold(c, s'.indexer)
  {
    match e
    case MainMove(pick) => MainMovesNothing(c, s, pick, s');
    case JobMove(x, act) => JobKeepsPushes(c, s, x, act, s');
    case StageMove(w, act) =>
      StageShape(c, s, w, act, s');
      if w == Indexer { IndexerTells(c, s, act); }
    case CollectorExit =>
  }

  lemma JobKeepsPushes(c: Config, s: State, x: Source, act: JobAct, s': State)
    requires x in s.jobs && JobNext(c, s, x, act) == Some(s') && !s'.fault && !s.fault
    ensures s'.indexer.handled == s.indexer.handled && s'.indexer.rejected == s.indexer.rejected
    ensures s'.indexer.phase == s.indexer.phase
  {
  }

  lemma {:induction false} RunTells(c: Config, run: seq<State>, i: nat)
    requires Run(c, run) && i < |run|
    ensures PushesTold(c, run[i].indexer)
  {
    if i > 0 {
      RunTells(c, run, i - 1);
      RunKeepsInv(c, run, i - 1);
      RunKeepsInv(c, run, i);
      assert Step(c, run[i-1], run[i]);
      var e :| Next(c, run[i-1], e) == Some(run[i]);
      StepTells(c, run[i-1], e, run[i]);
    }
  }

  /**
   In a completed run with a live indexer a path is reported by the indexer exactly if it rendered and has an
   unreadable resource, and handled without a report exactly if it rendered and has none.
   */
  lemma PushFailsIffUnreadable(c: Config, run: seq<State>, s: State, x: Source)
    requires Completed(c, run, s) && !s.indexer.phase.Died() && x.Path? && x.index < |c.content|
    ensures var rendered := x in s.jobs && s.jobs[x] == Joined(Succeeded);
      && (s.collected[NotHandled(Indexer, x)] == Bit(rendered && None in c.content[x.index]))
      && (s.indexer.handled[x] == Bit(rendered && None !in c.content[x.index]))
  {
    CompletedItems(c, run, s, Indexer, x);
    RunTells(c, run, |run| - 1);
    CompletedInv(c, run, s);
    assert s.collected[NotHandled(Indexer, x)] == Delivered(s, NotHandled(Indexer, x));
    assert AllReadable(c.content[x.index]) <==> None !in c.content[x.index];
  }
}
