/** What every run of the build keeps, and what a build that has ended has done. */
module DependencyBuildProof {
  import opened Helpers
  import opened Wrappers
  import opened DependencyBuild

  /** How many steps a worker has left; from 2 up it has the permit. */
  function Rank(p: Phase): nat {
    match p
    case Loading => 4
    case Adding(_) => 3
    case Finished(_) => 2
    case Released(_) => 1
    case Gone(_) => 0
  }

  function AtLeast(workers: map<string, Phase>, n: nat): set<string> {
    set key | key in workers && Rank(workers[key]) >= n
  }

  /** The workers between acquiring and releasing their permit. */
  function Active(s: State): set<string> {
    AtLeast(s.workers, 2)
  }

  /** The worker has added its chart. */
  predicate Succeeded(p: Phase) {
    (p.Finished? || p.Released? || p.Gone?) && !p.failed
  }

  predicate SpawnerFailed(s: State) {
    (s.spawner.Returning? || s.spawner.Stopped?) && s.spawner.failed
  }

  function SpawnerKeys(s: State): set<string> {
    if s.spawner.Acquiring? || s.spawner.Launching? then {s.spawner.key} else {}
  }

  /** Every missing key is still to do, with the spawner, or with one worker; only a failing spawner drops any. */
  ghost predicate InvKeys(c: Config, s: State) {
    && s.todo !! s.workers.Keys !! SpawnerKeys(s)
    && s.todo + s.workers.Keys + SpawnerKeys(s) <= c.missing.Keys
    && (!SpawnerFailed(s) ==> s.todo + s.workers.Keys + SpawnerKeys(s) == c.missing.Keys)
    && ((s.spawner.Returning? || s.spawner.Stopped?) && !s.spawner.failed ==> s.todo == {})
  }

  ghost predicate InvPermits(c: Config, s: State) {
    s.held == |Active(s)| + Bit(s.spawner.Launching?) <= Permits(c)
  }

  /** The new elements of the list are the charts of distinct keys, those whose workers succeeded. */
  ghost predicate InvAdded(c: Config, s: State) {
    && |s.deps| == |c.current| + |s.added|
    && s.deps[..|c.current|] == c.current
    && (forall i :: 0 <= i < |s.added| ==>
          s.added[i] in c.missing && Loads(c, s.added[i]) == Some(s.deps[|c.current| + i]))
    && (forall i, j :: 0 <= i < j < |s.added| ==> s.added[i] != s.added[j])
    && (forall key :: key in s.added <==> key in s.workers && Succeeded(s.workers[key]))
  }

  ghost predicate SomeLoadFails(c: Config) {
    exists key :: key in c.missing && c.load(c.missing[key]).None?
  }

  ghost predicate WorkerTells(c: Config, s: State, key: string)
    requires key in s.workers
  {
    && key in c.missing
    && (s.workers[key].Adding? ==> Loads(c, key) == Some(s.workers[key].chart))
    && (Rank(s.workers[key]) <= 2 && s.workers[key].failed ==> Loads(c, key).None?)
    && (s.workers[key].Gone? && s.workers[key].failed ==> s.failed)
  }

  ghost predicate InvErrors(c: Config, s: State) {
    && (forall key :: key in s.workers ==> WorkerTells(c, s, key))
    && (SpawnerFailed(s) ==> Cancelled(s))
    && (SpawnerFailed(s) && s.spawner.Stopped? ==> s.failed)
    && (s.failed ==> s.parentCancelled || SomeLoadFails(c))
  }

  ghost predicate Inv(c: Config, s: State) {
    InvKeys(c, s) && InvPermits(c, s) && InvAdded(c, s) && InvErrors(c, s)
  }

  /** A step of the spawner or of the parent context; the others are steps of a worker. */
  predicate OfSpawner(e: Event) {
    !(e.Load? || e.Add? || e.Release? || e.Leave?)
  }

  lemma StepKeepsKeys(c: Config, s: State, e: Event)
    requires InvKeys(c, s) && Enabled(c, s, e)
    ensures InvKeys(c, Apply(c, s, e))
  {
  }

  /** How many workers have at least rank `n`, before and after one of them starts or moves. */
  lemma Moved(workers: map<string, Phase>, key: string, p: Phase, n: nat)
    ensures |AtLeast(workers[key := p], n)|
         == |AtLeast(workers, n)| - Bit(key in workers && Rank(workers[key]) >= n) + Bit(Rank(p) >= n)
  {
    var others := AtLeast(workers, n) - {key};
    assert AtLeast(workers[key := p], n) == if Rank(p) >= n then others + {key} else others;
    assert key in AtLeast(workers, n) ==> AtLeast(workers, n) == others + {key};
    assert key !in AtLeast(workers, n) ==> AtLeast(workers, n) == others;
  }

  lemma WorkerKeepsPermits(c: Config, s: State, t: State, key: string, p: Phase)
    requires InvPermits(c, s) && t.spawner == s.spawner
    requires key in s.workers && t.workers == s.workers[key := p] && Rank(p) < Rank(s.workers[key])
    requires t.held == s.held - Bit(s.workers[key].Finished?) && (s.workers[key].Finished? <==> Rank(s.workers[key]) >= 2 > Rank(p))
    ensures InvPermits(c, t)
  {
    Moved(s.workers, key, p, 2);
  }

  lemma SpawnerKeepsPermits(c: Config, s: State, e: Event)
    requires OfSpawner(e) && InvPermits(c, s) && Enabled(c, s, e) && (e.Launch? ==> s.spawner.key !in s.workers)
    ensures InvPermits(c, Apply(c, s, e))
  {
    if e.Launch? {
      Moved(s.workers, s.spawner.key, Loading, 2);
    }
  }

  lemma StepKeepsPermits(c: Config, s: State, e: Event)
    requires InvPermits(c, s) && Enabled(c, s, e) && (e.Launch? ==> s.spawner.key !in s.workers)
    ensures InvPermits(c, Apply(c, s, e))
  {
    if OfSpawner(e) {
      SpawnerKeepsPermits(c, s, e);
    } else {
      var t := Apply(c, s, e);
      WorkerKeepsPermits(c, s, t, e.key, t.workers[e.key]);
    }
  }

  lemma AddKeepsAdded(c: Config, s: State, t: State, key: string, chart: Chart)
    requires InvAdded(c, s) && key in c.missing && Loads(c, key) == Some(chart)
    requires key !in s.added && t.workers == s.workers[key := Finished(false)]
    requires t.added == s.added + [key] && t.deps == s.deps + [chart]
    ensures InvAdded(c, t)
  {
    assert t.deps[..|c.current|] == s.deps[..|c.current|];
    forall k ensures k in t.added <==> k in t.workers && Succeeded(t.workers[k]) {
      assert k in t.added <==> k in s.added || k == key;
    }
  }

  lemma OtherKeepsAdded(c: Config, s: State, t: State, key: string, p: Phase)
    requires InvAdded(c, s) && t.added == s.added && t.deps == s.deps && t.workers == s.workers[key := p]
    requires Succeeded(p) <==> key in s.workers && Succeeded(s.workers[key])
    ensures InvAdded(c, t)
  {
  }

  lemma StepKeepsAdded(c: Config, s: State, e: Event)
    requires InvKeys(c, s) && InvAdded(c, s) && InvErrors(c, s) && Enabled(c, s, e)
    ensures InvAdded(c, Apply(c, s, e))
  {
    match e
    case Add(key) =>
      assert WorkerTells(c, s, key);
      AddKeepsAdded(c, s, Apply(c, s, e), key, s.workers[key].chart);
    case Launch => OtherKeepsAdded(c, s, Apply(c, s, e), s.spawner.key, Loading);
    case Load(key) => OtherKeepsAdded(c, s, Apply(c, s, e), key, Apply(c, s, e).workers[key]);
    case Release(key) => OtherKeepsAdded(c, s, Apply(c, s, e), key, Apply(c, s, e).workers[key]);
    case Leave(key) => OtherKeepsAdded(c, s, Apply(c, s, e), key, Apply(c, s, e).workers[key]);
    case _ =>
  }

  lemma StepKeepsErrors(c: Config, s: State, e: Event)
    requires InvKeys(c, s) && InvErrors(c, s) && Enabled(c, s, e)
    ensures InvErrors(c, Apply(c, s, e))
  {
    var t := Apply(c, s, e);
    forall key | key in t.workers ensures WorkerTells(c, t, key) {
      assert key in s.workers ==> WorkerTells(c, s, key);
    }
  }

  lemma StepKeepsInv(c: Config, s: State, e: Event)
    requires Inv(c, s) && Enabled(c, s, e)
    ensures Inv(c, Apply(c, s, e))
  {
    StepKeepsKeys(c, s, e);
    StepKeepsPermits(c, s, e);
    StepKeepsAdded(c, s, e);
    StepKeepsErrors(c, s, e);
  }

  ghost predicate StepAt(c: Config, states: seq<State>, events: seq<Event>, i: nat)
    requires i < |events| && |states| == |events| + 1
  {
    Enabled(c, states[i], events[i]) && states[i+1] == Apply(c, states[i], events[i])
  }

  /** A build in progress: any interleaving of the spawner, the workers and the parent context. */
  ghost predicate Run(c: Config, states: seq<State>, events: seq<Event>) {
    && |states| == |events| + 1
    && states[0] == Init(c)
    && forall i :: 0 <= i < |events| ==> StepAt(c, states, events, i)
  }

  lemma StepAtKeepsInv(c: Config, states: seq<State>, events: seq<Event>, i: nat)
    requires i < |events| && |states| == |events| + 1 && StepAt(c, states, events, i) && Inv(c, states[i])
    ensures Inv(c, states[i+1])
  {
    StepKeepsInv(c, states[i], events[i]);
  }

  lemma InitHasInv(c: Config)
    ensures Inv(c, Init(c))
  {
    assert AtLeast(map[], 2) == {};
    assert c.current[..|c.current|] == c.current;
  }

  lemma {:induction false} RunKeepsInv(c: Config, states: seq<State>, events: seq<Event>, i: nat)
    requires Run(c, states, events) && i < |states|
    ensures Inv(c, states[i])
  {
    if i > 0 {
      RunKeepsInv(c, states, events, i - 1);
      assert StepAt(c, states, events, i - 1);
      StepAtKeepsInv(c, states, events, i - 1);
    } else {
      InitHasInv(c);
    }
  }

  /** The worker has not yet released its permit. */
  predicate HasPermit(p: Phase) {
    p.Loading? || p.Adding? || p.Finished?
  }

  /** Never more workers than permits between acquire and release. */
  lemma ConcurrencyIsBounded(c: Config, states: seq<State>, events: seq<Event>, i: nat)
    requires Run(c, states, events) && i < |states|
    ensures |set key | key in states[i].workers && HasPermit(states[i].workers[key])|
         <= if c.concurrent >= 1 then c.concurrent else 1
  {
    RunKeepsInv(c, states, events, i);
    assert Active(states[i]) == set key | key in states[i].workers && HasPermit(states[i].workers[key]);
  }

  /** The spawner gets a permit exactly while fewer workers than allowed hold one. */
  lemma AcquiresIff(c: Config, states: seq<State>, events: seq<Event>, i: nat)
    requires Run(c, states, events) && i < |states| && states[i].spawner.Acquiring?
    ensures Enabled(c, states[i], Acquire) <==>
      |set key | key in states[i].workers && HasPermit(states[i].workers[key])| < if c.concurrent >= 1 then c.concurrent else 1
  {
    RunKeepsInv(c, states, events, i);
    assert Active(states[i]) == set key | key in states[i].workers && HasPermit(states[i].workers[key]);
  }

  /** The keys whose charts were appended: distinct, and in the order of the appended charts. */
  ghost predicate Gained(c: Config, deps: seq<Chart>, keys: seq<string>) {
    && (forall i :: 0 <= i < |keys| ==> keys[i] in c.missing)
    && (forall i, j :: 0 <= i < j < |keys| ==> keys[i] != keys[j])
    && |deps| == |c.current| + |keys|
    && deps[..|c.current|] == c.current
    && forall i :: 0 <= i < |keys| ==> IsLoaded(c, keys[i], deps[|c.current| + i])
  }

  /** The chart is what the dependency of the key loads, under its alias if it has one. */
  predicate IsLoaded(c: Config, key: string, chart: Chart)
    requires key in c.missing
  {
    var d := c.missing[key];
    && c.load(d).Some?
    && chart.content == c.load(d).value.content
    && chart.name == if d.alias == "" then c.load(d).value.name else d.alias
  }

  lemma AddedAreLoaded(c: Config, s: State, i: nat)
    requires InvAdded(c, s) && i < |s.added|
    ensures s.added[i] in c.missing && IsLoaded(c, s.added[i], s.deps[|c.current| + i])
  {
  }

  lemma AddedAreGained(c: Config, s: State)
    requires InvAdded(c, s)
    ensures Gained(c, s.deps, s.added)
  {
    forall i | 0 <= i < |s.added| ensures s.added[i] in c.missing && IsLoaded(c, s.added[i], s.deps[|c.current| + i]) {
      AddedAreLoaded(c, s, i);
    }
  }

  lemma AllAdded(c: Config, s: State, key: string)
    requires Inv(c, s) && Final(s) && !s.failed && key in c.missing
    ensures key in s.added
  {
    assert key in s.workers && WorkerTells(c, s, key);
  }

  /**
   When the group has ended: without an error the chart has gained one dependency for every missing key, with
   an error for some of them, and in both cases it has lost none.
   */
  lemma BuildGains(c: Config, states: seq<State>, events: seq<Event>)
    requires Run(c, states, events) && Final(states[|events|])
    ensures var s := states[|events|];
      && Gained(c, s.deps, s.added)
      && (!s.failed ==> forall key :: key in c.missing ==> key in s.added)
  {
    RunKeepsInv(c, states, events, |events|);
    var s := states[|events|];
    AddedAreGained(c, s);
    if !s.failed {
      forall key | key in c.missing ensures key in s.added {
        AllAdded(c, s, key);
      }
    }
  }

  lemma {:induction false} ParentCancelled(c: Config, states: seq<State>, events: seq<Event>, i: nat)
    requires Run(c, states, events) && i < |states|
    ensures states[i].parentCancelled <==> CancelParent in events[..i]
  {
    if i > 0 {
      ParentCancelled(c, states, events, i - 1);
      assert StepAt(c, states, events, i - 1);
      assert events[..i] == events[..i-1] + [events[i-1]];
    }
  }

  /** Unless its caller cancels it, a build fails exactly when some missing dependency does not load. */
  lemma FailsIffSomeLoadFails(c: Config, states: seq<State>, events: seq<Event>)
    requires Run(c, states, events) && Final(states[|events|])
    requires CancelParent !in events
    ensures states[|events|].failed <==> exists key :: key in c.missing && c.load(c.missing[key]).None?
  {
    RunKeepsInv(c, states, events, |events|);
    ParentCancelled(c, states, events, |events|);
    assert events[..|events|] == events;
    var s := states[|events|];
    if !s.failed {
      BuildGains(c, states, events);
      forall key | key in c.missing ensures c.load(c.missing[key]).Some? {
        assert key in s.added;
      }
    }
  }

  /** The chart a key adds, if it loads. */
  function Loaded(c: Config, key: string): Chart {
    if key in c.missing && Loads(c, key).Some? then Loads(c, key).value else Chart("", "")
  }

  /** What the keys add, as a multiset. */
  ghost function Additions(c: Config, keys: seq<string>): multiset<Chart> {
    if keys == [] then multiset{}
    else Additions(c, keys[..|keys|-1]) + multiset{Loaded(c, keys[|keys|-1])}
  }

  lemma GainedBefore(c: Config, deps: seq<Chart>, keys: seq<string>)
    requires Gained(c, deps, keys) && keys != []
    ensures deps != [] && Gained(c, deps[..|deps|-1], keys[..|keys|-1])
    ensures deps[|deps|-1] == Loaded(c, keys[|keys|-1])
  {
    assert deps[..|deps|-1][..|c.current|] == deps[..|c.current|];
  }

  lemma WithLast(charts: seq<Chart>)
    requires charts != []
    ensures multiset(charts) == multiset(charts[..|charts|-1]) + multiset{charts[|charts|-1]}
  {
    assert charts == charts[..|charts|-1] + [charts[|charts|-1]];
  }

  lemma {:induction false} GainedAdditions(c: Config, deps: seq<Chart>, keys: seq<string>)
    requires Gained(c, deps, keys)
    ensures multiset(deps) == multiset(c.current) + Additions(c, keys)
    decreases |keys|
  {
    if keys == [] {
      assert deps[..|deps|] == deps;
    } else {
      GainedBefore(c, deps, keys);
      WithLast(deps);
      GainedAdditions(c, deps[..|deps|-1], keys[..|keys|-1]);
    }
  }

  lemma LastAddition(c: Config, keys: seq<string>, key: string)
    ensures Additions(c, keys + [key]) == Additions(c, keys) + multiset{Loaded(c, key)}
  {
    assert (keys + [key])[..|keys|] == keys;
  }

  lemma {:induction false} AdditionsConcat(c: Config, keys: seq<string>, more: seq<string>)
    ensures Additions(c, keys + more) == Additions(c, keys) + Additions(c, more)
    decreases |more|
  {
    if more == [] {
      assert keys + more == keys;
    } else {
      var rest, last := more[..|more|-1], more[|more|-1];
      assert keys + more == keys + rest + [last];
      LastAddition(c, keys + rest, last);
      AdditionsConcat(c, keys, rest);
    }
  }

  lemma AdditionsWithout(c: Config, front: seq<string>, key: string, back: seq<string>)
    ensures Additions(c, front + [key] + back) == Additions(c, front + back) + multiset{Loaded(c, key)}
  {
    AdditionsConcat(c, front + [key], back);
    LastAddition(c, front, key);
    AdditionsConcat(c, front, back);
  }

  /** One occurrence of a key taken out. */
  lemma Taken(keys: seq<string>, key: string) returns (front: seq<string>, back: seq<string>)
    requires key in multiset(keys)
    ensures keys == front + [key] + back && multiset(front + back) == multiset(keys) - multiset{key}
  {
    var i :| 0 <= i < |keys| && keys[i] == key;
    front, back := keys[..i], keys[i+1..];
    assert keys == front + [key] + back;
  }

  lemma LastTaken(keys: seq<string>)
    requires keys != []
    ensures var n := |keys| - 1;
      && keys == keys[..n] + [keys[n]] && keys[n] in multiset(keys)
      && multiset(keys[..n]) == multiset(keys) - multiset{keys[n]}
  {
    assert keys == keys[..|keys|-1] + [keys[|keys|-1]];
  }

  /** The same keys in another order add the same charts. */
  lemma {:induction false} SameAdditions(c: Config, keys: seq<string>, keys': seq<string>)
    requires multiset(keys) == multiset(keys')
    ensures Additions(c, keys) == Additions(c, keys')
    decreases |keys|
  {
    if keys == [] {
      assert |multiset(keys')| == 0;
    } else {
      var rest, key := keys[..|keys|-1], keys[|keys|-1];
      LastTaken(keys);
      LastAddition(c, rest, key);
      var front, back := Taken(keys', key);
      AdditionsWithout(c, front, key, back);
      SameAdditions(c, rest, front + back);
    }
  }

  lemma {:induction false} DistinctKeys(keys: seq<string>, all: set<string>)
    requires forall i, j :: 0 <= i < j < |keys| ==> keys[i] != keys[j]
    requires forall key :: key in all <==> key in keys
    ensures multiset(keys) == multiset(all)
  {
    if keys != [] {
      var n := |keys| - 1;
      assert keys == keys[..n] + [keys[n]];
      DistinctKeys(keys[..n], all - {keys[n]});
    }
  }

  /** Neither the order of the map nor the scheduling matters: two builds that succeed give the same dependencies. */
  lemma OrderIsIrrelevant(c: Config,
                          states: seq<State>, events: seq<Event>, states': seq<State>, events': seq<Event>)
    requires Run(c, states, events) && Final(states[|events|]) && !states[|events|].failed
    requires Run(c, states', events') && Final(states'[|events'|]) && !states'[|events'|].failed
    ensures multiset(states[|events|].deps) == multiset(states'[|events'|].deps)
  {
    BuildGains(c, states, events);
    BuildGains(c, states', events');
    var s, s' := states[|events|], states'[|events'|];
    GainedAdditions(c, s.deps, s.added);
    GainedAdditions(c, s'.deps, s'.added);
    DistinctKeys(s.added, c.missing.Keys);
    DistinctKeys(s'.added, c.missing.Keys);
    SameAdditions(c, s.added, s'.added);
  }

  /** A worker that is not gone can move. */
  lemma WorkerCanMove(c: Config, s: State, key: string) returns (e: Event)
    requires Inv(c, s) && key in s.workers && !s.workers[key].Gone?
    ensures Enabled(c, s, e) && !e.CancelParent?
  {
    match s.workers[key]
    case Loading => e := Load(key);
    case Adding(_) => e := Add(key);
    case Finished(_) => e := Release(key);
    case Released(_) => e := Leave(key);
  }

  /** Someone who has a permit can move. */
  lemma ActiveCanMove(c: Config, s: State) returns (e: Event)
    requires Inv(c, s) && s.spawner.Acquiring? && s.held >= Permits(c)
    ensures Enabled(c, s, e) && !e.CancelParent?
  {
    assert |Active(s)| > 0;
    var key :| key in Active(s);
    e := WorkerCanMove(c, s, key);
  }

  /** No deadlock: a build that has not ended can move, whoever waits for a permit. */
  lemma Progress(c: Config, s: State) returns (e: Event)
    requires Inv(c, s) && !Final(s)
    ensures Enabled(c, s, e) && !e.CancelParent?
  {
    match s.spawner
    case Picking =>
      if s.todo == {} {
        e := RangeEnds;
      } else {
        var key :| key in s.todo;
        e := Pick(key);
      }
    case Acquiring(_) =>
      if s.held < Permits(c) {
        e := Acquire;
      } else {
        e := ActiveCanMove(c, s);
      }
    case Launching(_) => e := Launch;
    case Returning(_) => e := SpawnerStops;
    case Stopped(_) =>
      var key :| key in s.workers && !s.workers[key].Gone?;
      e := WorkerCanMove(c, s, key);
  }

  function SpawnerRank(p: Spawner): nat {
    match p
    case Picking => 2
    case Acquiring(_) => 9
    case Launching(_) => 8
    case Returning(_) => 1
    case Stopped(_) => 0
  }

  /** The steps that are left: eight for a key that is to do, and one per rank of a worker. */
  function StepsLeft(s: State): nat {
    8 * |s.todo| + SpawnerRank(s.spawner) + Bit(!s.parentCancelled) + WorkersLeft(s.workers)
  }

  function WorkersLeft(workers: map<string, Phase>): nat {
    |AtLeast(workers, 1)| + |AtLeast(workers, 2)| + |AtLeast(workers, 3)| + |AtLeast(workers, 4)|
  }

  lemma WorkerMoved(workers: map<string, Phase>, key: string, p: Phase)
    ensures WorkersLeft(workers[key := p])
         == WorkersLeft(workers) - (if key in workers then Rank(workers[key]) else 0) + Rank(p)
  {
    Moved(workers, key, p, 1);
    Moved(workers, key, p, 2);
    Moved(workers, key, p, 3);
    Moved(workers, key, p, 4);
  }

  /** A worker moves on and the rest stays. */
  lemma WorkerLowers(s: State, t: State, key: string, p: Phase)
    requires key in s.workers && t.workers == s.workers[key := p] && Rank(p) < Rank(s.workers[key])
    requires t.todo == s.todo && t.spawner == s.spawner && t.parentCancelled == s.parentCancelled
    ensures StepsLeft(t) < StepsLeft(s)
  {
    WorkerMoved(s.workers, key, p);
  }

  lemma SpawnerLowers(c: Config, s: State, e: Event)
    requires OfSpawner(e) && Enabled(c, s, e) && (e.Launch? ==> s.spawner.key !in s.workers)
    ensures StepsLeft(Apply(c, s, e)) < StepsLeft(s)
  {
    match e
    case Pick(key) => assert |s.todo - {key}| == |s.todo| - 1;
    case Launch => WorkerMoved(s.workers, s.spawner.key, Loading);
    case _ =>
  }

  /** Every step leaves fewer steps. */
  lemma StepLowers(c: Config, s: State, e: Event)
    requires Enabled(c, s, e) && (e.Launch? ==> s.spawner.key !in s.workers)
    ensures StepsLeft(Apply(c, s, e)) < StepsLeft(s)
  {
    if OfSpawner(e) {
      SpawnerLowers(c, s, e);
    } else {
      var t := Apply(c, s, e);
      WorkerLowers(s, t, e.key, t.workers[e.key]);
    }
  }

  lemma StepAtLowers(c: Config, states: seq<State>, events: seq<Event>, i: nat)
    requires Run(c, states, events) && i < |events|
    ensures StepsLeft(states[i+1]) < StepsLeft(states[i])
  {
    RunKeepsInv(c, states, events, i);
    assert StepAt(c, states, events, i);
    StepLowers(c, states[i], events[i]);
  }

  lemma {:induction false} RunLowers(c: Config, states: seq<State>, events: seq<Event>, i: nat)
    requires Run(c, states, events) && i < |states|
    ensures i + StepsLeft(states[i]) <= StepsLeft(Init(c))
  {
    if i > 0 {
      RunLowers(c, states, events, i - 1);
      StepAtLowers(c, states, events, i - 1);
    }
  }

  /** Every build ends: no run has more than eight steps per missing dependency and three more. */
  lemma EveryBuildEnds(c: Config, states: seq<State>, events: seq<Event>)
    requires Run(c, states, events)
    ensures |events| <= 8 * |c.missing| + 3
    ensures !Final(states[|events|]) ==> exists e: Event :: !e.CancelParent? && Enabled(c, states[|events|], e)
  {
    RunLowers(c, states, events, |events|);
    assert forall n :: AtLeast(map[], n) == {};
    RunKeepsInv(c, states, events, |events|);
    if !Final(states[|events|]) {
      var e := Progress(c, states[|events|]);
      assert !e.CancelParent? && Enabled(c, states[|events|], e);
    }
  }

  // ----- after an error -----

  /** These steps lead from `s` to `t`. */
  ghost predicate Leads(c: Config, s: State, events: seq<Event>, t: State)
    decreases |events|
  {
    if events == [] then s == t else Enabled(c, s, events[0]) && Leads(c, Apply(c, s, events[0]), events[1..], t)
  }

  lemma LeadsFirst(c: Config, s: State, e: Event, events: seq<Event>, t: State)
    requires Enabled(c, s, e) && Leads(c, Apply(c, s, e), events, t)
    ensures Leads(c, s, [e] + events, t)
  {
    assert ([e] + events)[1..] == events;
  }

  lemma {:induction false} SpawnerReturns(c: Config, s: State, failed: bool) returns (events: seq<Event>, t: State)
    requires s.spawner == Returning(failed)
    ensures Leads(c, s, events, t) && t.spawner.Stopped? && t.workers == s.workers
  {
    events, t := [SpawnerStops], Apply(c, s, SpawnerStops);
    assert [SpawnerStops][1..] == [];
  }

  /** A spawner that waits for a permit stops waiting once a worker has failed or the caller has cancelled. */
  lemma StopsWaiting(c: Config, s: State) returns (events: seq<Event>, t: State)
    requires (s.failed || s.parentCancelled) && s.spawner.Acquiring?
    ensures Leads(c, s, events, t) && t.spawner.Stopped? && t.workers == s.workers
  {
    var s1 := Apply(c, s, AcquireFails);
    events, t := SpawnerReturns(c, s1, true);
    LeadsFirst(c, s, AcquireFails, events, t);
    events := [AcquireFails] + events;
  }

  lemma StopsPicking(c: Config, s: State) returns (events: seq<Event>, t: State)
    requires (s.failed || s.parentCancelled) && s.spawner.Picking?
    ensures Leads(c, s, events, t) && t.spawner.Stopped? && t.workers == s.workers
  {
    if s.todo == {} {
      events, t := SpawnerReturns(c, Apply(c, s, RangeEnds), false);
      LeadsFirst(c, s, RangeEnds, events, t);
      events := [RangeEnds] + events;
    } else {
      var key :| key in s.todo;
      events, t := StopsWaiting(c, Apply(c, s, Pick(key)));
      LeadsFirst(c, s, Pick(key), events, t);
      events := [Pick(key)] + events;
    }
  }

  /**
   Once a worker has failed or the caller has cancelled, the spawner can stop without starting another worker than
   the one it already has a permit for.
   */
  lemma FailsFast(c: Config, s: State) returns (events: seq<Event>, t: State)
    requires (s.failed || s.parentCancelled) && !s.spawner.Stopped?
    ensures Leads(c, s, events, t) && t.spawner.Stopped?
    ensures t.workers == if s.spawner.Launching? then s.workers[s.spawner.key := Loading] else s.workers
  {
    match s.spawner
    case Picking => events, t := StopsPicking(c, s);
    case Acquiring(_) => events, t := StopsWaiting(c, s);
    case Returning(failed) => events, t := SpawnerReturns(c, s, failed);
    case Launching(_) =>
      events, t := StopsPicking(c, Apply(c, s, Launch));
      LeadsFirst(c, s, Launch, events, t);
      events := [Launch] + events;
  }
}
