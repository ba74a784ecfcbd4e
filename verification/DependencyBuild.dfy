/**
 Building the missing dependencies of a chart, internal/helm/chart/dependency_manager.go: which ones are
 missing, and the group of workers that loads them. A spawner takes a permit of a weighted semaphore for each
 missing dependency and starts a worker, which adds the loaded chart under a lock and gives the permit back;
 the first error cancels the group.
 */
module DependencyBuild {
  import opened Wrappers

  datatype Chart = Chart(name: string, content: string)

  datatype Dependency = Dependency(name: string, alias: string, version: string, repository: string)

  /** What a dependency is indexed by. */
  function Key(d: Dependency): string {
    if d.alias != "" then d.alias else d.name
  }

  ghost predicate Named(charts: seq<Chart>, name: string) {
    exists i :: 0 <= i < |charts| && charts[i].name == name
  }

  /** For every key the last request with it. */
  function Requested(reqs: seq<Dependency>): map<string, Dependency> {
    if reqs == [] then map[]
    else Requested(reqs[..|reqs|-1])[Key(reqs[|reqs|-1]) := reqs[|reqs|-1]]
  }

  ghost function Missing(current: seq<Chart>, reqs: seq<Dependency>): map<string, Dependency> {
    if |current| == |reqs| then map[]
    else map key | key in Requested(reqs) && !Named(current, key) :: Requested(reqs)[key]
  }

  method CollectMissing(current: seq<Chart>, reqs: seq<Dependency>) returns (missing: map<string, Dependency>)
    ensures missing == Missing(current, reqs)
  {
    missing := map[];
    if |current| == |reqs| {
      return;
    }
    for i := 0 to |reqs|
      invariant missing == map key | key in Requested(reqs[..i]) && !Named(current, key) :: Requested(reqs[..i])[key]
    {
      assert reqs[..i+1][..i] == reqs[..i];
      var name := reqs[i].name;
      if reqs[i].alias != "" {
        name := reqs[i].alias;
      }
      var found := false;
      for j := 0 to |current|
        invariant found <==> exists k :: 0 <= k < j && current[k].name == name
      {
        if current[j].name == name {
          found := true;
        }
      }
      assert found == Named(current, name);
      if found {
        continue;
      }
      missing := missing[name := reqs[i]];
    }
    assert reqs[..|reqs|] == reqs;
  }

  /** The request found for a key is the last one with that key, and every requested key is found. */
  lemma {:induction false} RequestedIsLast(reqs: seq<Dependency>, key: string)
    ensures key in Requested(reqs) <==> exists i :: 0 <= i < |reqs| && Key(reqs[i]) == key
    ensures key in Requested(reqs) ==> exists i ::
      && 0 <= i < |reqs| && reqs[i] == Requested(reqs)[key] && Key(reqs[i]) == key
      && forall j :: i < j < |reqs| ==> Key(reqs[j]) != key
  {
    if reqs != [] {
      var n := |reqs| - 1;
      RequestedIsLast(reqs[..n], key);
      if Key(reqs[n]) == key {
        assert reqs[n] == Requested(reqs)[key];
      } else if key in Requested(reqs) {
        var i :| 0 <= i < n && reqs[..n][i] == Requested(reqs)[key] && Key(reqs[..n][i]) == key
          && forall j :: i < j < n ==> Key(reqs[..n][j]) != key;
        assert reqs[i] == Requested(reqs)[key];
        assert forall j :: i < j < n ==> Key(reqs[j]) == Key(reqs[..n][j]);
      } else {
        assert forall i :: 0 <= i < n ==> reqs[i] == reqs[..n][i];
      }
    }
  }

  /** What the build is given: the missing dependencies, the configured concurrency, and how a dependency loads. */
  datatype Config = Config(
    current: seq<Chart>,
    missing: map<string, Dependency>,
    concurrent: int,
    load: Dependency -> Option<Chart>)

  function Permits(c: Config): nat {
    if c.concurrent <= 0 then 1 else c.concurrent
  }

  /** The chart a key adds: an alias replaces its name. */
  function Loads(c: Config, key: string): Option<Chart>
    requires key in c.missing
  {
    var d := c.missing[key];
    match c.load(d)
    case None => None
    case Some(ch) => Some(if d.alias != "" then ch.(name := d.alias) else ch)
  }

  datatype Phase =
    | Loading
    | Adding(chart: Chart)
    | Finished(failed: bool)  // about to release the permit
    | Released(failed: bool)  // about to return to the group
    | Gone(failed: bool)

  datatype Spawner =
    | Picking
    | Acquiring(key: string)
    | Launching(key: string)  // has the permit, is about to start the worker
    | Returning(failed: bool)
    | Stopped(failed: bool)

  datatype State = State(
    todo: set<string>,
    spawner: Spawner,
    workers: map<string, Phase>,
    held: int,
    parentCancelled: bool,
    failed: bool,
    deps: seq<Chart>,
    added: seq<string>)  // the keys behind the new elements of deps, in the order of the lock

  datatype Event =
    | Pick(key: string)
    | RangeEnds
    | Acquire
    | AcquireFails
    | Launch
    | SpawnerStops
    | Load(key: string)
    | Add(key: string)
    | Release(key: string)
    | Leave(key: string)
    | CancelParent

  function Init(c: Config): State {
    State(c.missing.Keys, Picking, map[], 0, false, false, c.current, [])
  }

  /** The context of the group is done. */
  predicate Cancelled(s: State) {
    s.failed || s.parentCancelled
  }

  predicate Enabled(c: Config, s: State, e: Event) {
    match e
    case Pick(key) => s.spawner.Picking? && key in s.todo
    case RangeEnds => s.spawner.Picking? && s.todo == {}
    case Acquire => s.spawner.Acquiring? && s.held < Permits(c)
    case AcquireFails => s.spawner.Acquiring? && Cancelled(s)
    case Launch => s.spawner.Launching?
    case SpawnerStops => s.spawner.Returning?
    case Load(key) => key in c.missing && key in s.workers && s.workers[key].Loading?
    case Add(key) => key in s.workers && s.workers[key].Adding?
    case Release(key) => key in s.workers && s.workers[key].Finished?
    case Leave(key) => key in s.workers && s.workers[key].Released?
    case CancelParent => !s.parentCancelled
  }

  function Apply(c: Config, s: State, e: Event): State
    requires Enabled(c, s, e)
  {
    match e
    case Pick(key) => s.(todo := s.todo - {key}, spawner := Acquiring(key))
    case RangeEnds => s.(spawner := Returning(false))
    case Acquire => s.(held := s.held + 1, spawner := Launching(s.spawner.key))
    case AcquireFails => s.(spawner := Returning(true))
    case Launch => s.(workers := s.workers[s.spawner.key := Loading], spawner := Picking)
    case SpawnerStops => s.(failed := s.failed || s.spawner.failed, spawner := Stopped(s.spawner.failed))
    case Load(key) =>
      s.(workers := s.workers[key := if Loads(c, key).Some? then Adding(Loads(c, key).value) else Finished(true)])
    case Add(key) =>
      s.(workers := s.workers[key := Finished(false)],
         deps := s.deps + [s.workers[key].chart],
         added := s.added + [key])
    case Release(key) => s.(workers := s.workers[key := Released(s.workers[key].failed)], held := s.held - 1)
    case Leave(key) =>
      s.(workers := s.workers[key := Gone(s.workers[key].failed)], failed := s.failed || s.workers[key].failed)
    case CancelParent => s.(parentCancelled := true)
  }

  /** group.Wait returns: every goroutine of the group has. */
  predicate Final(s: State) {
    s.spawner.Stopped? && forall key :: key in s.workers ==> s.workers[key].Gone?
  }
}
