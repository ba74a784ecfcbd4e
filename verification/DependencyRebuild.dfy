/** DependencyManager.Build as a whole, and building the same chart again. */
module DependencyRebuild {
  import opened Wrappers
  import opened DependencyBuild
  import opened DependencyBuildProof

  /** The build of the dependencies of a chart that are missing from `current`. */
  ghost function BuildOf(current: seq<Chart>, reqs: seq<Dependency>, concurrent: int, load: Dependency -> Option<Chart>)
    : Config
  {
    Config(current, Missing(current, reqs), concurrent, load)
  }

  /** A completed build without an error. */
  ghost predicate Succeeds(c: Config, states: seq<State>, events: seq<Event>) {
    Run(c, states, events) && Final(states[|events|]) && !states[|events|].failed
  }

  /** The count Build returns, the size of the map, is the number of dependencies the chart has gained. */
  lemma CountIsGain(c: Config, states: seq<State>, events: seq<Event>)
    requires Succeeds(c, states, events)
    ensures |states[|events|].deps| == |c.current| + |c.missing|
  {
    BuildGains(c, states, events);
    DistinctKeys(states[|events|].added, c.missing.Keys);
    assert |multiset(states[|events|].added)| == |multiset(c.missing.Keys)|;
  }

  /** Nothing is found missing exactly when the counts are equal or every requested key is there. */
  lemma NothingMissing(current: seq<Chart>, reqs: seq<Dependency>)
    ensures Missing(current, reqs) == map[] <==>
            |current| == |reqs| || forall i :: 0 <= i < |reqs| ==> Named(current, Key(reqs[i]))
  {
    if |current| != |reqs| {
      if Missing(current, reqs) == map[] {
        forall i | 0 <= i < |reqs| ensures Named(current, Key(reqs[i])) {
          RequestedIsLast(reqs, Key(reqs[i]));
          assert Key(reqs[i]) !in Missing(current, reqs);
        }
      } else {
        var key :| key in Missing(current, reqs);
        RequestedIsLast(reqs, key);
      }
    }
  }

  /** Old and added charts are named afterwards, and no others. */
  lemma GainedNames(c: Config, deps: seq<Chart>, keys: seq<string>, name: string)
    requires Gained(c, deps, keys)
    ensures Named(c.current, name) ==> Named(deps, name)
    ensures forall i :: 0 <= i < |keys| && Loaded(c, keys[i]).name == name ==> Named(deps, name)
  {
    var n := |c.current|;
    if Named(c.current, name) {
      var i :| 0 <= i < n && c.current[i].name == name;
      assert deps[..n][i] == deps[i];
    }
    forall i | 0 <= i < |keys| && Loaded(c, keys[i]).name == name ensures Named(deps, name) {
      assert deps[n + i].name == name;
    }
  }

  lemma NamedBefore(c: Config, deps: seq<Chart>, keys: seq<string>, name: string)
    requires Gained(c, deps, keys) && Named(deps, name) && !Named(c.current, name)
    ensures exists i :: 0 <= i < |keys| && Loaded(c, keys[i]).name == name
  {
    var n := |c.current|;
    var i :| 0 <= i < |deps| && deps[i].name == name;
    assert forall j :: 0 <= j < n ==> deps[..n][j] == deps[j];
    assert i >= n;
    assert Loaded(c, keys[i-n]) == deps[i];
  }

  lemma NamesAfter(c: Config, states: seq<State>, events: seq<Event>, name: string)
    requires Succeeds(c, states, events)
    ensures Named(states[|events|].deps, name) <==>
            Named(c.current, name) || exists key :: key in c.missing && Loaded(c, key).name == name
  {
    BuildGains(c, states, events);
    var s := states[|events|];
    GainedNames(c, s.deps, s.added, name);
    if key :| key in c.missing && Loaded(c, key).name == name {
      assert key in s.added;
    } else if Named(s.deps, name) && !Named(c.current, name) {
      NamedBefore(c, s.deps, s.added, name);
    }
  }

  /** Every missing key is the name of some chart that is loaded. */
  ghost predicate NamesCovered(c: Config) {
    forall key :: key in c.missing ==> exists k :: k in c.missing && Loaded(c, k).name == key
  }

  /**
   After a build that succeeded, a second one finds nothing missing exactly when the counts have become equal
   or every missing key is the name of a chart that was loaded.
   */
  lemma SecondBuildIff(current: seq<Chart>, reqs: seq<Dependency>, concurrent: int, load: Dependency -> Option<Chart>,
                       states: seq<State>, events: seq<Event>)
    requires Succeeds(BuildOf(current, reqs, concurrent, load), states, events)
    ensures var c := BuildOf(current, reqs, concurrent, load);
      Missing(states[|events|].deps, reqs) == map[] <==> |current| + |c.missing| == |reqs| || NamesCovered(c)
  {
    var c := BuildOf(current, reqs, concurrent, load);
    var deps := states[|events|].deps;
    CountIsGain(c, states, events);
    NothingMissing(deps, reqs);
    if |deps| != |reqs| {
      if NamesCovered(c) {
        forall i | 0 <= i < |reqs| ensures Named(deps, Key(reqs[i])) {
          RequestedIsLast(reqs, Key(reqs[i]));
          NamesAfter(c, states, events, Key(reqs[i]));
          assert |current| != |reqs| ==> Named(current, Key(reqs[i])) || Key(reqs[i]) in c.missing;
        }
      } else {
        var key :| key in c.missing && forall k :: k in c.missing ==> Loaded(c, k).name != key;
        RequestedIsLast(reqs, key);
        NamesAfter(c, states, events, key);
      }
    }
  }

  /** In particular when the charts of requests without an alias carry the requested names. */
  lemma SecondBuildFindsNothing(current: seq<Chart>, reqs: seq<Dependency>, concurrent: int,
                                load: Dependency -> Option<Chart>, states: seq<State>, events: seq<Event>)
    requires Succeeds(BuildOf(current, reqs, concurrent, load), states, events)
    requires forall d :: d in reqs && d.alias == "" && load(d).Some? ==> load(d).value.name == d.name
    ensures Missing(states[|events|].deps, reqs) == map[]
  {
    var c := BuildOf(current, reqs, concurrent, load);
    SecondBuildIff(current, reqs, concurrent, load, states, events);
    BuildGains(c, states, events);
    forall key | key in c.missing ensures Loaded(c, key).name == key {
      RequestedIsLast(reqs, key);
      assert key in states[|events|].added;
    }
  }
}
