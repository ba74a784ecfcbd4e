/** Loads with a rule and the default one are exact, if and only if the rule is harmless. */
module RuleExactness {
  import opened Wrappers
  import opened FileTree
  import opened SymPath
  import opened SecureJoin
  import opened SecureLoader
  import opened ChartNames
  import opened UnstableRules
  import opened RuleTrap
  import IgnoreRules

  function Setup(glob: Glob, r: Rule): Config {
    Config(["r"], ["r"], 0, glob, RulesOf(r))
  }

  /** After so many questions, with nothing loaded. */
  function After(r: Rule, calls: nat): Loading {
    Loading([], [IgnoreRules.Later(r, calls), IgnoreRules.DEFAULT_RULE])
  }

  ghost predicate Bad(glob: Glob, r: Rule, rel: Path) {
    && Literally(glob) && Plain(r.rule) && !IgnoreRules.Stable(r)
    && Targets(glob, r, rel) && Printable(r.rule)
  }

  lemma BadIsTrapped(glob: Glob, r: Rule, rel: Path)
    requires Bad(glob, r, rel)
    ensures Trapped(rel)
  {
    SlashParts(rel);
    BareFacts(r.rule);
    forall c | c in rel[0] ensures c in r.rule {
      var i :| 0 <= i < |rel[0]| && rel[0][i] == c;
      assert Slash(rel)[i] == c;
    }
  }

  // ----- single calls of the visitor -----

  lemma AskAdvances(glob: Glob, r: Rule, calls: nat, name: string)
    requires !IgnoreRules.NeverIgnored(name)
    ensures IgnoreRules.AfterIgnore(glob, After(r, calls).rules, name, true) == After(r, calls + 1).rules
  {
    var l, d := IgnoreRules.Later(r, calls), IgnoreRules.DEFAULT_RULE;
    assert [l, d][1..] == [d] && [d][1..] == [];
    assert IgnoreRules.AfterRules(glob, [d], name, true) == [d];
    assert IgnoreRules.AfterRules(glob, [l, d], name, true)
        == [IgnoreRules.AfterCall(l)] + if IgnoreRules.Fires(glob, l, name, true) then [d] else [d];
  }

  lemma AskTrap(glob: Glob, r: Rule, calls: nat, rel: Path)
    requires rel != [] && ValidPath(rel)
    ensures Ask(Setup(glob, r), After(r, calls), rel, true)
         == (After(r, calls + 1), IgnoreRules.Ignored(glob, After(r, calls).rules, Slash(rel), true))
  {
    SlashBegins(rel);
    AskAdvances(glob, r, calls, Slash(rel));
  }

  /** A directory of the trap: the question uses up a slash, and the walk goes on. */
  lemma DirVisit(glob: Glob, r: Rule, w: World, rel: Path, info: Node, calls: nat)
    requires rel != [] && ValidPath(rel) && info.Dir? && LinkFree(w.root, ["r"] + rel)
    ensures var (st, out) := Visit(Setup(glob, r), w, After(r, calls), Args(["r"] + rel, ["r"] + rel, Some(info), None));
      && st == After(r, calls + 1)
      && out == if IgnoreRules.Ignored(glob, After(r, calls).rules, Slash(rel), true) then SkipDir else Continue
  {
    var p := ["r"] + rel;
    AskTrap(glob, r, calls, rel);
    SecureIffBelowRoot(w, ["r"], p);
    assert p[..1] == ["r"] && RelTo(["r"], p) == rel;
  }

  /** Before the target the rule matches nothing. */
  lemma PassesOn(glob: Glob, r: Rule, rel: Path, j: nat, calls: nat)
    requires Bad(glob, r, rel) && !r.negate && 0 < j < |rel|
    ensures !IgnoreRules.Ignored(glob, After(r, calls).rules, Slash(rel[..j]), true)
  {
    assert ValidPath(rel[..j]);
    FormMatches(glob, r, calls, rel[..j]);
    LaterText(r, calls);
    if Slash(rel[..j]) == Slash(rel) {
      SlashInjective(rel[..j], rel);
    }
  }

  /** At the target it matches, after enough calls. */
  lemma TargetMatches(glob: Glob, r: Rule, rel: Path, calls: nat)
    requires Bad(glob, r, rel) && calls > |r.rule|
    ensures IgnoreRules.Ignored(glob, After(r, calls).rules, Slash(rel), true) <==> !r.negate
  {
    LaterText(r, calls);
    BareFacts(r.rule);
    FormMatches(glob, r, calls, rel);
    SlashBegins(rel);
    assert rel[..|rel|] == rel;
    assert IgnoreRules.Later(r, calls) in After(r, calls).rules;
  }

  /** At first it does not. */
  lemma TargetFirst(glob: Glob, r: Rule, rel: Path, j: nat, isDir: bool)
    requires Bad(glob, r, rel) && 0 < j <= |rel|
    ensures IgnoreRules.Ignored(glob, RulesOf(r), Slash(rel[..j]), isDir) <==> r.negate
  {
    assert ValidPath(rel[..j]);
    FormMatches(glob, r, 0, rel[..j]);
    SlashBegins(rel[..j]);
    assert r in RulesOf(r);
  }

  lemma OutsideIsNotSecure(rel: Path, n: nat)
    requires rel != []
    ensures !IsSecure(Trap(rel, n), ["r"], ["o"])
  {
    TrapTop(rel, n);
    SecureIffBelowRoot(Trap(rel, n), ["r"], ["o"]);
    assert ["o"][0] != ["r"][0];
  }

  lemma LastVisit(glob: Glob, r: Rule, rel: Path, n: nat, calls: nat)
    requires Bad(glob, r, rel) && calls > |r.rule|
    ensures var (st, out) := Visit(Setup(glob, r), Trap(rel, n), After(r, calls), LastEvent(rel).args);
      && st == After(r, calls + 1)
      && (if r.negate then out.Failed? else out == SkipDir)
  {
    AskTrap(glob, r, calls, rel);
    TargetMatches(glob, r, rel, calls);
    OutsideIsNotSecure(rel, n);
    assert RelTo(["r"], ["r"] + rel) == rel;
  }

  // ----- the walk of the trap -----

  function EarlyVisit(i: nat): Event {
    VisitEvent(["r", Early(i)], ["r", Early(i)], Empty, false)
  }

  /** A directory that comes first costs one more question, and nothing fails. */
  ghost predicate TakesEarly(visit: WalkFn<Loading>, r: Rule, n: nat) {
    forall i: nat :: i < n ==>
      visit(After(r, i), EarlyVisit(i + 1).args).0 == After(r, i + 1) && !visit(After(r, i), EarlyVisit(i + 1).args).1.Failed?
  }

  lemma TrapTakesOne(glob: Glob, r: Rule, rel: Path, n: nat, i: nat)
    requires Trapped(rel) && i < n
    ensures var (st, out) := Visit(Setup(glob, r), Trap(rel, n), After(r, i), EarlyVisit(i + 1).args);
      st == After(r, i + 1) && !out.Failed?
  {
    EarlyValid(i + 1);
    EarlyPreorder(rel, n, i + 1);
    assert ["r"] + [Early(i + 1)] == ["r", Early(i + 1)];
    DirVisit(glob, r, Trap(rel, n), [Early(i + 1)], Empty, i);
  }

  lemma TrapTakesEarly(glob: Glob, r: Rule, rel: Path, n: nat)
    requires Trapped(rel)
    ensures TakesEarly(VisitFn(Setup(glob, r), Trap(rel, n)), r, n)
  {
    var visit := VisitFn(Setup(glob, r), Trap(rel, n));
    forall i: nat | i < n
      ensures visit(After(r, i), EarlyVisit(i + 1).args).0 == After(r, i + 1)
      ensures !visit(After(r, i), EarlyVisit(i + 1).args).1.Failed?
    {
      TrapTakesOne(glob, r, rel, n, i);
    }
  }

  lemma {:induction false} ProcessEarly(visit: WalkFn<Loading>, r: Rule, rel: Path, n: nat, i: nat)
    requires Trapped(rel) && TakesEarly(visit, r, n) && i <= n
    ensures Process(ChildEvents(rel, n, i), visit, After(r, i)) == Process(ChildEvents(rel, n, n), visit, After(r, n))
    decreases n - i
  {
    if i < n {
      NextEarly(rel, n, i);
      ProcessHead(EarlyVisit(i + 1), ChildEvents(rel, n, i + 1), visit, After(r, i));
      ProcessEarly(visit, r, rel, n, i + 1);
    }
  }

  /** One call, if nothing that follows is skipped with it. */
  lemma ProcessHead<S>(e: Event, rest: seq<Event>, visit: WalkFn<S>, st: S)
    requires e.Call? && Drop(rest, e.scope) == rest && !visit(st, e.args).1.Failed?
    ensures Process([e] + rest, visit, st) == Process(rest, visit, visit(st, e.args).0)
  {
    assert ([e] + rest)[1..] == rest;
  }

  lemma ProcessContinue<S>(e: Event, rest: seq<Event>, visit: WalkFn<S>, st: S)
    requires e.Call? && visit(st, e.args).1 == Continue
    ensures Process([e] + rest, visit, st) == Process(rest, visit, visit(st, e.args).0)
  {
    assert ([e] + rest)[1..] == rest;
  }

  /** Along the path from the directory of `rel[..j]` on, to the link. */
  function PathEvents(rel: Path, j: nat): seq<Event>
    requires 0 < j <= |rel|
    decreases |rel| - j
  {
    if j == |rel| then [LastEvent(rel)]
    else [VisitEvent(Inside(rel, j), Inside(rel, j), Nest(rel, j), false)] + PathEvents(rel, j + 1)
  }

  lemma {:induction false} NestEvents(rel: Path, n: nat, j: nat)
    requires 0 < j <= |rel| && Located(Trap(rel, n), Inside(rel, j), Nest(rel, j))
    ensures Preorder(Trap(rel, n), Inside(rel, j), Inside(rel, j), Nest(rel, j), false) == PathEvents(rel, j)
    decreases |rel| - j
  {
    if j == |rel| {
      LastPreorder(rel, n);
    } else {
      NestPreorder(rel, n, j);
      NestEvents(rel, n, j + 1);
    }
  }

  lemma NestVisit(glob: Glob, r: Rule, rel: Path, n: nat, j: nat, calls: nat)
    requires Bad(glob, r, rel) && !r.negate && 0 < j < |rel|
    ensures var w, p := Trap(rel, n), Inside(rel, j);
      VisitFn(Setup(glob, r), w)(After(r, calls), VisitEvent(p, p, Nest(rel, j), false).args) == (After(r, calls + 1), Continue)
  {
    NestLocated(rel, n, j);
    assert ValidPath(rel[..j]);
    DirVisit(glob, r, Trap(rel, n), rel[..j], Nest(rel, j), calls);
    PassesOn(glob, r, rel, j, calls);
  }

  /** The directories of the path are passed, each with one more question, and the link is not, if asked late enough. */
  ghost predicate TakesPath(visit: WalkFn<Loading>, r: Rule, rel: Path) {
    && (forall j, calls :: 0 < j < |rel| && calls > |r.rule| ==> PassesDir(visit, r, rel, j, calls))
    && (forall calls: nat :: calls > |r.rule| ==> (visit(After(r, calls), LastEvent(rel).args).1.Failed? <==> r.negate))
  }

  ghost predicate PassesDir(visit: WalkFn<Loading>, r: Rule, rel: Path, j: nat, calls: nat)
    requires 0 < j < |rel|
  {
    visit(After(r, calls), VisitEvent(Inside(rel, j), Inside(rel, j), Nest(rel, j), false).args)
    == (After(r, calls + 1), Continue)
  }

  /** Along the path to the link, with the rule bare. */
  lemma {:induction false} ProcessPath(visit: WalkFn<Loading>, r: Rule, rel: Path, j: nat, calls: nat)
    requires TakesPath(visit, r, rel) && calls > |r.rule| && 0 < j <= |rel|
    ensures Process(PathEvents(rel, j), visit, After(r, calls)).1.Failed? <==> r.negate
    decreases |rel| - j
  {
    if j == |rel| {
      assert [LastEvent(rel)][1..] == [];
    } else {
      assert PassesDir(visit, r, rel, j, calls);
      ProcessContinue(VisitEvent(Inside(rel, j), Inside(rel, j), Nest(rel, j), false), PathEvents(rel, j + 1),
                      visit, After(r, calls));
      ProcessPath(visit, r, rel, j + 1, calls + 1);
    }
  }

  lemma TrapTakesPath(glob: Glob, r: Rule, rel: Path, n: nat)
    requires Bad(glob, r, rel)
    ensures TakesPath(VisitFn(Setup(glob, r), Trap(rel, n)), r, rel)
  {
    var visit := VisitFn(Setup(glob, r), Trap(rel, n));
    forall j: nat, calls: nat | 0 < j < |rel| && calls > |r.rule| ensures PassesDir(visit, r, rel, j, calls) {
      NestVisit(glob, r, rel, n, j, calls);
    }
    forall calls: nat | calls > |r.rule|
      ensures visit(After(r, calls), LastEvent(rel).args).1.Failed? <==> r.negate
    {
      LastVisit(glob, r, rel, n, calls);
    }
  }

  lemma TopVisit(c: Config, w: World, st: Loading, info: Node)
    ensures VisitFn(c, w)(st, VisitEvent(c.chart, c.chart, info, false).args) == (st, Continue)
  {
  }

  /** The load of the trap fails exactly if the rule is a negated one. */
  lemma ProcessTrap(glob: Glob, r: Rule, rel: Path, n: nat)
    requires Bad(glob, r, rel) && n > |r.rule|
    ensures var w, c := Trap(rel, n), Setup(glob, r);
      Process(LoadEvents(w, ["r"]), VisitFn(c, w), Loading([], c.rules)).1.Failed? <==> r.negate
  {
    var w, c := Trap(rel, n), Setup(glob, r);
    BadIsTrapped(glob, r, rel);
    TrapEvents(rel, n);
    TopVisit(c, w, After(r, 0), Chart(rel, n));
    ProcessContinue(VisitEvent(["r"], ["r"], Chart(rel, n), false), ChildEvents(rel, n, 0), VisitFn(c, w), After(r, 0));
    TrapTakesEarly(glob, r, rel, n);
    ProcessEarly(VisitFn(c, w), r, rel, n, 0);
    LastChild(rel, n);
    NestEvents(rel, n, 1);
    TrapTakesPath(glob, r, rel, n);
    ProcessPath(VisitFn(c, w), r, rel, 1, n);
  }

  // ----- what should have happened -----

  /** Everything that the walk meets, in order: the chart, the directories that come first, and the path. */
  lemma {:induction false} EarlyCalls(rel: Path, n: nat, i: nat)
    requires Trapped(rel) && i <= n && |rel| == 1
    ensures forall e :: e in ChildEvents(rel, n, i) ==> Visits(e)
    decreases n - i
  {
    if i < n {
      NextEarly(rel, n, i);
      EarlyCalls(rel, n, i + 1);
    } else {
      LastChild(rel, n);
      LastPreorder(rel, n);
    }
  }

  /** A negated rule ignores all of it at first. */
  lemma NothingOffends(glob: Glob, r: Rule, rel: Path, n: nat)
    requires Bad(glob, r, rel) && r.negate
    ensures !SomeOffends(Setup(glob, r), LoadEvents(Trap(rel, n), ["r"]))
  {
    var c, w := Setup(glob, r), Trap(rel, n);
    BadIsTrapped(glob, r, rel);
    TrapEvents(rel, n);
    EarlyCalls(rel, n, 0);
    TrapNames(rel, n);
    forall e | e in LoadEvents(w, ["r"]) ensures !Offends(c, e) {
      LoadNames(c, w, e);
      assert Visits(e);
      var p := RelTo(["r"], e.At());
      if p != [] {
        NegatedIgnores(glob, r, p);
      }
    }
  }

  lemma {:induction false} LastInPath(rel: Path, j: nat)
    requires 0 < j <= |rel|
    ensures LastEvent(rel) in PathEvents(rel, j)
    decreases |rel| - j
  {
    if j < |rel| {
      LastInPath(rel, j + 1);
    }
  }

  lemma {:induction false} LastInChildren(rel: Path, n: nat, i: nat)
    requires Trapped(rel) && i <= n
    ensures LastEvent(rel) in ChildEvents(rel, n, i)
    decreases n - i
  {
    if i < n {
      NextEarly(rel, n, i);
      LastInChildren(rel, n, i + 1);
    } else {
      LastChild(rel, n);
      NestEvents(rel, n, 1);
      LastInPath(rel, 1);
    }
  }

  /** Another rule ignores nothing of it at first, and the path leads out of the chart. */
  lemma SomethingOffends(glob: Glob, r: Rule, rel: Path, n: nat)
    requires Bad(glob, r, rel) && !r.negate
    ensures SomeOffends(Setup(glob, r), LoadEvents(Trap(rel, n), ["r"]))
  {
    BadIsTrapped(glob, r, rel);
    TrapEvents(rel, n);
    LastInChildren(rel, n, 0);
    var c, e := Setup(glob, r), LastEvent(rel);
    assert RelTo(["r"], e.At()) == rel && rel[..|rel|] == rel;
    forall i | 0 < i <= |rel| ensures !Ignored(c, rel[..i], true) {
      TargetFirst(glob, r, rel, i, true);
    }
    assert ["o"][0] != ["r"][0];
    assert Offends(c, e);
  }

  /** A harmful rule makes the load of its trap inexact. */
  lemma HarmfulIsInexact(glob: Glob, r: Rule, rel: Path)
    requires Bad(glob, r, rel)
    ensures !Exact(Setup(glob, r), Trap(rel, |r.rule| + 1))
  {
    var n := |r.rule| + 1;
    ProcessTrap(glob, r, rel, n);
    if r.negate {
      NothingOffends(glob, r, rel, n);
    } else {
      SomethingOffends(glob, r, rel, n);
    }
  }

  // ----- the exact condition -----

  /** A load of a chart with valid names, under this rule and the default one. */
  ghost predicate Realistic(c: Config, w: World, glob: Glob, r: Rule) {
    && w.root.Dir? && TreeNames(w.root) && NoLinks(w.root, c.chart)
    && c.glob == glob && c.rules == RulesOf(r)
  }

  /**
   All loads with a rule of plain characters and the default rule are exact, if and only if the rule has no doubled
   leading slash, or the loader never asks it for the path that is left.
   */
  lemma ExactIffHarmless(glob: Glob, r: Rule)
    requires Literally(glob) && Plain(r.rule) && Printable(r.rule)
    ensures (forall w: World, c: Config | Realistic(c, w, glob, r) :: Exact(c, w)) <==> !Harmful(glob, r)
  {
    if Harmful(glob, r) {
      var rel :| Targets(glob, r, rel);
      var w, c := Trap(rel, |r.rule| + 1), Setup(glob, r);
      BadIsTrapped(glob, r, rel);
      TrapNames(rel, |r.rule| + 1);
      HarmfulIsInexact(glob, r, rel);
      assert Realistic(c, w, glob, r) && !Exact(c, w);
    } else {
      forall w: World, c: Config | Realistic(c, w, glob, r) ensures Exact(c, w) {
        HarmlessIsSteady(c, w, glob, r);
        LoadIsExact(c, w);
      }
    }
  }

  /** A rule like `//b`. */
  function Doubled(name: Name): Rule {
    IgnoreRules.Rule(IgnoreRules.Anchored, "//" + name, false, false)
  }

  lemma DoubledFacts(name: Name)
    requires ValidName(name)
    ensures Bare(Doubled(name).rule) == name && !IgnoreRules.Stable(Doubled(name))
  {
    var text, rest := "//" + name, "/" + name;
    assert name[0] in name && Bare(name) == name;
    assert rest[0] == '/' && rest[1..] == name && Bare(rest) == Bare(name);
    assert text[0] == '/' && text[1..] == rest && Bare(text) == Bare(rest);
  }

  /** It makes the load of its trap inexact, whatever name it bears, unless the default rule ignores that. */
  lemma DoubledIsInexact(glob: Glob, name: Name)
    requires Literally(glob) && ValidName(name) && Plain(name) && Printable(name)
    requires glob(IgnoreRules.DEFAULT_LINE, name) != Some(true)
    ensures !Exact(Setup(glob, Doubled(name)), Trap([name], |name| + 3))
  {
    DoubledIsBad(glob, name);
    HarmfulIsInexact(glob, Doubled(name), [name]);
    assert |Doubled(name).rule| + 1 == |name| + 3;
  }

  lemma DoubledIsBad(glob: Glob, name: Name)
    requires Literally(glob) && ValidName(name) && Plain(name) && Printable(name)
    requires glob(IgnoreRules.DEFAULT_LINE, name) != Some(true)
    ensures Bad(glob, Doubled(name), [name])
  {
    DoubledFacts(name);
    var rel: Path := [name];
    assert forall c :: c in Doubled(name).rule ==> c == '/' || c in name;
    assert rel[..1] == rel && Slash(rel) == name;
  }

  /** With nothing left behind the slashes a rule is harmless, however many there are. */
  lemma OnlySlashes(glob: Glob, r: Rule)
    requires forall c :: c in r.rule ==> c == '/'
    ensures !Harmful(glob, r)
  {
    BareFacts(r.rule);
    if rel :| Targets(glob, r, rel) {
      SlashBegins(rel);
      var c := Slash(rel)[0];
      assert c in Bare(r.rule) && c in r.rule;
    }
  }
}
