/**
 When a rule whose matcher rewrites itself makes loads inexact. The rule stands before the default one, and patterns
 without special characters match only themselves, as with filepath.Match.
 */
module UnstableRules {
  import opened Wrappers
  import opened FileTree
  import opened SymPath
  import opened SecureLoader
  import opened ChartNames
  import IgnoreRules

  type Rule = IgnoreRules.Rule
  type Glob = IgnoreRules.Glob

  /** A pattern without special characters. */
  predicate Plain(pattern: string) {
    forall c :: c in pattern ==> c != '*' && c != '?' && c != '[' && c != '\\'
  }

  /** Plain patterns match themselves only. */
  ghost predicate Literally(glob: Glob) {
    forall pattern, name :: Plain(pattern) ==> glob(pattern, name) == Some(pattern == name)
  }

  /** What is left of the text after enough calls. */
  function Bare(text: string): string {
    if IgnoreRules.HasPrefix(text, "/") then Bare(text[1..]) else text
  }

  lemma {:induction false} BareFacts(text: string)
    ensures !IgnoreRules.HasPrefix(Bare(text), "/")
    ensures Plain(text) ==> Plain(Bare(text))
    ensures forall c :: c in Bare(text) ==> c in text
  {
    if IgnoreRules.HasPrefix(text, "/") {
      assert forall c :: c in text[1..] ==> c in text;
      BareFacts(text[1..]);
    }
  }

  /** The default rule lets this path and all directories above it through. */
  predicate PassesDefault(glob: Glob, rel: Path) {
    forall i :: 0 < i <= |rel| ==> glob(IgnoreRules.DEFAULT_LINE, Slash(rel[..i])) != Some(true)
  }

  /** The path that the rule is about from its later calls on, if the loader ever asks for it. */
  predicate Targets(glob: Glob, r: Rule, rel: Path) {
    && rel != [] && ValidPath(rel) && Slash(rel) == Bare(r.rule)
    && PassesDefault(glob, rel)
    && (r.negate ==> |rel| == 1)
  }

  /** The rule has a doubled leading slash, and a path is left that the loader can ask for. */
  ghost predicate Harmful(glob: Glob, r: Rule) {
    !IgnoreRules.Stable(r) && exists rel :: Targets(glob, r, rel)
  }

  function RulesOf(r: Rule): seq<Rule> {
    [r, IgnoreRules.DEFAULT_RULE]
  }

  // ----- what the forms of a rule match -----

  lemma {:induction false} LaterText(r: Rule, calls: nat)
    requires r.kind.Anchored?
    ensures var l := IgnoreRules.Later(r, calls);
      l == r.(rule := l.rule) && Bare(l.rule) == Bare(r.rule) && |l.rule| <= |r.rule| && (forall c :: c in l.rule ==> c in r.rule)
    ensures |IgnoreRules.Later(r, calls).rule| + calls <= |r.rule| || IgnoreRules.Later(r, calls).rule == Bare(r.rule)
  {
    if calls > 0 {
      LaterText(r, calls - 1);
      var l := IgnoreRules.Later(r, calls - 1);
      BareFacts(r.rule);
    }
  }

  /** A form of the rule matches a path within the chart only if nothing but this path is left of the text. */
  lemma FormMatches(glob: Glob, r: Rule, calls: nat, rel: Path)
    requires Literally(glob) && Plain(r.rule) && !IgnoreRules.Stable(r) && rel != [] && ValidPath(rel)
    ensures var l := IgnoreRules.Later(r, calls);
      IgnoreRules.Matches(glob, l, Slash(rel)) <==> Slash(rel) == Bare(r.rule) && IgnoreRules.Stable(l)
  {
    LaterText(r, calls);
    var l := IgnoreRules.Later(r, calls);
    var text := IgnoreRules.TrimPrefix(l.rule, "/");
    assert forall c :: c in text ==> c in l.rule;
    assert glob(text, Slash(rel)) == Some(text == Slash(rel));
    SlashBegins(rel);
    BareFacts(r.rule);
  }

  lemma DefaultStays(later: Rule)
    requires IgnoreRules.LaterForm(IgnoreRules.DEFAULT_RULE, later)
    ensures later == IgnoreRules.DEFAULT_RULE
  {
    var n: nat :| IgnoreRules.Later(IgnoreRules.DEFAULT_RULE, n) == later;
    IgnoreRules.StableStays(IgnoreRules.DEFAULT_RULE, n);
  }

  // ----- harmless rules -----

  /** On a path other than the target all forms answer alike. */
  lemma OtherPathsSame(glob: Glob, r: Rule, rel: Path, isDir: bool)
    requires Literally(glob) && Plain(r.rule) && !IgnoreRules.Stable(r) && rel != [] && ValidPath(rel)
    requires Slash(rel) != Bare(r.rule)
    ensures IgnoreRules.SameAnswers(glob, RulesOf(r), Slash(rel), isDir)
  {
    forall q, later | q in RulesOf(r) && IgnoreRules.LaterForm(q, later)
      ensures IgnoreRules.Fires(glob, later, Slash(rel), isDir) == IgnoreRules.Fires(glob, q, Slash(rel), isDir)
    {
      if q == r {
        var n: nat :| IgnoreRules.Later(q, n) == later;
        LaterText(r, n);
        FormMatches(glob, r, n, rel);
        FormMatches(glob, r, 0, rel);
      } else {
        DefaultStays(later);
      }
    }
    IgnoreRules.SameFires(glob, RulesOf(r), Slash(rel), isDir);
  }

  /** What the default rule ignores is ignored. */
  lemma DefaultDecides(glob: Glob, r: Rule, name: string, isDir: bool)
    requires glob(IgnoreRules.DEFAULT_LINE, name) == Some(true)
    ensures IgnoreRules.SameAnswers(glob, RulesOf(r), name, isDir)
    ensures IgnoreRules.Ignored(glob, RulesOf(r), name, isDir) <==> !IgnoreRules.NeverIgnored(name)
  {
    assert IgnoreRules.DEFAULT_RULE in RulesOf(r) && IgnoreRules.Fires(glob, IgnoreRules.DEFAULT_RULE, name, isDir);
    forall later | IgnoreRules.Advanced(RulesOf(r), later)
      ensures IgnoreRules.Ignored(glob, later, name, isDir) <==> !IgnoreRules.NeverIgnored(name)
    {
      assert IgnoreRules.LaterForm(RulesOf(r)[1], later[1]);
      DefaultStays(later[1]);
      assert later[1] in later;
    }
  }

  /** A negated rule that matches nothing yet ignores all directories. */
  lemma NegatedIgnores(glob: Glob, r: Rule, rel: Path)
    requires Literally(glob) && Plain(r.rule) && !IgnoreRules.Stable(r) && r.negate && rel != [] && ValidPath(rel)
    ensures forall isDir :: IgnoreRules.Ignored(glob, RulesOf(r), Slash(rel), isDir)
  {
    FormMatches(glob, r, 0, rel);
    SlashBegins(rel);
    assert r in RulesOf(r);
    forall isDir ensures IgnoreRules.Fires(glob, r, Slash(rel), isDir) {
    }
  }

  ghost predicate Setting(c: Config, glob: Glob, r: Rule) {
    c.glob == glob && c.rules == RulesOf(r) && Literally(glob) && Plain(r.rule)
  }

  /** At the target a harmless rule is not asked, or the default rule decides. */
  lemma TargetSteady(c: Config, glob: Glob, r: Rule, rel: Path, isDir: bool)
    requires Setting(c, glob, r) && !IgnoreRules.Stable(r) && !Targets(glob, r, rel)
    requires rel != [] && ValidPath(rel) && Slash(rel) == Bare(r.rule)
    ensures Exposed(c, rel) ==> IgnoreRules.SameAnswers(glob, RulesOf(r), Slash(rel), isDir)
  {
    if i :| 0 < i <= |rel| && glob(IgnoreRules.DEFAULT_LINE, Slash(rel[..i])) == Some(true) {
      assert ValidPath(rel[..i]);
      SlashBegins(rel[..i]);
      DefaultDecides(glob, r, Slash(rel[..i]), true);
      if i == |rel| {
        assert rel[..i] == rel;
        DefaultDecides(glob, r, Slash(rel), isDir);
      } else {
        assert Ignored(c, rel[..i], true);
      }
    } else {
      assert r.negate && |rel| > 1;
      assert ValidPath(rel[..1]);
      NegatedIgnores(glob, r, rel[..1]);
      assert Ignored(c, rel[..1], true);
    }
  }

  lemma HarmlessIsSteady(c: Config, w: World, glob: Glob, r: Rule)
    requires Setting(c, glob, r) && !Harmful(glob, r) && w.root.Dir? && TreeNames(w.root)
    ensures SteadyLoad(c, w)
  {
    if IgnoreRules.Stable(r) {
      StableLoadsAreSteady(c, w);
    } else {
      forall e | e in LoadEvents(w, c.chart) ensures SteadyAt(c, e) {
        LoadNames(c, w, e);
        var rel := RelTo(c.chart, e.At());
        if Visits(e) && e.args.info.Some? && ExposedEvent(c, e) && rel != [] {
          var isDir := e.args.info.value.Dir?;
          if Slash(rel) == Bare(r.rule) {
            TargetSteady(c, glob, r, rel, isDir);
          } else {
            OtherPathsSame(glob, r, rel, isDir);
          }
        }
      }
    }
  }
}
