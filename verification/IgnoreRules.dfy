/** The ignore-rule engine of internal/helm/chart/secureloader/ignore/rules.go. */
module IgnoreRules {
  import opened Wrappers

  /** filepath.Match: `None` is a malformed pattern. */
  type Glob = (string, string) -> Option<bool>

  datatype Kind =
    | Anchored     // began with a slash: matches from the chart root
    | Structural   // has a slash: matches the whole path
    | Basename     // has none: matches the last element of the path

  /** A parsed rule; `rule` is the captured variable of its matcher. */
  datatype Rule = Rule(kind: Kind, rule: string, negate: bool, mustDir: bool)

  // ----- strings -----

  predicate HasPrefix(s: string, prefix: string) {
    prefix <= s
  }

  predicate HasSuffix(s: string, suffix: string) {
    |suffix| <= |s| && s[|s|-|suffix|..] == suffix
  }

  function TrimPrefix(s: string, prefix: string): string {
    if HasPrefix(s, prefix) then s[|prefix|..] else s
  }

  function TrimSuffix(s: string, suffix: string): string {
    if HasSuffix(s, suffix) then s[..|s|-|suffix|] else s
  }

  predicate Contains(s: string, sub: string) {
    exists i :: 0 <= i <= |s| && HasPrefix(s[i..], sub)
  }

  predicate IsSpace(c: char) {
    c == ' ' || c == '\t' || c == '\n' || c == '\U{0B}' || c == '\U{0C}' || c == '\r' || c == '\U{85}' || c == '\U{A0}'
  }

  function TrimSpace(s: string): string {
    if s != "" && IsSpace(s[0]) then TrimSpace(s[1..])
    else if s != "" && IsSpace(s[|s|-1]) then TrimSpace(s[..|s|-1])
    else s
  }

  function TrimTrailingSlashes(s: string): string {
    if s != "" && s[|s|-1] == '/' then TrimTrailingSlashes(s[..|s|-1]) else s
  }

  function AfterLastSlash(s: string): string {
    if s == "" || s[|s|-1] == '/' then "" else AfterLastSlash(s[..|s|-1]) + [s[|s|-1]]
  }

  /** filepath.Base. */
  function Base(s: string): string {
    if s == "" then "."
    else
      var t := TrimTrailingSlashes(s);
      if t == "" then "/" else AfterLastSlash(t)
  }

  // ----- matching -----

  /** What one call of the matcher answers. */
  predicate Matches(glob: Glob, r: Rule, name: string) {
    match r.kind
    case Anchored => glob(TrimPrefix(r.rule, "/"), name) == Some(true)
    case Structural => glob(r.rule, name) == Some(true)
    case Basename => glob(r.rule, Base(name)) == Some(true)
  }

  /** The anchored matcher assigns its captured rule on every call. */
  function AfterCall(r: Rule): Rule {
    if r.kind.Anchored? then r.(rule := TrimPrefix(r.rule, "/")) else r
  }

  /** The rule had no doubled leading slash. */
  predicate Stable(r: Rule) {
    r.kind.Anchored? ==> !HasPrefix(TrimPrefix(r.rule, "/"), "/")
  }

  /** A rule makes Ignore answer true. */
  predicate Fires(glob: Glob, r: Rule, path: string, isDir: bool) {
    if r.negate then (r.mustDir && !isDir) || !Matches(glob, r, path)
    else (r.mustDir ==> isDir) && Matches(glob, r, path)
  }

  predicate NeverIgnored(path: string) {
    path == "" || path == "." || path == "./"
  }

  /** What Ignore answers: some rule fires. */
  predicate Ignored(glob: Glob, rules: seq<Rule>, path: string, isDir: bool) {
    !NeverIgnored(path) && exists r :: r in rules && Fires(glob, r, path, isDir)
  }

  /** A rule that Ignore has looked at; one for directories is decided without its matcher on anything else. */
  function Asked(r: Rule, isDir: bool): Rule {
    if r.mustDir && !isDir then r else AfterCall(r)
  }

  /** What Ignore leaves of the rules: it looks at them in order up to the first that fires. */
  function AfterIgnore(glob: Glob, rules: seq<Rule>, path: string, isDir: bool): seq<Rule> {
    if NeverIgnored(path) then rules else AfterRules(glob, rules, path, isDir)
  }

  function AfterRules(glob: Glob, rules: seq<Rule>, path: string, isDir: bool): (after: seq<Rule>)
    ensures |after| == |rules|
  {
    if rules == [] then []
    else
      [Asked(rules[0], isDir)]
      + if Fires(glob, rules[0], path, isDir) then rules[1..] else AfterRules(glob, rules[1..], path, isDir)
  }

  lemma {:induction false} AfterRulesAt(glob: Glob, rules: seq<Rule>, path: string, isDir: bool, n: nat, i: nat)
    requires n <= |rules| && forall k :: 0 <= k < n ==> !Fires(glob, rules[k], path, isDir)
    requires n < |rules| ==> Fires(glob, rules[n], path, isDir)
    requires i < |rules|
    ensures AfterRules(glob, rules, path, isDir)[i] == if i <= n then Asked(rules[i], isDir) else rules[i]
    decreases |rules|
  {
    if n > 0 && i > 0 {
      AfterRulesAt(glob, rules[1..], path, isDir, n - 1, i - 1);
    }
  }

  /** A rule answers the same on every call, for every glob, exactly if it has no doubled leading slash. */
  lemma StableIffSameAnswers(r: Rule)
    ensures Stable(r) <==> forall glob: Glob, name :: Matches(glob, r, name) == Matches(glob, AfterCall(r), name)
  {
    if !Stable(r) {
      var literal: Glob := (p, n) => Some(p == n);
      var name := AfterCall(AfterCall(r)).rule;
      assert Matches(literal, AfterCall(r), name);
      assert AfterCall(r).rule != name;
      assert !Matches(literal, r, name);
    }
  }

  /** Once called, a stable rule does not change any more. */
  lemma StableIsFixed(r: Rule)
    requires Stable(r)
    ensures AfterCall(AfterCall(r)) == AfterCall(r) && Stable(AfterCall(r))
  {
  }

  // ----- what follows for rule sets -----

  lemma OrderIsIrrelevant(glob: Glob, rules: seq<Rule>, others: seq<Rule>, path: string, isDir: bool)
    requires multiset(rules) == multiset(others)
    ensures Ignored(glob, rules, path, isDir) == Ignored(glob, others, path, isDir)
  {
    assert forall r :: r in rules <==> r in multiset(rules);
    assert forall r :: r in others <==> r in multiset(others);
  }

  /** Adding rules anywhere never un-ignores a path. */
  lemma MoreRulesIgnoreMore(glob: Glob, before: seq<Rule>, added: seq<Rule>, after: seq<Rule>, path: string, isDir: bool)
    requires Ignored(glob, before + after, path, isDir)
    ensures Ignored(glob, before + added + after, path, isDir)
  {
    var r :| r in before + after && Fires(glob, r, path, isDir);
    assert r in before + added + after;
  }

  // ----- the documented meaning -----

  /** The rule applies to the path. */
  predicate Applies(glob: Glob, r: Rule, path: string, isDir: bool) {
    (r.mustDir ==> isDir) && Matches(glob, r, path)
  }

  /** What Ignore is documented to answer: the first rule that applies decides, a negative one against ignoring. */
  predicate Documented(glob: Glob, rules: seq<Rule>, path: string, isDir: bool) {
    !NeverIgnored(path) && FirstDecides(glob, rules, path, isDir)
  }

  predicate FirstDecides(glob: Glob, rules: seq<Rule>, path: string, isDir: bool) {
    rules != [] &&
    if Applies(glob, rules[0], path, isDir) then !rules[0].negate else FirstDecides(glob, rules[1..], path, isDir)
  }

  lemma {:induction false} DecidedByOne(glob: Glob, rules: seq<Rule>, path: string, isDir: bool)
    requires FirstDecides(glob, rules, path, isDir)
    ensures exists r :: r in rules && Fires(glob, r, path, isDir)
  {
    if Applies(glob, rules[0], path, isDir) {
      assert rules[0] in rules && Fires(glob, rules[0], path, isDir);
    } else {
      DecidedByOne(glob, rules[1..], path, isDir);
    }
  }

  /** What is documented to be ignored is ignored. */
  lemma DocumentedIsIgnored(glob: Glob, rules: seq<Rule>, path: string, isDir: bool)
    requires Documented(glob, rules, path, isDir)
    ensures Ignored(glob, rules, path, isDir)
  {
    DecidedByOne(glob, rules, path, isDir);
  }

  lemma {:induction false} PositiveRulesDecide(glob: Glob, rules: seq<Rule>, r: Rule, path: string, isDir: bool)
    requires r in rules && Fires(glob, r, path, isDir) && forall q :: q in rules ==> !q.negate
    ensures FirstDecides(glob, rules, path, isDir)
  {
    assert rules[0] in rules;
    if !Applies(glob, rules[0], path, isDir) {
      PositiveRulesDecide(glob, rules[1..], r, path, isDir);
    }
  }

  /** Ignore answers what it is documented to, for every glob and path, if and only if no rule is negated. */
  lemma DocumentedIffNoNegation(rules: seq<Rule>)
    ensures (forall glob: Glob, path, isDir :: Ignored(glob, rules, path, isDir) == Documented(glob, rules, path, isDir))
        <==> forall r :: r in rules ==> !r.negate
  {
    if forall r :: r in rules ==> !r.negate {
      forall glob: Glob, path, isDir
        ensures Ignored(glob, rules, path, isDir) == Documented(glob, rules, path, isDir)
      {
        if Ignored(glob, rules, path, isDir) {
          var r :| r in rules && Fires(glob, r, path, isDir);
          PositiveRulesDecide(glob, rules, r, path, isDir);
        }
        if Documented(glob, rules, path, isDir) {
          DocumentedIsIgnored(glob, rules, path, isDir);
        }
      }
    } else {
      var r :| r in rules && r.negate;
      var nothing: Glob := (_, _) => Some(false);
      assert Fires(nothing, r, "a", true);
      NothingDecides(nothing, rules, "a", true);
      assert Ignored(nothing, rules, "a", true) != Documented(nothing, rules, "a", true);
    }
  }

  lemma {:induction false} NothingDecides(glob: Glob, rules: seq<Rule>, path: string, isDir: bool)
    requires forall r :: r in rules ==> !Applies(glob, r, path, isDir)
    ensures !FirstDecides(glob, rules, path, isDir)
  {
    if rules != [] {
      assert rules[0] in rules;
      NothingDecides(glob, rules[1..], path, isDir);
    }
  }

  /** Two negated rules that no path matches together ignore everything that can be ignored. */
  lemma DisjointNegationsIgnoreAll(glob: Glob, rules: seq<Rule>, a: Rule, b: Rule, path: string, isDir: bool)
    requires a in rules && b in rules && a.negate && b.negate
    requires !(Matches(glob, a, path) && Matches(glob, b, path))
    ensures Ignored(glob, rules, path, isDir) <==> !NeverIgnored(path)
  {
    assert Fires(glob, a, path, isDir) || Fires(glob, b, path, isDir);
  }

  // ----- parsing -----

  datatype Parsed = Nothing | Malformed | Parsed(rule: Rule)

  /** parseRule on one line. */
  function ParseRule(glob: Glob, line: string): Parsed {
    var rule := TrimSpace(line);
    if rule == "" || HasPrefix(rule, "#") then Nothing
    else if Contains(rule, "**") || glob(rule, "abc").None? then Malformed
    else
      var negate := HasPrefix(rule, "!");
      var positive := TrimPrefix(rule, "!");
      var mustDir := HasSuffix(positive, "/");
      var text := TrimSuffix(positive, "/");
      var kind := if HasPrefix(text, "/") then Anchored else if Contains(text, "/") then Structural else Basename;
      Parsed(Rule(kind, text, negate, mustDir))
  }

  /** A parsed rule is unstable exactly if what is left of the line has two leading slashes. */
  lemma ParsedStable(glob: Glob, line: string)
    requires ParseRule(glob, line).Parsed?
    ensures Stable(ParseRule(glob, line).rule) <==>
      !HasPrefix(TrimSuffix(TrimPrefix(TrimSpace(line), "!"), "/"), "//")
  {
    var text := TrimSuffix(TrimPrefix(TrimSpace(line), "!"), "/");
    if HasPrefix(text, "//") {
      assert text[0] == '/' && text[1] == '/';
      assert text[1..][0] == '/';
    }
  }

  const DEFAULT_LINE := "templates/.?*"
  const DEFAULT_RULE := Rule(Structural, DEFAULT_LINE, false, false)

  /** The default rule, unless the glob rejects its pattern. */
  function Defaults(glob: Glob): seq<Rule> {
    if glob(DEFAULT_LINE, "abc").Some? then [DEFAULT_RULE] else []
  }

  /** A line that is nothing but a pattern with a slash. */
  predicate PlainPattern(line: string, slash: nat) {
    && slash < |line| && line[slash] == '/'
    && !IsSpace(line[0]) && line[0] != '#' && line[0] != '!' && line[0] != '/'
    && !IsSpace(line[|line|-1]) && line[|line|-1] != '/'
    && forall i :: 0 <= i < |line| - 1 ==> line[i] != '*'
  }

  lemma PlainLine(glob: Glob, line: string, slash: nat)
    requires PlainPattern(line, slash)
    ensures ParseRule(glob, line) ==
      if glob(line, "abc").None? then Malformed else Parsed(Rule(Structural, line, false, false))
  {
    assert TrimSpace(line) == line;
    assert !Contains(line, "**") by {
      forall i | 0 <= i <= |line| ensures !HasPrefix(line[i..], "**") {
        assert i < |line| ==> line[i..][0] == line[i];
      }
    }
    assert line[slash..][0] == '/' && HasPrefix(line[slash..], "/");
  }

  lemma DefaultParsed(glob: Glob, line: string)
    requires line == DEFAULT_LINE && PlainPattern(line, 9)
    ensures Defaults(glob) == match ParseRule(glob, line) case Parsed(r) => [r] case _ => []
  {
    PlainLine(glob, line, 9);
  }

  const BOM := "\U{EF}\U{BB}\U{BF}"

  /** The rules of the lines up to the first malformed one, and whether there was none. */
  function ParseLines(glob: Glob, lines: seq<string>): (seq<Rule>, bool) {
    if lines == [] then ([], true)
    else
      var (rules, ok) := ParseLines(glob, lines[..|lines|-1]);
      if !ok then (rules, false)
      else
        match ParseRule(glob, lines[|lines|-1])
        case Nothing => (rules, true)
        case Malformed => (rules, false)
        case Parsed(r) => (rules + [r], true)
  }

  /** A pattern object: a matcher together with its captured variable. */
  class Pattern {
    const kind: Kind
    const negate: bool
    const mustDir: bool
    var rule: string

    function Text(): Rule
      reads this
    {
      Rule(kind, rule, negate, mustDir)
    }

    constructor (r: Rule)
      ensures Text() == r
    {
      kind, negate, mustDir, rule := r.kind, r.negate, r.mustDir, r.rule;
    }

    method Match(glob: Glob, name: string) returns (ok: bool)
      modifies this
      ensures ok == Matches(glob, old(Text()), name)
      ensures Text() == AfterCall(old(Text()))
    {
      match kind
      case Anchored =>
        rule := TrimPrefix(rule, "/");
        ok := glob(rule, name) == Some(true);
      case Structural =>
        ok := glob(rule, name) == Some(true);
      case Basename =>
        ok := glob(rule, Base(name)) == Some(true);
    }

    /** The body of Ignore's loop: a negated rule fires on what it does not match. */
    method Decide(glob: Glob, path: string, isDir: bool) returns (fires: bool)
      modifies this
      ensures fires == Fires(glob, old(Text()), path, isDir)
      ensures Text() == Asked(old(Text()), isDir)
    {
      if negate {
        if mustDir && !isDir {
          return true;
        }
        var ok := Match(glob, path);
        return !ok;
      }
      if mustDir && !isDir {
        return false;
      }
      fires := Match(glob, path);
    }
  }

  class Rules {
    var patterns: seq<Pattern>

    ghost predicate Valid()
      reads this
    {
      forall i, j :: 0 <= i < j < |patterns| ==> patterns[i] != patterns[j]
    }

    function Texts(): (texts: seq<Rule>)
      reads this, patterns
    {
      seq(|patterns|, i requires 0 <= i < |patterns| reads this, patterns => patterns[i].Text())
    }

    constructor ()
      ensures Valid() && patterns == []
    {
      patterns := [];
    }

    /** False if the line is malformed. */
    method AddRule(glob: Glob, line: string) returns (ok: bool)
      requires Valid()
      modifies this
      ensures Valid() && ok == !ParseRule(glob, line).Malformed?
      ensures forall i :: 0 <= i < |old(patterns)| ==> i < |patterns| && patterns[i] == old(patterns[i])
      ensures fresh(set p | p in patterns && p !in old(patterns))
      ensures Texts() == old(Texts()) + (match ParseRule(glob, line) case Parsed(r) => [r] case _ => [])
    {
      match ParseRule(glob, line)
      case Nothing => ok := true;
      case Malformed => ok := false;
      case Parsed(r) =>
        var p := new Pattern(r);
        patterns := patterns + [p];
        ok := true;
    }

    /** AddDefaults ignores dotfiles in templates. */
    method AddDefaults(glob: Glob)
      requires Valid()
      modifies this
      ensures Valid()
      ensures Texts() == old(Texts()) + Defaults(glob)
      ensures fresh(set p | p in patterns && p !in old(patterns))
    {
      var line := DEFAULT_LINE;
      assert PlainPattern(line, 9);
      DefaultParsed(glob, line);
      var _ := AddRule(glob, line);
    }

    /**
     Evaluates the rules in order and stops at the first that fires. Which
     matchers were called shows only in unstable rules.
     */
    method Ignore(glob: Glob, path: string, isDir: bool) returns (ignored: bool)
      requires Valid()
      modifies patterns
      ensures ignored == Ignored(glob, old(Texts()), path, isDir)
      ensures Texts() == AfterIgnore(glob, old(Texts()), path, isDir)
    {
      if NeverIgnored(path) {
        return false;
      }
      ghost var texts := Texts();
      for n := 0 to |patterns|
        invariant forall i :: 0 <= i < n ==> !Fires(glob, texts[i], path, isDir)
        invariant forall i :: 0 <= i < n ==> patterns[i].Text() == Asked(texts[i], isDir)
        invariant forall i :: n <= i < |patterns| ==> patterns[i].Text() == texts[i]
      {
        assert patterns[n].Text() == texts[n] && texts[n] in texts;
        var fires := patterns[n].Decide(glob, path, isDir);
        if fires {
          StoppedAt(glob, texts, path, isDir, n);
          return true;
        }
      }
      StoppedAt(glob, texts, path, isDir, |texts|);
      ignored := false;
    }

    /** Rule `n` is the first that fires, and everything up to it has been looked at. */
    lemma StoppedAt(glob: Glob, texts: seq<Rule>, path: string, isDir: bool, n: nat)
      requires n <= |texts| == |patterns| && forall k :: 0 <= k < n ==> !Fires(glob, texts[k], path, isDir)
      requires n < |texts| ==> Fires(glob, texts[n], path, isDir)
      requires forall i :: 0 <= i < |texts| ==> patterns[i].Text() == if i <= n then Asked(texts[i], isDir) else texts[i]
      ensures Texts() == AfterRules(glob, texts, path, isDir)
    {
      forall i | 0 <= i < |texts| ensures Texts()[i] == AfterRules(glob, texts, path, isDir)[i] {
        AfterRulesAt(glob, texts, path, isDir, n, i);
      }
    }
  }

  predicate AllStable(rules: seq<Rule>) {
    forall r :: r in rules ==> Stable(r)
  }

  /** The rule after so many calls of its matcher. */
  function Later(r: Rule, calls: nat): Rule {
    if calls == 0 then r else AfterCall(Later(r, calls - 1))
  }

  ghost predicate LaterForm(r: Rule, later: Rule) {
    exists calls: nat :: Later(r, calls) == later
  }

  /** The rules after any number of questions. */
  ghost predicate Advanced(rules: seq<Rule>, later: seq<Rule>) {
    && |later| == |rules|
    && forall i :: 0 <= i < |rules| ==> LaterForm(rules[i], later[i])
  }

  lemma NotAsked(rules: seq<Rule>)
    ensures Advanced(rules, rules)
  {
    forall i | 0 <= i < |rules| ensures LaterForm(rules[i], rules[i]) {
      assert Later(rules[i], 0) == rules[i];
    }
  }

  lemma AskedOnce(r: Rule, later: Rule, isDir: bool)
    requires LaterForm(r, later)
    ensures LaterForm(r, Asked(later, isDir))
  {
    var n: nat :| Later(r, n) == later;
    assert Later(r, n + 1) == AfterCall(later);
  }

  /** One more question leaves the rules among these. */
  lemma StaysAdvanced(glob: Glob, rules: seq<Rule>, later: seq<Rule>, path: string, isDir: bool)
    requires Advanced(rules, later)
    ensures Advanced(rules, AfterIgnore(glob, later, path, isDir))
  {
    if !NeverIgnored(path) {
      RulesStayAdvanced(glob, rules, later, path, isDir);
    }
  }

  lemma {:induction false} RulesStayAdvanced(glob: Glob, rules: seq<Rule>, later: seq<Rule>, path: string, isDir: bool)
    requires Advanced(rules, later)
    ensures Advanced(rules, AfterRules(glob, later, path, isDir))
    decreases |later|
  {
    if later != [] {
      AskedOnce(rules[0], later[0], isDir);
      assert forall i :: 0 <= i < |rules| - 1 ==> rules[1..][i] == rules[i+1] && later[1..][i] == later[i+1];
      RulesStayAdvanced(glob, rules[1..], later[1..], path, isDir);
    }
  }

  /** Whatever was asked before, the answer to this question is the same. */
  ghost predicate SameAnswers(glob: Glob, rules: seq<Rule>, path: string, isDir: bool) {
    forall later :: Advanced(rules, later) ==>
      Ignored(glob, later, path, isDir) == Ignored(glob, rules, path, isDir)
  }

  /** It is, if no rule changes its own answer. */
  lemma SameFires(glob: Glob, rules: seq<Rule>, path: string, isDir: bool)
    requires forall r, later :: r in rules && LaterForm(r, later) ==>
      Fires(glob, later, path, isDir) == Fires(glob, r, path, isDir)
    ensures SameAnswers(glob, rules, path, isDir)
  {
    forall later | Advanced(rules, later)
      ensures Ignored(glob, later, path, isDir) == Ignored(glob, rules, path, isDir)
    {
      if r :| r in rules && Fires(glob, r, path, isDir) {
        var i :| 0 <= i < |rules| && rules[i] == r;
        assert later[i] in later && LaterForm(rules[i], later[i]);
      }
      if r :| r in later && Fires(glob, r, path, isDir) {
        var i :| 0 <= i < |later| && later[i] == r;
        assert rules[i] in rules && LaterForm(rules[i], later[i]);
      }
    }
  }

  lemma {:induction false} StableStays(r: Rule, calls: nat)
    requires Stable(r)
    ensures Later(r, calls) == r || Later(r, calls) == AfterCall(r)
  {
    if calls > 0 {
      StableStays(r, calls - 1);
      StableIsFixed(r);
    }
  }

  /** Stable rules answer every later question as if no question had been asked before. */
  lemma AnswersDoNotDependOnHistory(glob: Glob, rules: seq<Rule>, path: string, isDir: bool)
    requires AllStable(rules)
    ensures SameAnswers(glob, rules, path, isDir)
  {
    forall r, later | r in rules && LaterForm(r, later)
      ensures Fires(glob, later, path, isDir) == Fires(glob, r, path, isDir)
    {
      var n: nat :| Later(r, n) == later;
      StableStays(r, n);
      StableIsFixed(r);
    }
    SameFires(glob, rules, path, isDir);
  }

  /** A byte order mark at the start of the file is dropped. */
  function WithoutBom(lines: seq<string>): (trimmed: seq<string>)
    ensures |trimmed| == |lines|
  {
    if lines == [] then [] else [TrimPrefix(lines[0], BOM)] + lines[1..]
  }

  /** Parse: reads rules line by line and stops at the first malformed one, returning what it has. */
  method Parse(glob: Glob, lines: seq<string>) returns (r: Rules, ok: bool)
    ensures fresh(r) && fresh(r.patterns) && r.Valid()
    ensures r.Texts() == ParseLines(glob, WithoutBom(lines)).0
    ensures ok == ParseLines(glob, WithoutBom(lines)).1
  {
    r := new Rules();
    var input := WithoutBom(lines);
    ghost var texts := [];
    assert r.Texts() == texts;
    for n := 0 to |input|
      invariant fresh(r) && fresh(r.patterns) && r.Valid()
      invariant r.Texts() == texts && ParseLines(glob, input[..n]) == (texts, true)
    {
      NextLine(glob, input, n);
      ok := r.AddRule(glob, input[n]);
      if !ok {
        StopsAtMalformed(glob, input, n);
        return;
      }
      texts := r.Texts();
    }
    assert input[..|input|] == input;
    ok := true;
  }

  lemma NextLine(glob: Glob, lines: seq<string>, n: nat)
    requires n < |lines|
    ensures var (rules, ok) := ParseLines(glob, lines[..n]);
      ok && !ParseRule(glob, lines[n]).Malformed? ==>
        ParseLines(glob, lines[..n+1]) == (rules + (match ParseRule(glob, lines[n]) case Parsed(r) => [r] case _ => []), true)
  {
    assert lines[..n+1][..n] == lines[..n];
    var (rules, ok) := ParseLines(glob, lines[..n]);
    assert rules + [] == rules;
  }

  lemma {:induction false} StopsAtMalformed(glob: Glob, lines: seq<string>, n: nat)
    requires n < |lines| && ParseLines(glob, lines[..n]).1 && ParseRule(glob, lines[n]).Malformed?
    ensures ParseLines(glob, lines) == (ParseLines(glob, lines[..n]).0, false)
    decreases |lines|
  {
    if n < |lines| - 1 {
      assert lines[..|lines|-1][..n] == lines[..n];
      StopsAtMalformed(glob, lines[..|lines|-1], n);
    }
  }

  /** The rules of a load: those of the ignore file, if there is one, and the default one behind them. */
  method LoadRules(glob: Glob, file: Option<seq<string>>) returns (r: Option<Rules>)
    ensures r.None? <==> file.Some? && !ParseLines(glob, WithoutBom(file.value)).1
    ensures r.Some? ==> fresh(r.value) && fresh(r.value.patterns) && r.value.Valid()
    ensures r.Some? ==>
      r.value.Texts() == (if file.Some? then ParseLines(glob, WithoutBom(file.value)).0 else []) + Defaults(glob)
  {
    var rules := new Rules();
    if file.Some? {
      var ok;
      rules, ok := Parse(glob, file.value);
      if !ok {
        return None;
      }
    }
    rules.AddDefaults(glob);
    return Some(rules);
  }
}
