/**
 How a chart version is resolved: from the index of an HTTP repository
 (internal/helm/repository/chart_repository.go) and from the tags of an OCI
 repository (internal/helm/repository/oci_chart_repository.go).
 */
module VersionSelection {
  import opened Wrappers
  import opened SemVer
  import opened StableSort

  type Constraint = Version -> bool

  /** The parsers of the version library; `None` is a parse error. */
  datatype Parsers = Parsers(version: string -> Option<Version>, constraint: string -> Option<Constraint>)

  /** A parsed version remembers its string, and the empty string is no version. */
  ghost predicate Faithful(p: Parsers) {
    && (forall s :: p.version(s).Some? ==> p.version(s).value.original == s)
    && p.version("").None?
  }

  /** An entry of a repository index. */
  datatype ChartVersion = ChartVersion(version: string, created: int)

  datatype Error = NoChartIndex | NoChartName | NoChartVersion | BadConstraint | NoMatch | TagsFailed

  /** A version that satisfies the constraint, with the entry it was parsed from. */
  datatype Match = Match(v: Version, cv: ChartVersion)

  /** The order of the sort: precedence, then creation time. */
  predicate Older(x: Match, y: Match) {
    if !SamePrecedence(x.v, y.v) then LessThan(x.v, y.v) else x.cv.created < y.cv.created
  }

  /** The comparator given to SliceStable; it also holds between equal elements. */
  predicate NotOlder(x: Match, y: Match) {
    !Older(x, y)
  }

  lemma NotOlderTransitive(x: Match, y: Match, z: Match)
    requires NotOlder(x, y) && NotOlder(y, z)
    ensures NotOlder(x, z)
  {
    CompareOrder(x.v, y.v);
    CompareOrder(y.v, z.v);
    CompareOrder(x.v, z.v);
    PrecedenceIsTotalPreorder(x.v, y.v, z.v);
  }

  lemma NotOlderIsTotalPreorder()
    ensures TotalPreorder(NotOlder)
  {
    forall x, y ensures NotOlder(x, y) || NotOlder(y, x) { CompareOrder(x.v, y.v); }
    forall x, y, z | NotOlder(x, y) && NotOlder(y, z) ensures NotOlder(x, z) { NotOlderTransitive(x, y, z); }
  }

  /** The constraint that a version string stands for. */
  function Wanted(p: Parsers, ver: string): Option<Constraint> {
    p.constraint(if ver == "" || ver == "*" then "*" else ver)
  }

  /** The entry parses to a version that satisfies the constraint. */
  predicate Satisfies(p: Parsers, c: Constraint, s: string) {
    p.version(s).Some? && c(p.version(s).value)
  }

  function MatchOf(p: Parsers, cv: ChartVersion): Match
    requires p.version(cv.version).Some?
  {
    Match(p.version(cv.version).value, cv)
  }

  // ----- HTTP repositories -----

  /** The entry has the higher precedence of the two, or the same one and is not older. */
  ghost predicate AtLeast(p: Parsers, cv: ChartVersion, other: ChartVersion)
    requires p.version(cv.version).Some? && p.version(other.version).Some?
  {
    var v, u := p.version(cv.version).value, p.version(other.version).value;
    || Precedes(u, v)
    || (u.major == v.major && u.minor == v.minor && u.patch == v.patch && u.pre == v.pre && other.created <= cv.created)
  }

  lemma NotOlderIsAtLeast(p: Parsers, cv: ChartVersion, other: ChartVersion)
    requires p.version(cv.version).Some? && p.version(other.version).Some?
    ensures NotOlder(MatchOf(p, cv), MatchOf(p, other)) <==> AtLeast(p, cv, other)
  {
    var v, u := p.version(cv.version).value, p.version(other.version).value;
    CompareOrder(v, u);
    LessThanIffPrecedes(u, v);
  }

  /**
   What getChartVersion promises for the entries of a chart: the first exact match; else, among the
   entries that satisfy the constraint, one than which none is higher or, at the same precedence, newer.
   */
  ghost predicate HttpAnswer(p: Parsers, cvs: seq<ChartVersion>, ver: string, r: Result<ChartVersion, Error>) {
    if cvs == [] then r == Err(NoChartVersion)
    else if ver != "" && exists cv :: cv in cvs && cv.version == ver then
      exists i :: 0 <= i < |cvs| && cvs[i].version == ver && r == Ok(cvs[i]) && forall j :: 0 <= j < i ==> cvs[j].version != ver
    else
      match p.constraint(if ver == "" then "*" else ver)
      case None => r == Err(BadConstraint)
      case Some(c) =>
        if !exists cv :: cv in cvs && Satisfies(p, c, cv.version) then r == Err(NoMatch)
        else
          && r.Ok? && r.value in cvs && Satisfies(p, c, r.value.version)
          && forall cv :: cv in cvs && Satisfies(p, c, cv.version) ==> AtLeast(p, r.value, cv)
  }

  /** ChartRepository.getChartVersion. */
  method GetChartVersion(p: Parsers, index: Option<map<string, seq<ChartVersion>>>, name: string, ver: string)
    returns (r: Result<ChartVersion, Error>)
    ensures index.None? ==> r == Err(NoChartIndex)
    ensures index.Some? && name !in index.value ==> r == Err(NoChartName)
    ensures index.Some? && name in index.value ==> HttpAnswer(p, index.value[name], ver, r)
  {
    if index.None? {
      return Err(NoChartIndex);
    }
    if name !in index.value {
      return Err(NoChartName);
    }
    var cvs := index.value[name];
    if cvs == [] {
      return Err(NoChartVersion);
    }
    if ver != "" {
      for i := 0 to |cvs|
        invariant forall j :: 0 <= j < i ==> cvs[j].version != ver
      {
        if ver == cvs[i].version {
          return Ok(cvs[i]);
        }
      }
    }
    var constraint := Wanted(p, ver);
    if constraint.None? {
      return Err(BadConstraint);
    }
    var matched := MatchAll(p, constraint.value, cvs);
    if matched == [] {
      return Err(NoMatch);
    }
    ghost var unsorted := matched;
    matched := SliceStable(NotOlder, matched);
    NotOlderIsTotalPreorder();
    SliceStableSorts(NotOlder, unsorted);
    FirstIsHighest(unsorted, matched);
    r := Ok(matched[0].cv);
    forall cv | cv in cvs && Satisfies(p, constraint.value, cv.version) ensures AtLeast(p, r.value, cv) {
      NotOlderIsAtLeast(p, r.value, cv);
    }
  }

  /** The filter loop: the matches in order. */
  method MatchAll(p: Parsers, c: Constraint, cvs: seq<ChartVersion>) returns (matched: seq<Match>)
    ensures forall m :: m in matched ==> m.cv in cvs && Satisfies(p, c, m.cv.version) && m == MatchOf(p, m.cv)
    ensures forall cv :: cv in cvs && Satisfies(p, c, cv.version) ==> MatchOf(p, cv) in matched
  {
    matched := [];
    for i := 0 to |cvs|
      invariant forall m :: m in matched ==> m.cv in cvs && Satisfies(p, c, m.cv.version) && m == MatchOf(p, m.cv)
      invariant forall j :: 0 <= j < i && Satisfies(p, c, cvs[j].version) ==> MatchOf(p, cvs[j]) in matched
    {
      var v := p.version(cvs[i].version);
      if v.None? {
        continue;
      }
      if !c(v.value) {
        continue;
      }
      matched := matched + [Match(v.value, cvs[i])];
    }
  }

  lemma FirstIsHighest(matched: seq<Match>, sorted: seq<Match>)
    requires matched != [] && multiset(sorted) == multiset(matched) && SortedBy(NotOlder, sorted)
    ensures sorted != [] && sorted[0] in matched && forall m :: m in matched ==> NotOlder(sorted[0], m)
  {
    assert matched[0] in multiset(matched);
    assert sorted != [];
    assert sorted[0] in multiset(sorted);
    forall m | m in matched ensures NotOlder(sorted[0], m) {
      assert m in multiset(sorted);
      var i :| 0 <= i < |sorted| && sorted[i] == m;
      CompareOrder(m.v, m.v);
      if i > 0 { assert NotOlder(sorted[0], sorted[i]); }
    }
  }

  // ----- OCI repositories -----

  /** A tag that satisfies the constraint, with no higher one. */
  ghost predicate HighestTag(p: Parsers, c: Constraint, tags: seq<string>, t: string) {
    && t in tags && Satisfies(p, c, t)
    && forall u :: u in tags && Satisfies(p, c, u) ==> !Precedes(p.version(t).value, p.version(u).value)
  }

  /** What getLastMatchingVersionOrConstraint promises. */
  ghost predicate OciAnswer(p: Parsers, tags: seq<string>, ver: string, r: Result<string, Error>) {
    if ver != "" && ver in tags then r == Ok(ver)
    else
      match p.constraint(if ver == "" then "*" else ver)
      case None => r == Err(BadConstraint)
      case Some(c) =>
        if !exists t :: t in tags && Satisfies(p, c, t) then r == Err(NoMatch)
        else
          r.Ok? && exists t :: HighestTag(p, c, tags, t) && r.value == p.version(t).value.original
  }

  predicate NotLower(a: Version, b: Version) {
    !LessThan(a, b)
  }

  /** sort.Sort in reverse: any permutation in which no version is lower than a later one. */
  method SortReverse(vs: seq<Version>) returns (sorted: seq<Version>)
    ensures multiset(sorted) == multiset(vs) && SortedBy(NotLower, sorted)
  {
    forall a, b ensures NotLower(a, b) || NotLower(b, a) { PrecedenceIsTotalPreorder(a, b, a); }
    forall a, b, c | NotLower(a, b) && NotLower(b, c) ensures NotLower(a, c) { PrecedenceIsTotalPreorder(a, b, c); }
    sorted := InsertionSort(NotLower, vs);
    InsertionSortSorts(NotLower, vs);
  }

  method GetLastMatching(p: Parsers, tags: seq<string>, ver: string) returns (r: Result<string, Error>)
    ensures OciAnswer(p, tags, ver, r)
  {
    if ver != "" {
      for i := 0 to |tags|
        invariant forall j :: 0 <= j < i ==> tags[j] != ver
      {
        if ver == tags[i] {
          return Ok(tags[i]);
        }
      }
    }
    var constraint := Wanted(p, ver);
    if constraint.None? {
      return Err(BadConstraint);
    }
    var c := constraint.value;
    var matching: seq<Version> := [];
    for i := 0 to |tags|
      invariant forall v :: v in matching ==> exists t :: t in tags && Satisfies(p, c, t) && v == p.version(t).value
      invariant forall j :: 0 <= j < i && Satisfies(p, c, tags[j]) ==> p.version(tags[j]).value in matching
    {
      var v := p.version(tags[i]);
      if v.None? {
        continue;
      }
      if !c(v.value) {
        continue;
      }
      matching := matching + [v.value];
    }
    if matching == [] {
      return Err(NoMatch);
    }
    var sorted := SortReverse(matching);
    HighestFirst(matching, sorted);
    ghost var t :| t in tags && Satisfies(p, c, t) && sorted[0] == p.version(t).value;
    forall u | u in tags && Satisfies(p, c, u) ensures !Precedes(p.version(t).value, p.version(u).value) {
      LessThanIffPrecedes(p.version(t).value, p.version(u).value);
    }
    assert HighestTag(p, c, tags, t);
    r := Ok(sorted[0].original);
  }

  lemma HighestFirst(vs: seq<Version>, sorted: seq<Version>)
    requires vs != [] && multiset(sorted) == multiset(vs) && SortedBy(NotLower, sorted)
    ensures sorted != [] && sorted[0] in vs && forall v :: v in vs ==> NotLower(sorted[0], v)
  {
    assert vs[0] in multiset(vs);
    assert sorted != [];
    assert sorted[0] in multiset(sorted);
    forall v | v in vs ensures NotLower(sorted[0], v) {
      assert v in multiset(sorted);
      var i :| 0 <= i < |sorted| && sorted[i] == v;
      CompareOrder(v, v);
      if i > 0 { assert NotLower(sorted[0], sorted[i]); }
    }
  }

  /** OCIChartRepository.getChartVersion: a concrete version is taken as it is, without looking at the tags. */
  ghost predicate OciChartAnswer(p: Parsers, tags: Option<seq<string>>, ver: string, r: Result<string, Error>) {
    if p.version(ver).Some? then r == Ok(ver)
    else if tags.None? || tags.value == [] then r == Err(TagsFailed)
    else OciAnswer(p, tags.value, ver, r)
  }

  method GetOciChartVersion(p: Parsers, tags: Option<seq<string>>, ver: string) returns (r: Result<string, Error>)
    ensures OciChartAnswer(p, tags, ver, r)
  {
    if p.version(ver).Some? {
      return Ok(ver);
    }
    if tags.None? || tags.value == [] {
      return Err(TagsFailed);
    }
    r := GetLastMatching(p, tags.value, ver);
  }

  // ----- the two agree, and resolution is a fixpoint -----

  function Versions(cvs: seq<ChartVersion>): (vs: seq<string>)
    ensures |vs| == |cvs| && forall i :: 0 <= i < |cvs| ==> vs[i] == cvs[i].version
  {
    seq(|cvs|, i requires 0 <= i < |cvs| => cvs[i].version)
  }

  /**
   On the same non-empty list of versions both resolvers fail on the same requests, return the requested
   string itself if it is in the list, and otherwise return versions of the same precedence.
   */
  lemma ResolversAgree(p: Parsers, cvs: seq<ChartVersion>, ver: string, h: Result<ChartVersion, Error>, o: Result<string, Error>)
    requires Faithful(p) && cvs != []
    requires HttpAnswer(p, cvs, ver, h) && OciAnswer(p, Versions(cvs), ver, o)
    ensures h.Err? <==> o.Err?
    ensures h.Err? ==> h.error == o.error
    ensures ver != "" && ver in Versions(cvs) ==> h.Ok? && h.value.version == ver && o == Ok(ver)
    ensures h.Ok? && !(ver != "" && ver in Versions(cvs)) ==>
      && p.version(h.value.version).Some? && p.version(o.value).Some?
      && SamePrecedence(p.version(h.value.version).value, p.version(o.value).value)
  {
    var vs := Versions(cvs);
    SameMembers(cvs);
    if ver != "" && ver in vs {
      var cv :| cv in cvs && cv.version == ver;
    } else if p.constraint(if ver == "" then "*" else ver).Some? {
      var c := p.constraint(if ver == "" then "*" else ver).value;
      if h.Ok? {
        assert h.value.version in vs;
        var t :| HighestTag(p, c, vs, t) && o.value == p.version(t).value.original;
        var cv :| cv in cvs && cv.version == t;
        assert AtLeast(p, h.value, cv);
        var v, u := p.version(h.value.version).value, p.version(t).value;
        CompareOrder(u, v);
        LessThanIffPrecedes(u, v);
        LessThanIffPrecedes(v, u);
      }
    }
  }

  lemma SameMembers(cvs: seq<ChartVersion>)
    ensures forall s :: s in Versions(cvs) <==> exists cv :: cv in cvs && cv.version == s
  {
    forall s ensures s in Versions(cvs) <==> exists cv :: cv in cvs && cv.version == s {
      if s in Versions(cvs) {
        var i :| 0 <= i < |cvs| && Versions(cvs)[i] == s;
        assert cvs[i] in cvs && cvs[i].version == s;
      }
      if cv :| cv in cvs && cv.version == s {
        var i :| 0 <= i < |cvs| && cvs[i] == cv;
        assert Versions(cvs)[i] == s;
      }
    }
  }

  /** Neither answers a version while a satisfying one has a higher major, minor and patch number. */
  lemma NoHigherTriple(p: Parsers, cvs: seq<ChartVersion>, ver: string, c: Constraint,
                       h: Result<ChartVersion, Error>, o: Result<string, Error>, cv: ChartVersion)
    requires Faithful(p) && HttpAnswer(p, cvs, ver, h) && OciAnswer(p, Versions(cvs), ver, o) && cv in cvs
    requires ver == "" || forall u :: u in cvs ==> u.version != ver
    requires p.constraint(if ver == "" then "*" else ver) == Some(c) && Satisfies(p, c, cv.version)
    ensures h.Ok? && p.version(h.value.version).Some? && o.Ok? && p.version(o.value).Some?
    ensures !TripleBelow(p.version(h.value.version).value, p.version(cv.version).value)
    ensures !TripleBelow(p.version(o.value).value, p.version(cv.version).value)
  {
    SameMembers(cvs);
    assert cv.version in Versions(cvs);
    assert AtLeast(p, h.value, cv);
    var t :| HighestTag(p, c, Versions(cvs), t) && o.value == p.version(t).value.original;
    assert !Precedes(p.version(t).value, p.version(cv.version).value);
  }

  /** Resolving the version of an entry that was resolved leads to an entry of the same version. */
  lemma HttpFixpoint(p: Parsers, cvs: seq<ChartVersion>, ver: string, r: Result<ChartVersion, Error>, again: Result<ChartVersion, Error>)
    requires Faithful(p) && HttpAnswer(p, cvs, ver, r) && r.Ok?
    requires HttpAnswer(p, cvs, r.value.version, again)
    ensures again.Ok? && again.value.version == r.value.version
  {
    assert r.value in cvs;
  }

  /** The same for an OCI repository, for a concrete version, a tag, and a constraint alike. */
  lemma OciFixpoint(p: Parsers, tags: Option<seq<string>>, ver: string, r: Result<string, Error>, again: Result<string, Error>)
    requires Faithful(p) && OciChartAnswer(p, tags, ver, r) && r.Ok?
    requires OciChartAnswer(p, tags, r.value, again)
    ensures again == r
  {
  }
}
