/**
 The secure chart loader of internal/helm/chart/secureloader/directory.go, end to
 end: the visitor, the walk it runs under, and exactly which files it loads.
 */
module SecureLoader {
  import opened Wrappers
  import opened FileTree
  import opened Helpers
  import opened NameOrder
  import opened SymPath
  import opened SecureJoin
  import IgnoreRules

  type Bytes = seq<bv8>

  datatype BufferedFile = BufferedFile(name: string, data: Bytes)

  /** The parameters of one load, with the rules as they were parsed. */
  datatype Config = Config(root: Path, chart: Path, maxSize: int, glob: IgnoreRules.Glob, rules: seq<IgnoreRules.Rule>)

  const UTF8_BOM: Bytes := [0xEF, 0xBB, 0xBF]

  function TrimBom(data: Bytes): Bytes {
    if UTF8_BOM <= data then data[3..] else data
  }

  /** A byte order mark at the beginning is dropped, and nothing else. */
  lemma OnlyBomIsTrimmed(data: Bytes)
    ensures TrimBom([0xEF, 0xBB, 0xBF] + data) == data
    ensures |data| < 3 || data[..3] != [0xEF, 0xBB, 0xBF] ==> TrimBom(data) == data
  {
  }

  /** A path relative to the chart, with slashes. */
  function Slash(rel: Path): string {
    if rel == [] then "" else if |rel| == 1 then rel[0] else rel[0] + "/" + Slash(rel[1..])
  }

  function RelTo(chart: Path, p: Path): Path {
    if chart <= p then p[|chart|..] else p
  }

  /** What the rules say about a path within the chart before any question was asked. */
  predicate Ignored(c: Config, rel: Path, isDir: bool) {
    IgnoreRules.Ignored(c.glob, c.rules, Slash(rel), isDir)
  }

  /** os.ReadFile. */
  function ReadFile(w: World, p: Path): Option<Bytes> {
    var (q, _) :- Resolve(w.root, [], Steps(p), w.kernelLinks);
    match Lookup(w.root, q)
    case Some(File(_, data)) => Some(data)
    case _ => None
  }

  /** The files loaded so far, and what the questions so far have made of the rules. */
  datatype Loading = Loading(files: seq<BufferedFile>, rules: seq<IgnoreRules.Rule>)

  /** Asks the rules, whose matchers may change on the way. */
  function Ask(c: Config, st: Loading, rel: Path, isDir: bool): (Loading, bool) {
    (st.(rules := IgnoreRules.AfterIgnore(c.glob, st.rules, Slash(rel), isDir)),
     IgnoreRules.Ignored(c.glob, st.rules, Slash(rel), isDir))
  }

  /** secureFileWalker.walk: what one call appends to the files and does to the rules, and what it returns. */
  function Visit(c: Config, w: World, st: Loading, a: Args): (Loading, Outcome) {
    var rel := RelTo(c.chart, a.path);
    if rel == [] then (st, Continue)
    else if a.err.Some? then (st, Failed(a.err.value))
    else
      match a.info
      case Some(Dir(_)) =>
        var (st', ignored) := Ask(c, st, rel, true);
        if ignored then (st', SkipDir)
        else if !IsSecure(w, c.root, a.abs) then (st', Failed(Other("cannot load directory")))
        else (st', Continue)
      case Some(File(regular, data)) =>
        var (st', ignored) := Ask(c, st, rel, false);
        if ignored then (st', Continue)
        else if !IsSecure(w, c.root, a.abs) then (st', Failed(Other("cannot load file")))
        else if !regular then (st', Failed(Other("irregular file")))
        else if c.maxSize > 0 && |data| > c.maxSize then (st', Failed(Other("file size exceeds limit")))
        else
          (match ReadFile(w, a.abs)
           case None => (st', Failed(Other("error reading")))
           case Some(content) =>
             (st'.(files := st'.files + [BufferedFile(Slash(rel), TrimBom(content))]), Continue))
      case _ => (st, Failed(Other("not a file")))
  }

  function VisitFn(c: Config, w: World): WalkFn<Loading> {
    (st, a) => Visit(c, w, st, a)
  }

  // ----- which files should be loaded -----

  /** No directory above `rel` within the chart is ignored. */
  predicate Exposed(c: Config, rel: Path) {
    forall i :: 0 < i < |rel| ==> !Ignored(c, rel[..i], true)
  }

  /** A file at `rel` is to be loaded. */
  predicate Kept(c: Config, rel: Path) {
    rel != [] && Exposed(c, rel) && !Ignored(c, rel, false)
  }

  predicate Loads(c: Config, e: Event) {
    Visits(e) && e.args.info.Some? && e.args.info.value.File? && Kept(c, RelTo(c.chart, e.At()))
  }

  /** A file that may be loaded: physically below root, regular, and within the size limit. */
  predicate Acceptable(c: Config, abs: Path, file: Node)
    requires file.File?
  {
    c.root <= abs && file.regular && (c.maxSize > 0 ==> |file.data| <= c.maxSize)
  }

  /** The walk meets something at `e` that it must not pass over. */
  predicate Offends(c: Config, e: Event) {
    var rel := RelTo(c.chart, e.At());
    if e.Abort? then Exposed(c, rel)
    else if rel == [] then false
    else if e.args.err.Some? then ExposedEvent(c, e)
    else if e.args.info.Some? && e.args.info.value.Dir?
      then Exposed(c, rel) && !Ignored(c, rel, true) && !(c.root <= e.args.abs)
    else Loads(c, e) && !Acceptable(c, e.args.abs, e.args.info.value)
  }

  /** The files of the list that are to be loaded, in order. */
  function Expected(c: Config, events: seq<Event>): seq<BufferedFile> {
    if events == [] then []
    else
      (if Loads(c, events[0])
       then [BufferedFile(Slash(RelTo(c.chart, events[0].At())), TrimBom(events[0].args.info.value.data))] else [])
      + Expected(c, events[1..])
  }

  /** What the events of a walk of the chart look like. */
  ghost predicate WellFormed(c: Config, w: World, events: seq<Event>) {
    forall e :: e in events ==> FormOk(c, w, e)
  }

  ghost predicate FormOk(c: Config, w: World, e: Event) {
    && c.chart <= e.At()
    && (e.Abort? ==> EvalSymlinks(w, e.path).None?)
    && (Visits(e) ==> e.args.info.Some? && TruePath(w, e.At(), e.args.abs, e.args.info.value))
    && (Visits(e) && e.args.info.value.Dir? ==> e.scope == Some(e.At()))
  }

  lemma ReadsTruePath(w: World, abs: Path)
    requires LinkFree(w.root, abs) && Lookup(w.root, abs).value.File?
    ensures ReadFile(w, abs) == Some(Lookup(w.root, abs).value.data)
  {
    LinkFreeResolves(w.root, abs, w.kernelLinks);
  }

  /** A visited directory that the rules ignore. */
  predicate IgnoredDir(c: Config, e: Event) {
    var rel := RelTo(c.chart, e.At());
    Visits(e) && e.args.info.Some? && e.args.info.value.Dir? && rel != [] && Ignored(c, rel, true)
  }

  /** No ignored directory is above the event; an error at a directory counts as below it. */
  predicate ExposedEvent(c: Config, e: Event) {
    var rel := RelTo(c.chart, e.At());
    Exposed(c, rel) && (e.Call? && e.args.err.Some? && rel != [] ==> !Ignored(c, rel, true))
  }

  /** The event is exposed, or is below one of `dirs`. */
  ghost predicate Covered(c: Config, e: Event, dirs: set<Path>) {
    ExposedEvent(c, e) || exists q :: q in dirs && q <= e.At()
  }

  /** Each event comes after the visits of the ignored directories above it; `dirs` were visited before. */
  ghost predicate Guarded(c: Config, events: seq<Event>, dirs: set<Path>) {
    events != [] ==>
      && Covered(c, events[0], dirs)
      && Guarded(c, events[1..], if IgnoredDir(c, events[0]) then dirs + {events[0].At()} else dirs)
  }

  // ----- the visitor over a well-formed list -----

  /** Below an ignored directory nothing is loaded and nothing offends. */
  lemma BelowIgnored(c: Config, w: World, d: Event, e: Event)
    requires FormOk(c, w, d) && FormOk(c, w, e) && IgnoredDir(c, d) && d.At() <= e.At()
    ensures !Loads(c, e) && !Offends(c, e)
  {
    var rd, re := RelTo(c.chart, d.At()), RelTo(c.chart, e.At());
    if |rd| < |re| {
      assert re[..|rd|] == rd;
    } else {
      assert d.At() == e.At() && rd == re;
    }
  }

  lemma {:induction false} DropUnloaded(c: Config, events: seq<Event>, scope: Option<Path>)
    requires forall e :: e in events && Below(e, scope) ==> !Loads(c, e)
    ensures Expected(c, Drop(events, scope)) == Expected(c, events)
  {
    if events != [] {
      assert events[0] in events;
      assert forall e :: e in events[1..] ==> e in events;
      DropUnloaded(c, events[1..], scope);
      if Below(events[0], scope) {
        assert [] + Drop(events[1..], scope) == Drop(events[1..], scope);
        assert [] + Expected(c, events[1..]) == Expected(c, events[1..]);
      } else {
        assert Drop(events, scope)[1..] == Drop(events[1..], scope);
      }
    }
  }

  lemma {:induction false} GuardedMore(c: Config, events: seq<Event>, dirs: set<Path>, more: set<Path>)
    requires Guarded(c, events, dirs) && dirs <= more
    ensures Guarded(c, events, more)
  {
    if events != [] {
      var ignored := IgnoredDir(c, events[0]);
      GuardedMore(c, events[1..], if ignored then dirs + {events[0].At()} else dirs,
                                  if ignored then more + {events[0].At()} else more);
    }
  }

  lemma PrefixTransitive(p: Path, q: Path, r: Path)
    requires q <= r
    ensures p <= q ==> p <= r
  {
    if p <= q { assert p == q[..|p|] == r[..|p|]; }
  }

  /** Dropping what is below `q` makes it unnecessary to have visited `q` and directories below it. */
  lemma {:induction false} DropGuarded(c: Config, events: seq<Event>, q: Path, dirs: set<Path>, more: set<Path>)
    requires Guarded(c, events, more) && forall p :: p in more ==> p in dirs || q <= p
    ensures Guarded(c, Drop(events, Some(q)), dirs)
    decreases |events|
  {
    if events != [] {
      var e := events[0];
      var more' := if IgnoredDir(c, e) then more + {e.At()} else more;
      if Below(e, Some(q)) {
        DropGuarded(c, events[1..], q, dirs, more');
        assert Drop(events, Some(q)) == Drop(events[1..], Some(q));
      } else {
        DropGuarded(c, events[1..], q, if IgnoredDir(c, e) then dirs + {e.At()} else dirs, more');
        assert Drop(events, Some(q))[1..] == Drop(events[1..], Some(q));
        if !ExposedEvent(c, e) {
          var p :| p in more && p <= e.At();
          PrefixTransitive(q, p, e.At());
          assert p in dirs && p <= e.At();
        }
      }
    }
  }

  /** The rules after any number of questions. */
  ghost predicate Asked(c: Config, st: Loading) {
    IgnoreRules.Advanced(c.rules, st.rules)
  }

  /** Whether the rules ignore what is met at `e` does not depend on what was asked before. */
  ghost predicate SteadyAt(c: Config, e: Event) {
    Visits(e) && e.args.info.Some? && ExposedEvent(c, e) ==>
      IgnoreRules.SameAnswers(c.glob, c.rules, Slash(RelTo(c.chart, e.At())), e.args.info.value.Dir?)
  }

  ghost predicate Steady(c: Config, events: seq<Event>) {
    forall e :: e in events ==> SteadyAt(c, e)
  }

  lemma AskAnswers(c: Config, st: Loading, rel: Path, isDir: bool)
    requires Asked(c, st)
    ensures var (st', ignored) := Ask(c, st, rel, isDir);
      && Asked(c, st') && st'.files == st.files
      && (IgnoreRules.SameAnswers(c.glob, c.rules, Slash(rel), isDir) ==> ignored == Ignored(c, rel, isDir))
  {
    IgnoreRules.StaysAdvanced(c.glob, c.rules, st.rules, Slash(rel), isDir);
  }

  /**
   What a call with `args` answers, and how it leaves the files, if no directory above is ignored: an error exactly on
   what must not be passed over, SkipDir exactly on an ignored directory, and a new file exactly on a file to be loaded.
   */
  ghost predicate Answers(c: Config, e: Event, st: Loading, st': Loading, out: Outcome) {
    && (out.Failed? <==> Offends(c, e))
    && (out.SkipDir? <==> IgnoredDir(c, e))
    && (!out.Failed? ==> st'.files == st.files + Expected(c, [e]))
  }

  /** One call of the visitor on an exposed event. */
  lemma HeadVisit(c: Config, w: World, st: Loading, e: Event)
    requires FormOk(c, w, e) && e.Call? && ExposedEvent(c, e) && SteadyAt(c, e) && Asked(c, st)
    ensures var (st', out) := Visit(c, w, st, e.args); Asked(c, st') && Answers(c, e, st, st', out)
  {
    var rel := RelTo(c.chart, e.At());
    AskAnswers(c, st, rel, true);
    AskAnswers(c, st, rel, false);
    if Visits(e) {
      var abs := e.args.abs;
      SecureIffBelowRoot(w, c.root, abs);
      if e.args.info.value.File? { ReadsTruePath(w, abs); }
    }
  }

  /** The walker object: a visit updates its files in place and calls matchers that may rewrite their rules. */
  class SecureFileWalker {
    const config: Config
    const rules: IgnoreRules.Rules
    var files: seq<BufferedFile>

    function Current(): Loading
      reads this, rules, rules.patterns
    {
      Loading(files, rules.Texts())
    }

    constructor (config: Config, rules: IgnoreRules.Rules)
      requires config.rules == rules.Texts()
      ensures this.config == config && this.rules == rules && Current() == Loading([], config.rules)
    {
      this.config, this.rules := config, rules;
      files := [];
    }

    /**
     If the answer does not depend on what was asked before, a call below no ignored directory fails exactly on what
     must not be passed over, skips exactly an ignored directory, and appends exactly a file to be loaded.
     */
    method Walk(w: World, name: Path, absName: Path, fi: Option<Node>, err: Option<Error>) returns (out: Outcome)
      requires rules.Valid()
      modifies this`files, rules.patterns
      ensures rules.Valid()
      ensures (Current(), out) == Visit(config, w, old(Current()), Args(name, absName, fi, err))
      ensures var e := Call(Args(name, absName, fi, err), Some(name));
        Asked(config, old(Current())) && FormOk(config, w, e) && ExposedEvent(config, e) && SteadyAt(config, e) ==>
          Asked(config, Current()) && Answers(config, e, old(Current()), Current(), out)
    {
      ghost var st, e := Current(), Call(Args(name, absName, fi, err), Some(name));
      if Asked(config, st) && FormOk(config, w, e) && ExposedEvent(config, e) && SteadyAt(config, e) {
        HeadVisit(config, w, st, e);
      }
      var n := RelTo(config.chart, name);
      if n == [] {
        return Continue;
      }
      if err.Some? {
        return Failed(err.value);
      }
      if fi.None? || fi.value.Link? {
        return Failed(Other("not a file"));
      }
      var isDir := fi.value.Dir?;
      var ignored := rules.Ignore(config.glob, Slash(n), isDir);
      if ignored {
        return if isDir then SkipDir else Continue;
      }
      if !IsSecure(w, config.root, absName) {
        return Failed(Other(if isDir then "cannot load directory" else "cannot load file"));
      }
      if isDir {
        return Continue;
      }
      if !fi.value.regular {
        return Failed(Other("irregular file"));
      }
      if config.maxSize > 0 && |fi.value.data| > config.maxSize {
        return Failed(Other("file size exceeds limit"));
      }
      var data := ReadFile(w, absName);
      if data.None? {
        return Failed(Other("error reading"));
      }
      files := files + [BufferedFile(Slash(n), TrimBom(data.value))];
      return Continue;
    }
  }

  lemma ExpectedHead(c: Config, events: seq<Event>)
    requires events != []
    ensures Expected(c, events) == Expected(c, [events[0]]) + Expected(c, events[1..])
  {
    assert [events[0]][1..] == [];
  }

  /** Skipping an ignored directory drops neither an expected file nor an offending event. */
  lemma SkipLosesNothing(c: Config, w: World, e: Event, rest: seq<Event>)
    requires FormOk(c, w, e) && WellFormed(c, w, rest) && IgnoredDir(c, e) && Guarded(c, rest, {e.At()})
    ensures var kept := Drop(rest, e.scope);
      && WellFormed(c, w, kept) && Guarded(c, kept, {})
      && Expected(c, kept) == Expected(c, rest)
      && (SomeOffends(c, kept) <==> SomeOffends(c, rest))
  {
    forall f | f in rest && Below(f, e.scope) ensures !Loads(c, f) && !Offends(c, f) { BelowIgnored(c, w, e, f); }
    forall f ensures f in Drop(rest, e.scope) <==> f in rest && !Below(f, e.scope) { DropWithin(rest, e.scope, f); }
    DropUnloaded(c, rest, e.scope);
    DropGuarded(c, rest, e.At(), {}, {e.At()});
  }

  lemma HeadAndRest(c: Config, w: World, events: seq<Event>)
    requires WellFormed(c, w, events) && Guarded(c, events, {}) && events != []
    ensures FormOk(c, w, events[0]) && ExposedEvent(c, events[0]) && WellFormed(c, w, events[1..])
    ensures Guarded(c, events[1..], if IgnoredDir(c, events[0]) then {events[0].At()} else {})
    ensures forall f :: f in events <==> f == events[0] || f in events[1..]
  {
    assert {} + {events[0].At()} == {events[0].At()};
  }

  ghost predicate SomeOffends(c: Config, events: seq<Event>) {
    exists e :: e in events && Offends(c, e)
  }

  lemma OffendsHeadOrRest(c: Config, events: seq<Event>)
    requires events != []
    ensures SomeOffends(c, events) <==> Offends(c, events[0]) || SomeOffends(c, events[1..])
  {
    assert forall f :: f in events <==> f == events[0] || f in events[1..];
  }

  /** `result` is a failure exactly if some event offends, and otherwise `files` and exactly the expected files. */
  ghost predicate LoadsExactly(c: Config, events: seq<Event>, files: seq<BufferedFile>, result: (Loading, Outcome)) {
    && (result.1.Failed? <==> SomeOffends(c, events))
    && (!result.1.Failed? ==> result.1 == Continue && result.0.files == files + Expected(c, events))
  }

  lemma {:induction false} ProcessLoads(c: Config, w: World, events: seq<Event>, st: Loading)
    requires WellFormed(c, w, events) && Guarded(c, events, {}) && Steady(c, events) && Asked(c, st)
    ensures LoadsExactly(c, events, st.files, Process(events, VisitFn(c, w), st))
    decreases |events|
  {
    if events == [] {
      assert st.files + [] == st.files;
      return;
    }
    HeadAndRest(c, w, events);
    var e, rest := events[0], events[1..];
    OffendsHeadOrRest(c, events);
    if e.Abort? {
      return;
    }
    HeadVisit(c, w, st, e);
    ExpectedHead(c, events);
    var (st', out) := Visit(c, w, st, e.args);
    if out.Continue? {
      ProcessLoads(c, w, rest, st');
      LoadsAfterHead(c, events, st.files, Expected(c, [e]), rest, Process(rest, VisitFn(c, w), st'));
    } else if out.SkipDir? {
      SkipLosesNothing(c, w, e, rest);
      var kept := Drop(rest, e.scope);
      forall f | f in kept ensures SteadyAt(c, f) { DropWithin(rest, e.scope, f); }
      ProcessLoads(c, w, kept, st');
      ProcessSkip(events, VisitFn(c, w), st, st');
      LoadsAfterHead(c, events, st.files, Expected(c, [e]), kept, Process(kept, VisitFn(c, w), st'));
    }
  }

  /** What is done after the first event adds up with it. */
  lemma LoadsAfterHead(c: Config, events: seq<Event>, files: seq<BufferedFile>, head: seq<BufferedFile>,
                       kept: seq<Event>, result: (Loading, Outcome))
    requires LoadsExactly(c, kept, files + head, result)
    requires Expected(c, events) == head + Expected(c, kept)
    requires SomeOffends(c, kept) <==> SomeOffends(c, events)
    ensures LoadsExactly(c, events, files, result)
  {
    Associative(files, head, Expected(c, kept));
  }

  // ----- the preorder list of a chart -----

  lemma GuardedConcat(c: Config, a: seq<Event>, b: seq<Event>, dirs: set<Path>)
    requires Guarded(c, a, dirs) && Guarded(c, b, dirs)
    ensures Guarded(c, a + b, dirs)
    decreases |a|
  {
    if a == [] {
      assert a + b == b;
    } else {
      assert (a + b)[1..] == a[1..] + b;
      var more := if IgnoredDir(c, a[0]) then dirs + {a[0].At()} else dirs;
      GuardedMore(c, b, dirs, more);
      GuardedConcat(c, a[1..], b, more);
    }
  }

  /** Within the chart: `p` is the chart or below it. */
  lemma RelSnoc(chart: Path, p: Path, n: Name)
    requires chart <= p
    ensures chart <= p + [n] && RelTo(chart, p + [n]) == RelTo(chart, p) + [n]
  {
  }

  ghost predicate AboveExposed(c: Config, p: Path, dirs: set<Path>) {
    Exposed(c, RelTo(c.chart, p)) || exists q :: q in dirs && q <= p
  }

  lemma {:induction false} PreorderGuarded(c: Config, w: World, path: Path, abs: Path, info: Node, linked: bool, dirs: set<Path>)
    requires Located(w, path, info) && c.chart <= path && AboveExposed(c, path, dirs)
    ensures Guarded(c, Preorder(w, path, abs, info, linked), dirs)
    decreases Fuel(w, path, info), info, 1, 1
  {
    match info
    case File(_, _) =>
      VisitGuarded(c, VisitEvent(path, abs, info, linked), [], dirs);
    case Link(_, _) =>
      LinkPreorder(w, path, abs, info, linked);
      match EvalSymlinks(w, path) {
        case None =>
          VisitGuarded(c, Abort(path, BadLink), [], dirs);
        case Some(resolved) =>
          PreorderGuarded(c, w, path, resolved, Lstat(w, resolved).value, true, dirs);
      }
    case Dir(_) =>
      DirGuarded(c, w, path, abs, info, linked, dirs);
  }

  /** At a link the walk goes on with what it leads to. */
  lemma LinkPreorder(w: World, path: Path, abs: Path, info: Node, linked: bool)
    requires Located(w, path, info) && info.Link?
    ensures EvalSymlinks(w, path).None? ==> Preorder(w, path, abs, info, linked) == [Abort(path, BadLink)]
    ensures EvalSymlinks(w, path).Some? ==>
      var resolved := EvalSymlinks(w, path).value;
      && Lstat(w, resolved).Some? && Located(w, path, Lstat(w, resolved).value)
      && Fuel(w, path, Lstat(w, resolved).value) < Fuel(w, path, info)
      && Preorder(w, path, abs, info, linked) == Preorder(w, path, resolved, Lstat(w, resolved).value, true)
  {
    if EvalSymlinks(w, path).Some? {
      LinkResolves(w, path, info);
    }
  }

  lemma {:induction false} DirGuarded(c: Config, w: World, path: Path, abs: Path, info: Node, linked: bool, dirs: set<Path>)
    requires Located(w, path, info) && info.Dir? && c.chart <= path && AboveExposed(c, path, dirs)
    ensures Guarded(c, Preorder(w, path, abs, info, linked), dirs)
    decreases Fuel(w, path, info), info, 1, 0
  {
    var visit := VisitEvent(path, abs, info, linked);
    if OpenDir(w, path).Some? {
      var names := Listing(info.entries.Keys);
      ChildrenGuarded(c, w, path, abs, info, names, if IgnoredDir(c, visit) then dirs + {path} else dirs);
      VisitGuarded(c, visit, Children(w, path, abs, info, names), dirs);
    } else {
      ReportGuarded(c, path, abs, info, linked, dirs);
      assert Preorder(w, path, abs, info, linked)
          == [visit, Call(Args(path, abs, Some(info), Some(Unreadable)), Some(path))];
    }
  }

  lemma VisitGuarded(c: Config, visit: Event, rest: seq<Event>, dirs: set<Path>)
    requires Covered(c, visit, dirs)
    requires Guarded(c, rest, if IgnoredDir(c, visit) then dirs + {visit.At()} else dirs)
    ensures Guarded(c, [visit] + rest, dirs)
  {
    assert ([visit] + rest)[1..] == rest;
  }

  /** A directory that cannot be listed. */
  lemma ReportGuarded(c: Config, path: Path, abs: Path, info: Node, linked: bool, dirs: set<Path>)
    requires info.Dir? && c.chart <= path && AboveExposed(c, path, dirs)
    ensures Guarded(c, [VisitEvent(path, abs, info, linked), Call(Args(path, abs, Some(info), Some(Unreadable)), Some(path))], dirs)
  {
    var visit := VisitEvent(path, abs, info, linked);
    var report := Call(Args(path, abs, Some(info), Some(Unreadable)), Some(path));
    var more := if IgnoredDir(c, visit) then dirs + {path} else dirs;
    assert [visit, report][1..] == [report] && [report][1..] == [];
    assert Covered(c, report, more) by {
      if !ExposedEvent(c, report) && Exposed(c, RelTo(c.chart, path)) { assert path in more; }
    }
    assert Guarded(c, [report], more);
  }

  lemma {:induction false} ChildrenGuarded(c: Config, w: World, path: Path, abs: Path, info: Node, names: seq<Name>, dirs: set<Path>)
    requires Located(w, path, info) && info.Dir? && OpenDir(w, path).Some? && c.chart <= path
    requires forall n :: n in names ==> n in info.entries
    requires AboveExposed(c, path, dirs)
    requires RelTo(c.chart, path) != [] && Ignored(c, RelTo(c.chart, path), true) ==> path in dirs
    ensures Guarded(c, Children(w, path, abs, info, names), dirs)
    decreases Fuel(w, path, info), info, 0, |names|
  {
    if names != [] {
      var n := names[0];
      EntryLocated(w, path, info, n);
      RelSnoc(c.chart, path, n);
      ChildExposed(c, path, n, dirs);
      PreorderGuarded(c, w, path + [n], abs + [n], info.entries[n], false, dirs);
      ChildrenGuarded(c, w, path, abs, info, names[1..], dirs);
      GuardedConcat(c, Preorder(w, path + [n], abs + [n], info.entries[n], false),
                    Children(w, path, abs, info, names[1..]), dirs);
    }
  }

  lemma ChildExposed(c: Config, path: Path, n: Name, dirs: set<Path>)
    requires c.chart <= path && AboveExposed(c, path, dirs)
    requires RelTo(c.chart, path) != [] && Ignored(c, RelTo(c.chart, path), true) ==> path in dirs
    ensures AboveExposed(c, path + [n], dirs)
  {
    RelSnoc(c.chart, path, n);
    var rel := RelTo(c.chart, path);
    if q :| q in dirs && q <= path {
      PrefixTransitive(q, path, path + [n]);
    } else {
      forall i | 0 < i < |rel + [n]| ensures !Ignored(c, (rel + [n])[..i], true) {
        assert (rel + [n])[..i] == if i < |rel| then rel[..i] else rel;
      }
    }
  }

  lemma {:induction false} PreorderWellFormed(c: Config, w: World, path: Path, abs: Path, info: Node, linked: bool)
    requires Located(w, path, info) && c.chart <= path
    requires info.Link? || TruePath(w, path, abs, info)
    ensures WellFormed(c, w, Preorder(w, path, abs, info, linked))
    decreases Fuel(w, path, info), info, 1, 0
  {
    match info
    case File(_, _) =>
    case Link(_, _) =>
      if EvalSymlinks(w, path).Some? {
        LinkResolves(w, path, info);
        PreorderWellFormed(c, w, path, EvalSymlinks(w, path).value, Lstat(w, EvalSymlinks(w, path).value).value, true);
      }
    case Dir(entries) =>
      if OpenDir(w, path).Some? { ChildrenWellFormed(c, w, path, abs, info, Listing(entries.Keys)); }
  }

  lemma {:induction false} ChildrenWellFormed(c: Config, w: World, path: Path, abs: Path, info: Node, names: seq<Name>)
    requires Located(w, path, info) && info.Dir? && OpenDir(w, path).Some? && c.chart <= path
    requires forall n :: n in names ==> n in info.entries
    requires TruePath(w, path, abs, info)
    ensures WellFormed(c, w, Children(w, path, abs, info, names))
    decreases Fuel(w, path, info), info, 0, |names|
  {
    if names != [] {
      var n := names[0];
      EntryLocated(w, path, info, n);
      RelSnoc(c.chart, path, n);
      if !info.entries[n].Link? { EntryTruePath(w, path, abs, info, n); }
      PreorderWellFormed(c, w, path + [n], abs + [n], info.entries[n], false);
      ChildrenWellFormed(c, w, path, abs, info, names[1..]);
    }
  }

  // ----- the load -----

  /** What Lstat sees at a path with a trailing slash: a directory, links followed. */
  function StatDir(w: World, p: Path): Option<Node> {
    var (q, _) :- Resolve(w.root, [], Steps(p), w.kernelLinks);
    var node :- Lookup(w.root, q);
    if node.Dir? then Some(node) else None
  }

  /** The walk of a chart; if the chart is not a directory the visitor is only told so. */
  ghost function LoadEvents(w: World, chart: Path): seq<Event>
    requires w.root.Dir?
  {
    match StatDir(w, chart)
    case None => [Call(Args(chart, chart, None, Some(Missing)), None)]
    case Some(info) =>
      KernelWhere(w, chart, w.kernelLinks);
      Preorder(w, chart, chart, info, false)
  }

  datatype PathArg = Relative(steps: seq<Step>) | Absolute(path: Path)

  /** Where SecureLoadDir looks for the chart. */
  function ChartPath(w: World, root: Path, path: PathArg): Option<Path> {
    Join(w, root, [], if path.Absolute? then Rel(root, path.path) else path.steps, MAX_SYMLINKS)
  }

  /** A relative path leads to where it would lead if root were the whole file system. */
  lemma ChartPathIsChroot(w: World, root: Path, steps: seq<Step>)
    requires LinkFree(w.root, root) && Lookup(w.root, root).value.Dir?
    requires Resolve(Lookup(w.root, root).value, [], steps, MAX_SYMLINKS).Some?
    ensures ChartPath(w, root, Relative(steps))
         == Some(root + Resolve(Lookup(w.root, root).value, [], steps, MAX_SYMLINKS).value.0)
  {
    JoinIsChroot(w, root, [], steps, MAX_SYMLINKS);
  }

  /** The argument names what is at `p` below root. */
  predicate Names(root: Path, path: PathArg, p: Path) {
    path == Relative(Downs(p)) || path == Absolute(root + p)
  }

  /** A path without links, relative to root or absolute, leads to itself. */
  lemma ChartPathIsIt(w: World, root: Path, path: PathArg, p: Path)
    requires LinkFree(w.root, root + p) && Names(root, path, p)
    ensures ChartPath(w, root, path) == Some(root + p)
  {
    RelBelow(root, p);
    assert root + [] + p == root + p;
    JoinFollows(w, root, [], p, MAX_SYMLINKS);
  }

  /** Files, or the error. */
  function Loaded(result: (Loading, Outcome)): Result<seq<BufferedFile>, Error> {
    if result.1.Failed? then Err(result.1.err) else Ok(result.0.files)
  }

  /** The result of a load. */
  ghost function Load(c: Config, w: World): Result<seq<BufferedFile>, Error>
    requires w.root.Dir?
  {
    Loaded(Process(LoadEvents(w, c.chart), VisitFn(c, w), Loading([], c.rules)))
  }

  lemma LoadEventsOk(c: Config, w: World)
    requires w.root.Dir? && NoLinks(w.root, c.chart)
    ensures WellFormed(c, w, LoadEvents(w, c.chart)) && Guarded(c, LoadEvents(w, c.chart), {})
    ensures Increasing(LoadEvents(w, c.chart))
  {
    var info := StatDir(w, c.chart);
    NoLinksResolves(w.root, c.chart, w.kernelLinks);
    NoLinksResolves(w.root, c.chart, EVAL_LINKS);
    if info.Some? {
      KernelWhere(w, c.chart, w.kernelLinks);
      PreorderWellFormed(c, w, c.chart, c.chart, info.value, false);
      PreorderGuarded(c, w, c.chart, c.chart, info.value, false, {});
      PreorderIncreasing(w, c.chart, c.chart, info.value, false);
    } else {
      assert LoadEvents(w, c.chart)[1..] == [];
    }
  }

  /**
   A load fails exactly if something that is not below an ignored directory is in the way:
   an unreadable directory, a broken link, a directory or file outside root, or an irregular or too large
   file. Otherwise it returns exactly the files to be loaded, in walk order, each once.
   */
  ghost predicate Exact(c: Config, w: World)
    requires w.root.Dir?
  {
    var events := LoadEvents(w, c.chart);
    LoadsExactly(c, events, [], Process(events, VisitFn(c, w), Loading([], c.rules))) && Increasing(events)
  }

  /** The rules answer alike, whatever was asked before, on everything that the load can ask. */
  ghost predicate SteadyLoad(c: Config, w: World)
    requires w.root.Dir?
  {
    Steady(c, LoadEvents(w, c.chart))
  }

  lemma StableLoadsAreSteady(c: Config, w: World)
    requires w.root.Dir? && IgnoreRules.AllStable(c.rules)
    ensures SteadyLoad(c, w)
  {
    forall e | e in LoadEvents(w, c.chart) && Visits(e) && e.args.info.Some?
      ensures IgnoreRules.SameAnswers(c.glob, c.rules, Slash(RelTo(c.chart, e.At())), e.args.info.value.Dir?)
    {
      IgnoreRules.AnswersDoNotDependOnHistory(c.glob, c.rules, Slash(RelTo(c.chart, e.At())), e.args.info.value.Dir?);
    }
  }

  /** Such loads are exact, with stable rules in particular. */
  lemma LoadIsExact(c: Config, w: World)
    requires w.root.Dir? && NoLinks(w.root, c.chart) && SteadyLoad(c, w)
    ensures Exact(c, w)
  {
    LoadEventsOk(c, w);
    IgnoreRules.NotAsked(c.rules);
    ProcessLoads(c, w, LoadEvents(w, c.chart), Loading([], c.rules));
  }

  // ----- every reachable file is met -----

  ghost predicate HasVisit(events: seq<Event>, p: Path) {
    exists e :: e in events && Visits(e) && e.At() == p
  }

  ghost predicate HasError(events: seq<Event>, p: Path) {
    exists e :: e in events && e.Call? && e.args.err.Some? && e.At() == p
  }

  ghost predicate HasAbort(events: seq<Event>, p: Path) {
    exists e :: e in events && e.Abort? && e.At() == p
  }

  /** The walk goes on below a visited directory, or has an error there. */
  ghost predicate GoesOn(events: seq<Event>, e: Event) {
    Visits(e) && e.args.info.Some? && e.args.info.value.Dir? ==>
      || HasError(events, e.At())
      || forall n :: n in e.args.info.value.entries ==>
           HasVisit(events, e.At() + [n]) || HasAbort(events, e.At() + [n])
  }

  ghost predicate Complete(events: seq<Event>) {
    forall e :: e in events ==> GoesOn(events, e)
  }

  lemma GoesOnMore(events: seq<Event>, more: seq<Event>, e: Event)
    requires GoesOn(events, e) && forall f :: f in events ==> f in more
    ensures GoesOn(more, e)
  {
    if Visits(e) && e.args.info.Some? && e.args.info.value.Dir? && !HasError(more, e.At()) {
      forall n | n in e.args.info.value.entries ensures HasVisit(more, e.At() + [n]) || HasAbort(more, e.At() + [n]) {
        assert HasVisit(events, e.At() + [n]) || HasAbort(events, e.At() + [n]);
      }
    }
  }

  /** The first event of a preorder list is the visit of its path, or the report of a broken link there. */
  lemma {:induction false} PreorderStarts(w: World, path: Path, abs: Path, info: Node, linked: bool)
    requires Located(w, path, info)
    ensures HasVisit(Preorder(w, path, abs, info, linked), path) || HasAbort(Preorder(w, path, abs, info, linked), path)
    ensures !info.Link? ==> HasVisit(Preorder(w, path, abs, info, linked), path)
    decreases Fuel(w, path, info), info, 1, 0
  {
    var events := Preorder(w, path, abs, info, linked);
    if info.Link? && EvalSymlinks(w, path).Some? {
      LinkResolves(w, path, info);
      PreorderStarts(w, path, EvalSymlinks(w, path).value, Lstat(w, EvalSymlinks(w, path).value).value, true);
    } else {
      assert events[0] in events;
    }
  }

  lemma {:induction false} PreorderComplete(w: World, path: Path, abs: Path, info: Node, linked: bool)
    requires Located(w, path, info)
    ensures Complete(Preorder(w, path, abs, info, linked))
    decreases Fuel(w, path, info), info, 1, 0
  {
    match info
    case File(_, _) =>
    case Link(_, _) =>
      if EvalSymlinks(w, path).Some? {
        LinkResolves(w, path, info);
        PreorderComplete(w, path, EvalSymlinks(w, path).value, Lstat(w, EvalSymlinks(w, path).value).value, true);
      }
    case Dir(entries) =>
      var events := Preorder(w, path, abs, info, linked);
      if OpenDir(w, path).None? {
        var report := Call(Args(path, abs, Some(info), Some(Unreadable)), Some(path));
        assert events == [VisitEvent(path, abs, info, linked), report];
        assert report in events;
      } else {
        var children := Children(w, path, abs, info, Listing(entries.Keys));
        ChildrenComplete(w, path, abs, info, Listing(entries.Keys));
        assert events == [VisitEvent(path, abs, info, linked)] + children;
        forall e | e in events ensures GoesOn(events, e) {
          if e in children {
            GoesOnMore(children, events, e);
          } else {
            forall n | n in entries ensures HasVisit(events, path + [n]) || HasAbort(events, path + [n]) {
              assert HasVisit(children, path + [n]) || HasAbort(children, path + [n]);
            }
          }
        }
      }
  }

  lemma {:induction false} ChildrenComplete(w: World, path: Path, abs: Path, info: Node, names: seq<Name>)
    requires Located(w, path, info) && info.Dir? && OpenDir(w, path).Some?
    requires forall n :: n in names ==> n in info.entries
    ensures Complete(Children(w, path, abs, info, names))
    ensures var children := Children(w, path, abs, info, names);
      forall n :: n in names ==> HasVisit(children, path + [n]) || HasAbort(children, path + [n])
    decreases Fuel(w, path, info), info, 0, |names|
  {
    if names != [] {
      var n := names[0];
      EntryLocated(w, path, info, n);
      var first := Preorder(w, path + [n], abs + [n], info.entries[n], false);
      var others := Children(w, path, abs, info, names[1..]);
      var children := Children(w, path, abs, info, names);
      assert children == first + others;
      PreorderStarts(w, path + [n], abs + [n], info.entries[n], false);
      PreorderComplete(w, path + [n], abs + [n], info.entries[n], false);
      ChildrenComplete(w, path, abs, info, names[1..]);
      forall e | e in children ensures GoesOn(children, e) {
        if e in first { GoesOnMore(first, children, e); } else { GoesOnMore(others, children, e); }
      }
      forall m | m in names ensures HasVisit(children, path + [m]) || HasAbort(children, path + [m]) {
        if m == n {
          assert HasVisit(first, path + [m]) || HasAbort(first, path + [m]);
        } else {
          assert m in names[1..];
          assert HasVisit(others, path + [m]) || HasAbort(others, path + [m]);
        }
      }
    }
  }

  /** Every prefix of a path that resolves does too. */
  lemma {:induction false} PrefixResolves(w: World, p: Path, q: Path)
    requires EvalSymlinks(w, p + q).Some?
    ensures EvalSymlinks(w, p).Some?
    decreases |q|
  {
    if q == [] {
      assert p + q == p;
    } else {
      var r := p + Parent(q);
      assert p + q == r + [Last(q)];
      Snoc(r, Last(q));
      ResolveSnoc(w.root, [], Steps(r), Last(q), EVAL_LINKS);
      PrefixResolves(w, p, Parent(q));
    }
  }

  /** If a component more resolves, the path so far leads to a directory with this entry. */
  lemma EntryExists(w: World, p: Path, n: Name)
    requires EvalSymlinks(w, p + [n]).Some?
    ensures EvalSymlinks(w, p).Some?
    ensures var d := Lookup(w.root, EvalSymlinks(w, p).value); d.Some? && d.value.Dir? && n in d.value.entries
  {
    Snoc(p, n);
    ResolveSnoc(w.root, [], Steps(p), n, EVAL_LINKS);
    Snoc(EvalSymlinks(w, p).value, n);
  }

  /** Where the walk has been, it goes on to every entry that resolves, if nothing offends. */
  lemma WalkGoesOn(c: Config, w: World, rel: Path, e: Event)
    requires w.root.Dir? && NoLinks(w.root, c.chart) && StatDir(w, c.chart).Some?
    requires !SomeOffends(c, LoadEvents(w, c.chart))
    requires rel != [] && EvalSymlinks(w, c.chart + rel).Some? && Exposed(c, rel)
    requires e in LoadEvents(w, c.chart) && Visits(e) && e.At() == c.chart + Parent(rel)
    ensures HasVisit(LoadEvents(w, c.chart), c.chart + rel)
  {
    EntryIsMet(c, w, rel, e);
    NoErrorAbove(c, w, rel);
    NoAbortInLoad(c, w, c.chart + rel);
  }

  lemma EntryIsMet(c: Config, w: World, rel: Path, e: Event)
    requires w.root.Dir? && NoLinks(w.root, c.chart) && StatDir(w, c.chart).Some?
    requires rel != [] && EvalSymlinks(w, c.chart + rel).Some?
    requires e in LoadEvents(w, c.chart) && Visits(e) && e.At() == c.chart + Parent(rel)
    ensures var events := LoadEvents(w, c.chart);
      HasError(events, c.chart + Parent(rel)) || HasVisit(events, c.chart + rel) || HasAbort(events, c.chart + rel)
  {
    var p, n := c.chart + Parent(rel), Last(rel);
    assert c.chart + rel == p + [n];
    EntryExists(w, p, n);
    VisitedEntry(c, w, p, n, e);
  }

  lemma NoAbortInLoad(c: Config, w: World, p: Path)
    requires w.root.Dir? && NoLinks(w.root, c.chart) && EvalSymlinks(w, p).Some?
    ensures !HasAbort(LoadEvents(w, c.chart), p)
  {
    LoadEventsOk(c, w);
    NoAbortAt(c, w, LoadEvents(w, c.chart), p);
  }

  lemma VisitedEntry(c: Config, w: World, p: Path, n: Name, e: Event)
    requires w.root.Dir? && NoLinks(w.root, c.chart) && StatDir(w, c.chart).Some?
    requires e in LoadEvents(w, c.chart) && Visits(e) && e.At() == p
    requires EvalSymlinks(w, p).Some?
    requires var d := Lookup(w.root, EvalSymlinks(w, p).value); d.Some? && d.value.Dir? && n in d.value.entries
    ensures var events := LoadEvents(w, c.chart);
      HasError(events, p) || HasVisit(events, p + [n]) || HasAbort(events, p + [n])
  {
    LoadEventsOk(c, w);
    assert FormOk(c, w, e);
    LoadEventsComplete(w, c.chart);
    assert GoesOn(LoadEvents(w, c.chart), e);
  }

  lemma LoadEventsComplete(w: World, chart: Path)
    requires w.root.Dir? && StatDir(w, chart).Some?
    ensures Complete(LoadEvents(w, chart)) && HasVisit(LoadEvents(w, chart), chart)
  {
    var info := StatDir(w, chart).value;
    KernelWhere(w, chart, w.kernelLinks);
    PreorderStarts(w, chart, chart, info, false);
    PreorderComplete(w, chart, chart, info, false);
  }

  /** A path that resolves is met by the walk, if no directory above it is ignored and nothing offends. */
  lemma {:induction false} ReachableIsVisited(c: Config, w: World, rel: Path)
    requires w.root.Dir? && NoLinks(w.root, c.chart) && StatDir(w, c.chart).Some?
    requires !SomeOffends(c, LoadEvents(w, c.chart))
    requires EvalSymlinks(w, c.chart + rel).Some? && Exposed(c, rel)
    ensures HasVisit(LoadEvents(w, c.chart), c.chart + rel)
    decreases |rel|
  {
    if rel == [] {
      LoadEventsComplete(w, c.chart);
      assert c.chart + rel == c.chart;
    } else {
      assert c.chart + rel == (c.chart + Parent(rel)) + [Last(rel)];
      EntryExists(w, c.chart + Parent(rel), Last(rel));
      ExposedParent(c, rel);
      ReachableIsVisited(c, w, Parent(rel));
      var e :| e in LoadEvents(w, c.chart) && Visits(e) && e.At() == c.chart + Parent(rel);
      WalkGoesOn(c, w, rel, e);
    }
  }

  lemma NoAbortAt(c: Config, w: World, events: seq<Event>, p: Path)
    requires WellFormed(c, w, events) && EvalSymlinks(w, p).Some?
    ensures !HasAbort(events, p)
  {
  }

  /** The chart directory itself can be listed. */
  lemma NoErrorAtChart(w: World, chart: Path)
    requires w.root.Dir? && NoLinks(w.root, chart) && StatDir(w, chart).Some?
    ensures !HasError(LoadEvents(w, chart), chart)
  {
    var info := StatDir(w, chart).value;
    KernelWhere(w, chart, w.kernelLinks);
    var children := Children(w, chart, chart, info, Listing(info.entries.Keys));
    assert LoadEvents(w, chart) == [VisitEvent(chart, chart, info, false)] + children;
    ChildrenBelow(w, chart, chart, info, Listing(info.entries.Keys));
    forall e | e in children ensures e.At() != chart {
      var n :| n in Listing(info.entries.Keys) && chart + [n] <= e.At();
    }
  }

  lemma ExposedParent(c: Config, rel: Path)
    requires rel != [] && Exposed(c, rel)
    ensures Exposed(c, Parent(rel)) && (Parent(rel) != [] ==> !Ignored(c, Parent(rel), true))
  {
    forall i | 0 < i < |Parent(rel)| ensures !Ignored(c, Parent(rel)[..i], true) {
      assert Parent(rel)[..i] == rel[..i];
    }
    assert Parent(rel) == rel[..|rel|-1];
  }

  lemma NoErrorAbove(c: Config, w: World, rel: Path)
    requires w.root.Dir? && NoLinks(w.root, c.chart) && StatDir(w, c.chart).Some?
    requires !SomeOffends(c, LoadEvents(w, c.chart))
    requires rel != [] && Exposed(c, rel)
    ensures !HasError(LoadEvents(w, c.chart), c.chart + Parent(rel))
  {
    ExposedParent(c, rel);
    assert RelTo(c.chart, c.chart + Parent(rel)) == Parent(rel);
    if Parent(rel) == [] {
      assert c.chart + Parent(rel) == c.chart;
      NoErrorAtChart(w, c.chart);
    } else {
      forall e | e in LoadEvents(w, c.chart) && e.Call? && e.args.err.Some? ensures e.At() != c.chart + Parent(rel) {
        assert !Offends(c, e);
      }
    }
  }

  /** A regular or irregular file is what a path below the chart leads to. */
  predicate LeadsToFile(w: World, p: Path) {
    EvalSymlinks(w, p).Some? && Lookup(w.root, EvalSymlinks(w, p).value).Some?
    && Lookup(w.root, EvalSymlinks(w, p).value).value.File?
  }

  /** The walk, if nothing offends, meets exactly the paths within the chart that are to be loaded. */
  lemma VisitedIffReachable(c: Config, w: World, rel: Path)
    requires w.root.Dir? && NoLinks(w.root, c.chart)
    requires !SomeOffends(c, LoadEvents(w, c.chart))
    ensures (exists e :: e in LoadEvents(w, c.chart) && Loads(c, e) && e.At() == c.chart + rel)
            <==> Kept(c, rel) && LeadsToFile(w, c.chart + rel)
    ensures Kept(c, rel) && LeadsToFile(w, c.chart + rel) ==> Acceptable(c, Target(w, c, rel), FileAt(w, c, rel))
  {
    var events := LoadEvents(w, c.chart);
    LoadEventsOk(c, w);
    assert RelTo(c.chart, c.chart + rel) == rel;
    if Kept(c, rel) && LeadsToFile(w, c.chart + rel) {
      ChartIsDir(c, w, rel);
      ReachableIsVisited(c, w, rel);
      var e :| e in events && Visits(e) && e.At() == c.chart + rel;
      assert FormOk(c, w, e);
      assert Loads(c, e) && !Offends(c, e);
    }
    if e :| e in events && Loads(c, e) && e.At() == c.chart + rel {
      assert FormOk(c, w, e);
    }
  }

  /** The file that a path within the chart leads to, and where it physically is. */
  function Target(w: World, c: Config, rel: Path): Path
    requires LeadsToFile(w, c.chart + rel)
  {
    EvalSymlinks(w, c.chart + rel).value
  }

  function FileAt(w: World, c: Config, rel: Path): Node
    requires LeadsToFile(w, c.chart + rel)
  {
    Lookup(w.root, Target(w, c, rel)).value
  }

  predicate IsLoadedAs(w: World, c: Config, rel: Path, f: BufferedFile) {
    Kept(c, rel) && LeadsToFile(w, c.chart + rel) && f == BufferedFile(Slash(rel), TrimBom(FileAt(w, c, rel).data))
  }

  /** Event `e` loads file `f`. */
  predicate LoadsAs(c: Config, e: Event, f: BufferedFile) {
    Loads(c, e) && f == BufferedFile(Slash(RelTo(c.chart, e.At())), TrimBom(e.args.info.value.data))
  }

  lemma {:induction false} ExpectedMembers(c: Config, events: seq<Event>, f: BufferedFile)
    ensures f in Expected(c, events) <==> exists e :: e in events && LoadsAs(c, e, f)
  {
    if events != [] {
      ExpectedMembers(c, events[1..], f);
      assert f in Expected(c, events) <==> LoadsAs(c, events[0], f) || f in Expected(c, events[1..]);
      if e :| e in events && LoadsAs(c, e, f) {
        assert e == events[0] || e in events[1..];
      }
      if e :| e in events[1..] && LoadsAs(c, e, f) {
        assert e in events;
      }
    }
  }

  lemma LoadEventForm(c: Config, w: World, e: Event)
    requires w.root.Dir? && NoLinks(w.root, c.chart) && e in LoadEvents(w, c.chart)
    ensures FormOk(c, w, e)
  {
    LoadEventsOk(c, w);
  }

  lemma EventLoads(c: Config, w: World, e: Event, rel: Path, f: BufferedFile)
    requires FormOk(c, w, e) && Loads(c, e) && e.At() == c.chart + rel
    ensures LeadsToFile(w, c.chart + rel) && FileAt(w, c, rel) == e.args.info.value && RelTo(c.chart, e.At()) == rel
    ensures LoadsAs(c, e, f) <==> IsLoadedAs(w, c, rel, f)
  {
    assert (c.chart + rel)[|c.chart|..] == rel;
  }

  lemma BelowChart(chart: Path, p: Path)
    requires chart <= p
    ensures p == chart + RelTo(chart, p)
  {
  }

  lemma ReachableIsExpected(c: Config, w: World, rel: Path, f: BufferedFile)
    requires w.root.Dir? && NoLinks(w.root, c.chart) && !SomeOffends(c, LoadEvents(w, c.chart))
    requires IsLoadedAs(w, c, rel, f)
    ensures f in Expected(c, LoadEvents(w, c.chart)) && Acceptable(c, Target(w, c, rel), FileAt(w, c, rel))
  {
    var events := LoadEvents(w, c.chart);
    VisitedIffReachable(c, w, rel);
    var e :| e in events && Loads(c, e) && e.At() == c.chart + rel;
    LoadEventForm(c, w, e);
    EventLoads(c, w, e, rel, f);
    ExpectedMembers(c, events, f);
  }

  lemma ExpectedIsReachable(c: Config, w: World, f: BufferedFile) returns (rel: Path)
    requires w.root.Dir? && NoLinks(w.root, c.chart) && !SomeOffends(c, LoadEvents(w, c.chart))
    requires f in Expected(c, LoadEvents(w, c.chart))
    ensures IsLoadedAs(w, c, rel, f)
  {
    var events := LoadEvents(w, c.chart);
    ExpectedMembers(c, events, f);
    var e :| e in events && LoadsAs(c, e, f);
    LoadEventForm(c, w, e);
    rel := RelTo(c.chart, e.At());
    BelowChart(c.chart, e.At());
    EventLoads(c, w, e, rel, f);
  }

  /**
   After a successful load with such rules a file is among the loaded ones exactly if some path within the chart leads
   to it, through any links, and neither the path nor a directory above it is ignored; it bears the path as its name.
   All of them are physically below root, regular and within the limit.
   */
  lemma LoadedIffReachable(c: Config, w: World, f: BufferedFile)
    requires w.root.Dir? && NoLinks(w.root, c.chart) && SteadyLoad(c, w) && Load(c, w).Ok?
    ensures f in Load(c, w).value <==> exists rel :: IsLoadedAs(w, c, rel, f)
    ensures forall rel :: IsLoadedAs(w, c, rel, f) ==> Acceptable(c, Target(w, c, rel), FileAt(w, c, rel))
  {
    LoadIsExact(c, w);
    forall rel | IsLoadedAs(w, c, rel, f)
      ensures f in Load(c, w).value && Acceptable(c, Target(w, c, rel), FileAt(w, c, rel))
    {
      ReachableIsExpected(c, w, rel, f);
    }
    if f in Load(c, w).value {
      var rel := ExpectedIsReachable(c, w, f);
    }
  }

  lemma ChartIsDir(c: Config, w: World, rel: Path)
    requires NoLinks(w.root, c.chart) && rel != [] && EvalSymlinks(w, c.chart + rel).Some?
    ensures StatDir(w, c.chart).Some?
  {
    assert c.chart + rel == (c.chart + [rel[0]]) + rel[1..];
    PrefixResolves(w, c.chart + [rel[0]], rel[1..]);
    EntryExists(w, c.chart, rel[0]);
    NoLinksResolves(w.root, c.chart, EVAL_LINKS);
    NoLinksResolves(w.root, c.chart, w.kernelLinks);
  }

  /** From a root without links the chart path has none, so the results above hold for every load. */
  lemma ChartHasNoLinks(w: World, root: Path, path: PathArg)
    requires LinkFree(w.root, root)
    ensures ChartPath(w, root, path).Some? ==> NoLinks(w.root, ChartPath(w, root, path).value)
  {
    forall i | 0 <= i <= |root| ensures !LinkAt(w.root, root[..i]) {
      if i < |root| { PrefixIsDir(w.root, root, i); } else { assert root[..i] == root; }
    }
    assert root + [] == root;
    JoinHasNoLinks(w, root, [], if path.Absolute? then Rel(root, path.path) else path.steps, MAX_SYMLINKS);
  }

  /** What a caller of SecureLoadDir gets for a root without links and rules that answer alike. */
  ghost predicate LoadsChart(w: World, c: Config, r: Result<seq<BufferedFile>, Error>)
    requires w.root.Dir?
  {
    && (r.Err? <==> SomeOffends(c, LoadEvents(w, c.chart)))
    && (r.Ok? ==> r.value == Expected(c, LoadEvents(w, c.chart)))
  }

  lemma LoadOfRoot(w: World, c: Config, path: PathArg)
    requires w.root.Dir? && ChartPath(w, c.root, path) == Some(c.chart)
    ensures LinkFree(w.root, c.root) && SteadyLoad(c, w) ==> LoadsChart(w, c, Load(c, w))
  {
    if LinkFree(w.root, c.root) && SteadyLoad(c, w) {
      ChartHasNoLinks(w, c.root, path);
      LoadIsExact(c, w);
      assert [] + Expected(c, LoadEvents(w, c.chart)) == Expected(c, LoadEvents(w, c.chart));
    }
  }

  /** Without a chart directory the visitor is told so, which it takes for the top level. */
  lemma LoadOfNothing(w: World, c: Config)
    requires w.root.Dir? && StatDir(w, c.chart).None?
    ensures Visit(c, w, Loading([], c.rules), Args(c.chart, c.chart, None, Some(Missing))) == (Loading([], c.rules), Continue)
    ensures Load(c, w) == Ok([])
  {
    var events, st := LoadEvents(w, c.chart), Loading([], c.rules);
    assert c.chart[|c.chart|..] == [];
    assert VisitFn(c, w)(st, events[0].args) == (st, Continue);
    assert events[1..] == [];
    assert Process(events, VisitFn(c, w), st) == Process(events[1..], VisitFn(c, w), st);
  }

  /** SecureLoadDir, up to the parsing of the files. */
  method SecureLoadDir(w: World, root: Path, path: PathArg, maxSize: int, glob: IgnoreRules.Glob, rules: IgnoreRules.Rules)
    returns (r: Result<seq<BufferedFile>, Error>)
    requires w.root.Dir? && rules.Valid()
    modifies rules.patterns
    ensures ChartPath(w, root, path).None? ==> r.Err?
    ensures ChartPath(w, root, path).Some? ==>
      var c := Config(root, ChartPath(w, root, path).value, maxSize, glob, old(rules.Texts()));
      r == Load(c, w) && (LinkFree(w.root, root) && SteadyLoad(c, w) ==> LoadsChart(w, c, r))
    ensures forall p :: LinkFree(w.root, root + p) && Names(root, path, p) ==>
      r == Load(Config(root, root + p, maxSize, glob, old(rules.Texts())), w)
  {
    var chart := ChartPath(w, root, path);
    forall p | LinkFree(w.root, root + p) && Names(root, path, p) ensures chart == Some(root + p) {
      ChartPathIsIt(w, root, path, p);
    }
    if chart.None? {
      return Err(Other("cannot join"));
    }
    var c := Config(root, chart.value, maxSize, glob, rules.Texts());
    LoadOfRoot(w, c, path);
    var walker := new SecureFileWalker(c, rules);
    var info := StatDir(w, chart.value);
    if info.None? {
      var out := walker.Walk(w, chart.value, chart.value, None, Some(Missing));
      LoadOfNothing(w, c);
      return Loaded((walker.Current(), out));
    }
    KernelWhere(w, chart.value, w.kernelLinks);
    var st, out := SymWalk(w, chart.value, chart.value, info.value, VisitFn(c, w), walker.Current(), false, []);
    assert LoadEvents(w, chart.value) + [] == LoadEvents(w, chart.value);
    r := Loaded((st, out));
  }
}
