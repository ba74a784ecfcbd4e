/**
 The symlink-following walk of internal/helm/chart/secureloader/sympath/walk.go.

 `Preorder` is the list of everything a walk would do if its callback never skipped;
 `Process` runs a callback over such a list, where SkipDir drops from the rest of the list everything below a
 directory. SymWalk, the recursion of the source, is proved to do the same.
 */
module SymPath {
  import opened Wrappers
  import opened FileTree
  import opened Helpers
  import opened Lexical
  import opened NameOrder

  datatype Error = Missing | Unreadable | BadLink | Other(msg: string)

  /** What walkFn is called with. */
  datatype Args = Args(path: Path, abs: Path, info: Option<Node>, err: Option<Error>)

  /** What walkFn returns, and what symwalk returns. */
  datatype Outcome = Continue | SkipDir | Failed(err: Error)

  type WalkFn<!S> = (S, Args) -> (S, Outcome)

  /**
   One thing a walk does: a call of walkFn, with the directory that SkipDir drops, if any, or giving
   up at a link that cannot be resolved.
   */
  datatype Event = Call(args: Args, scope: Option<Path>) | Abort(path: Path, err: Error)
  {
    function At(): Path {
      if Call? then args.path else path
    }
  }

  // ----- where a walk is -----

  function MaxLinks(w: World): nat {
    if w.kernelLinks > EVAL_LINKS then w.kernelLinks else EVAL_LINKS
  }

  /** The link-free path of the node at `p`, all links followed. */
  function Where(w: World, p: Path): Option<Path> {
    var (q, _) :- Resolve(w.root, [], Steps(p), MaxLinks(w));
    Some(q)
  }

  /** `info` describes `path`: the link itself, or the node at the end of all links. */
  ghost predicate Located(w: World, path: Path, info: Node) {
    && w.root.Dir?
    && if info.Link?
       then path != [] && Where(w, Parent(path)).Some?
            && Lookup(w.root, Where(w, Parent(path)).value + [Last(path)]) == Some(info)
       else Where(w, path).Some? && Lookup(w.root, Where(w, path).value) == Some(info)
  }

  /** Links that EvalSymlinks may still follow below `path`, plus one; 0 if it follows too many already. */
  function LinksLeft(w: World, path: Path): nat {
    match Resolve(w.root, [], Steps(path), EVAL_LINKS)
    case Some((_, left)) => left + 1
    case None => 0
  }

  function Fuel(w: World, path: Path, info: Node): nat {
    LinksLeft(w, if info.Link? then Parent(path) else path)
  }

  lemma KernelWhere(w: World, p: Path, links: nat)
    requires links == w.kernelLinks || links == EVAL_LINKS
    requires Resolve(w.root, [], Steps(p), links).Some?
    ensures Where(w, p) == Some(Resolve(w.root, [], Steps(p), links).value.0)
  {
    ResolveMoreLinks(w.root, [], Steps(p), links, MaxLinks(w) - links);
  }

  /** A node that is not a link resolves from its parent without following one. */
  lemma NonLinkResolves(w: World, p: Path, n: Name, d: Path, left: nat, links: nat)
    requires Resolve(w.root, [], Steps(p), links) == Some((d, left))
    requires Lookup(w.root, d + [n]).Some? && !Lookup(w.root, d + [n]).value.Link?
    ensures Resolve(w.root, [], Steps(p + [n]), links) == Some((d + [n], left))
  {
    Snoc(p, n);
    ResolveSnoc(w.root, [], Steps(p), n, links);
    assert [Down(n)][1..] == [];
  }

  lemma LstatLocated(w: World, p: Path)
    requires w.root.Dir? && Lstat(w, p).Some?
    ensures Located(w, p, Lstat(w, p).value)
  {
    if p != [] {
      var (d, left) := Resolve(w.root, [], Steps(Parent(p)), w.kernelLinks).value;
      KernelWhere(w, Parent(p), w.kernelLinks);
      if !Lstat(w, p).value.Link? {
        NodeLocated(w, p, d, left);
      }
    }
  }

  lemma NodeLocated(w: World, p: Path, d: Path, left: nat)
    requires w.root.Dir? && p != [] && Resolve(w.root, [], Steps(Parent(p)), w.kernelLinks) == Some((d, left))
    requires Lookup(w.root, d + [Last(p)]).Some? && !Lookup(w.root, d + [Last(p)]).value.Link?
    ensures Where(w, p) == Some(d + [Last(p)])
  {
    NonLinkResolves(w, Parent(p), Last(p), d, left, w.kernelLinks);
    assert p == Parent(p) + [Last(p)];
    KernelWhere(w, p, w.kernelLinks);
  }

  /** An open directory lists its own entries, and Lstat of an entry describes it. */
  lemma EntryLocated(w: World, path: Path, info: Node, n: Name)
    requires Located(w, path, info) && info.Dir?
    requires OpenDir(w, path).Some?
    ensures OpenDir(w, path).value == info.entries
    ensures n in info.entries ==> Lstat(w, path + [n]) == Some(info.entries[n])
    ensures n in info.entries ==> Located(w, path + [n], info.entries[n])
    ensures n in info.entries ==> Fuel(w, path + [n], info.entries[n]) <= Fuel(w, path, info)
  {
    KernelWhere(w, path, w.kernelLinks);
    Snoc(path, n);
    if n in info.entries {
      var d := Where(w, path).value;
      Snoc(d, n);
      LstatLocated(w, path + [n]);
      if !info.entries[n].Link? {
        EntryKeepsLinks(w, path, d, n);
      }
    }
  }

  lemma EntryKeepsLinks(w: World, path: Path, d: Path, n: Name)
    requires Where(w, path) == Some(d)
    requires Lookup(w.root, d + [n]).Some? && !Lookup(w.root, d + [n]).value.Link?
    ensures LinksLeft(w, path + [n]) == LinksLeft(w, path)
  {
    Snoc(path, n);
    ResolveSnoc(w.root, [], Steps(path), n, EVAL_LINKS);
    if Resolve(w.root, [], Steps(path), EVAL_LINKS).Some? {
      var (q, left) := Resolve(w.root, [], Steps(path), EVAL_LINKS).value;
      KernelWhere(w, path, EVAL_LINKS);
      NonLinkResolves(w, path, n, d, left, EVAL_LINKS);
    }
  }

  /** Following a link leads to a node that is not one, and leaves fewer links. */
  lemma LinkResolves(w: World, path: Path, info: Node)
    requires Located(w, path, info) && info.Link? && EvalSymlinks(w, path).Some?
    ensures var resolved := EvalSymlinks(w, path).value;
      && LinkFree(w.root, resolved)
      && Lstat(w, resolved) == Lookup(w.root, resolved)
      && Located(w, path, Lookup(w.root, resolved).value)
      && Fuel(w, path, Lookup(w.root, resolved).value) < Fuel(w, path, info)
  {
    var (resolved, left) := Resolve(w.root, [], Steps(path), EVAL_LINKS).value;
    ResolvedIsLinkFree(w.root, [], Steps(path), EVAL_LINKS);
    KernelWhere(w, path, EVAL_LINKS);
    LstatLinkFree(w, resolved);
    assert path == Parent(path) + [Last(path)];
    ResolveSnoc(w.root, [], Steps(Parent(path)), Last(path), EVAL_LINKS);
    var (d, before) := Resolve(w.root, [], Steps(Parent(path)), EVAL_LINKS).value;
    KernelWhere(w, Parent(path), EVAL_LINKS);
    ResolvedIsLinkFree(w.root, [], Steps(Parent(path)), EVAL_LINKS);
    Snoc(d, Last(path));
    ParentIsDir(w.root, d + [Last(path)]);
    StepThroughLink(w.root, d, Last(path), info, before);
  }

  lemma StepThroughLink(root: Node, d: Path, n: Name, link: Node, links: nat)
    requires root.Dir? && link.Link? && IsDir(root, d) && Lookup(root, d + [n]) == Some(link)
    requires Resolve(root, d, [Down(n)], links).Some?
    ensures Resolve(root, d, [Down(n)], links).value.1 < links
  {
    var from := if link.absolute then [] else d;
    var steps := link.target + [Down(n)][1..];
    assert Resolve(root, d, [Down(n)], links) == if links == 0 then None else Resolve(root, from, steps, links - 1);
    ResolvedIsLinkFree(root, from, steps, links - 1);
  }

  lemma LstatLinkFree(w: World, p: Path)
    requires LinkFree(w.root, p)
    ensures Lstat(w, p) == Lookup(w.root, p)
  {
    if p != [] {
      var d, n := Parent(p), Last(p);
      assert p == d + [n];
      ParentIsDir(w.root, p);
      LinkFreeResolves(w.root, d, w.kernelLinks);
    }
  }

  // ----- the reference: a flat preorder list and what a callback makes of it -----

  function VisitEvent(path: Path, abs: Path, info: Node, linked: bool): Event {
    Call(Args(path, abs, Some(info), None),
         if info.Dir? then Some(path) else if linked then None else Some(Parent(path)))
  }

  /** Everything a walk does at and below `path` if nothing is skipped; `linked`: `path` is a link to `info`. */
  ghost function Preorder(w: World, path: Path, abs: Path, info: Node, linked: bool): seq<Event>
    requires Located(w, path, info)
    decreases Fuel(w, path, info), info, 1, 0
  {
    match info
    case Link(_, _) =>
      (match EvalSymlinks(w, path)
       case None => [Abort(path, BadLink)]
       case Some(resolved) =>
         LinkResolves(w, path, info);
         Preorder(w, path, resolved, Lstat(w, resolved).value, true))
    case File(_, _) => [VisitEvent(path, abs, info, linked)]
    case Dir(entries) =>
      [VisitEvent(path, abs, info, linked)] +
      if OpenDir(w, path).None? then [Call(Args(path, abs, Some(info), Some(Unreadable)), Some(path))]
      else Children(w, path, abs, info, Listing(entries.Keys))
  }

  ghost function Children(w: World, path: Path, abs: Path, info: Node, names: seq<Name>): seq<Event>
    requires Located(w, path, info) && info.Dir? && OpenDir(w, path).Some?
    requires forall n :: n in names ==> n in info.entries
    decreases Fuel(w, path, info), info, 0, |names|
  {
    if names == [] then []
    else
      EntryLocated(w, path, info, names[0]);
      Preorder(w, path + [names[0]], abs + [names[0]], info.entries[names[0]], false)
      + Children(w, path, abs, info, names[1..])
  }

  /** What Walk does if nothing is skipped. */
  ghost function WalkEvents(w: World, root: Path): seq<Event>
    requires w.root.Dir?
  {
    match Lstat(w, root)
    case None => [Call(Args(root, root, None, Some(Missing)), None)]
    case Some(info) =>
      LstatLocated(w, root);
      Preorder(w, root, root, info, false)
  }

  predicate Below(e: Event, scope: Option<Path>) {
    scope.Some? && scope.value <= e.At()
  }

  /** The events that are not below `scope`, in order. */
  function Drop(events: seq<Event>, scope: Option<Path>): (rest: seq<Event>)
    ensures |rest| <= |events|
  {
    if events == [] then []
    else (if Below(events[0], scope) then [] else [events[0]]) + Drop(events[1..], scope)
  }

  /** Runs the callback over the events in order. */
  function Process<S>(events: seq<Event>, walkFn: WalkFn<S>, st: S): (S, Outcome)
    decreases |events|
  {
    if events == [] then (st, Continue)
    else
      match events[0]
      case Abort(_, err) => (st, Failed(err))
      case Call(args, scope) =>
        var (st', out) := walkFn(st, args);
        match out
        case Continue => Process(events[1..], walkFn, st')
        case SkipDir => Process(Drop(events[1..], scope), walkFn, st')
        case Failed(err) => (st', Failed(err))
  }

  /** No event is at `path` or below. */
  ghost predicate Apart(events: seq<Event>, path: Path) {
    forall e :: e in events ==> !(path <= e.At())
  }

  ghost predicate AllBelow(events: seq<Event>, path: Path) {
    forall e :: e in events ==> path <= e.At()
  }

  lemma {:induction false} DropApart(events: seq<Event>, path: Path)
    requires Apart(events, path)
    ensures Drop(events, Some(path)) == events
  {
    if events != [] {
      assert events[0] in events;
      assert forall e :: e in events[1..] ==> e in events;
      DropApart(events[1..], path);
      assert events == [events[0]] + events[1..];
    }
  }

  lemma {:induction false} DropNothing(events: seq<Event>)
    ensures Drop(events, None) == events
  {
    if events != [] {
      DropNothing(events[1..]);
      assert events == [events[0]] + events[1..];
    }
  }

  lemma {:induction false} DropBelow(events: seq<Event>, rest: seq<Event>, path: Path)
    requires AllBelow(events, path)
    ensures Drop(events + rest, Some(path)) == Drop(rest, Some(path))
  {
    if events == [] {
      assert events + rest == rest;
    } else {
      assert events[0] in events;
      assert forall e :: e in events[1..] ==> e in events;
      assert (events + rest)[1..] == events[1..] + rest;
      DropBelow(events[1..], rest, path);
    }
  }

  // ----- the list is in order -----

  lemma {:induction false} PreorderBelow(w: World, path: Path, abs: Path, info: Node, linked: bool)
    requires Located(w, path, info)
    ensures AllBelow(Preorder(w, path, abs, info, linked), path)
    decreases Fuel(w, path, info), info, 1, 0
  {
    match info
    case File(_, _) =>
    case Link(_, _) =>
      if EvalSymlinks(w, path).Some? {
        LinkResolves(w, path, info);
        PreorderBelow(w, path, EvalSymlinks(w, path).value, Lstat(w, EvalSymlinks(w, path).value).value, true);
      }
    case Dir(entries) =>
      if OpenDir(w, path).Some? { ChildrenBelow(w, path, abs, info, Listing(entries.Keys)); }
  }

  /** Every event is at or below one of these entries of `path`. */
  ghost predicate BelowEntries(events: seq<Event>, path: Path, names: seq<Name>) {
    forall e :: e in events ==> exists n :: n in names && path + [n] <= e.At()
  }

  lemma MoreBelow(first: seq<Event>, later: seq<Event>, path: Path, names: seq<Name>)
    requires names != [] && AllBelow(first, path + [names[0]]) && BelowEntries(later, path, names[1..])
    ensures BelowEntries(first + later, path, names)
  {
    forall e | e in first + later ensures exists n :: n in names && path + [n] <= e.At() {
      if e in first {
        assert names[0] in names && path + [names[0]] <= e.At();
      } else {
        assert e in later;
        var n :| n in names[1..] && path + [n] <= e.At();
        assert n in names;
      }
    }
  }

  lemma EntriesBelow(events: seq<Event>, path: Path, names: seq<Name>)
    requires BelowEntries(events, path, names)
    ensures AllBelow(events, path)
  {
    forall e | e in events ensures path <= e.At() {
      var n :| n in names && path + [n] <= e.At();
    }
  }

  lemma {:induction false} ChildrenBelow(w: World, path: Path, abs: Path, info: Node, names: seq<Name>)
    requires Located(w, path, info) && info.Dir? && OpenDir(w, path).Some?
    requires forall n :: n in names ==> n in info.entries
    ensures BelowEntries(Children(w, path, abs, info, names), path, names)
    ensures AllBelow(Children(w, path, abs, info, names), path)
    decreases Fuel(w, path, info), info, 0, |names|
  {
    if names != [] {
      EntryLocated(w, path, info, names[0]);
      PreorderBelow(w, path + [names[0]], abs + [names[0]], info.entries[names[0]], false);
      ChildrenBelow(w, path, abs, info, names[1..]);
      MoreBelow(Preorder(w, path + [names[0]], abs + [names[0]], info.entries[names[0]], false),
                Children(w, path, abs, info, names[1..]), path, names);
    }
    EntriesBelow(Children(w, path, abs, info, names), path, names);
  }

  predicate Visits(e: Event) {
    e.Call? && e.args.err.None?
  }

  /** Error-free visits are strictly increasing, so no path is visited twice. */
  ghost predicate Increasing(events: seq<Event>) {
    forall i, j :: 0 <= i < j < |events| && Visits(events[i]) && Visits(events[j]) ==>
      PathLess(events[i].At(), events[j].At())
  }

  lemma {:induction false} PreorderIncreasing(w: World, path: Path, abs: Path, info: Node, linked: bool)
    requires Located(w, path, info)
    ensures Increasing(Preorder(w, path, abs, info, linked))
    decreases Fuel(w, path, info), info, 1, 0
  {
    match info
    case File(_, _) =>
    case Link(_, _) =>
      if EvalSymlinks(w, path).Some? {
        LinkResolves(w, path, info);
        PreorderIncreasing(w, path, EvalSymlinks(w, path).value, Lstat(w, EvalSymlinks(w, path).value).value, true);
      }
    case Dir(entries) =>
      if OpenDir(w, path).Some? {
        var names := Listing(entries.Keys);
        ChildrenIncreasing(w, path, abs, info, names);
        ChildrenBelow(w, path, abs, info, names);
        var children := Children(w, path, abs, info, names);
        var events := Preorder(w, path, abs, info, linked);
        assert events == [VisitEvent(path, abs, info, linked)] + children;
        forall f | f in children ensures PathLess(path, f.At()) {
          var n :| n in names && path + [n] <= f.At();
          PrefixFirst(path, f.At());
        }
        ConcatIncreasing([VisitEvent(path, abs, info, linked)], children);
      }
  }

  lemma {:induction false} ChildrenIncreasing(w: World, path: Path, abs: Path, info: Node, names: seq<Name>)
    requires Located(w, path, info) && info.Dir? && OpenDir(w, path).Some?
    requires forall n :: n in names ==> n in info.entries
    requires Sorted(names)
    ensures Increasing(Children(w, path, abs, info, names))
    decreases Fuel(w, path, info), info, 0, |names|
  {
    if names != [] {
      var n := names[0];
      EntryLocated(w, path, info, n);
      PreorderIncreasing(w, path + [n], abs + [n], info.entries[n], false);
      PreorderBelow(w, path + [n], abs + [n], info.entries[n], false);
      ChildrenIncreasing(w, path, abs, info, names[1..]);
      ChildrenBelow(w, path, abs, info, names[1..]);
      var first := Preorder(w, path + [n], abs + [n], info.entries[n], false);
      var others := Children(w, path, abs, info, names[1..]);
      forall e, f | e in first && f in others ensures PathLess(e.At(), f.At()) {
        var m :| m in names[1..] && path + [m] <= f.At();
        var k :| 0 <= k < |names[1..]| && names[1..][k] == m;
        assert Less(names[0], names[k+1]);
        SiblingsOrdered(path, n, m, e.At(), f.At());
      }
      ConcatIncreasing(first, others);
    }
  }

  lemma ConcatIncreasing(a: seq<Event>, b: seq<Event>)
    requires Increasing(a) && Increasing(b)
    requires forall e, f :: e in a && f in b ==> PathLess(e.At(), f.At())
    ensures Increasing(a + b)
  {
    forall i, j | 0 <= i < j < |a + b| && Visits((a + b)[i]) && Visits((a + b)[j])
      ensures PathLess((a + b)[i].At(), (a + b)[j].At())
    {
      if j < |a| {
        assert (a + b)[i] == a[i] && (a + b)[j] == a[j];
      } else if i >= |a| {
        assert (a + b)[i] == b[i - |a|] && (a + b)[j] == b[j - |a|];
      } else {
        assert (a + b)[i] == a[i] && (a + b)[j] == b[j - |a|];
      }
    }
  }

  /** Later entries of a directory are apart from earlier ones. */
  lemma LaterApart(w: World, path: Path, abs: Path, info: Node, names: seq<Name>)
    requires Located(w, path, info) && info.Dir? && OpenDir(w, path).Some?
    requires forall n :: n in names ==> n in info.entries
    requires Sorted(names) && names != []
    ensures Apart(Children(w, path, abs, info, names[1..]), path + [names[0]])
  {
    ChildrenBelow(w, path, abs, info, names[1..]);
    forall e | e in Children(w, path, abs, info, names[1..]) ensures !(path + [names[0]] <= e.At()) {
      var m :| m in names[1..] && path + [m] <= e.At();
      var k :| 0 <= k < |names[1..]| && names[1..][k] == m;
      assert Less(names[0], names[k+1]);
      LessIrreflexive(m);
      assert (path + [m])[|path|] == m && (path + [names[0]])[|path|] == names[0];
    }
  }

  // ----- the walk itself -----

  /** What is left to do after symwalk returned `out`; a plain file's SkipDir drops the rest of its directory. */
  ghost function Resumed<S>(out: Outcome, st: S, rest: seq<Event>, path: Path, info: Node, linked: bool, walkFn: WalkFn<S>): (S, Outcome) {
    if out.Failed? then (st, out)
    else if out.SkipDir? && info.File? && !linked then Process(Drop(rest, Some(Parent(path))), walkFn, st)
    else Process(rest, walkFn, st)
  }

  /**
   symwalk. Whatever the walk still has to do, `rest`, its outcome and the callback's
   state are those of processing the preorder list of `path` before it.
   */
  method SymWalk<S>(w: World, path: Path, abs: Path, info: Node, walkFn: WalkFn<S>, st: S,
                    ghost linked: bool, ghost rest: seq<Event>)
    returns (st': S, out: Outcome)
    requires Located(w, path, info)
    requires Apart(rest, path)
    ensures Process(Preorder(w, path, abs, info, linked) + rest, walkFn, st)
            == Resumed(out, st', rest, path, info, linked, walkFn)
    ensures info.Link? ==> out != SkipDir
    decreases Fuel(w, path, info), info, 1, 0
  {
    ghost var events := Preorder(w, path, abs, info, linked) + rest;
    if info.Link? {
      var resolved := EvalSymlinks(w, path);
      if resolved.None? {
        return st, Failed(BadLink);
      }
      LinkResolves(w, path, info);
      st', out := SymWalk(w, path, resolved.value, Lstat(w, resolved.value).value, walkFn, st, true, rest);
      if out.SkipDir? {
        out := Continue;
      }
      return;
    }

    var answer := walkFn(st, Args(path, abs, Some(info), None));
    st', out := answer.0, answer.1;
    if out != Continue {
      SkippedVisit(w, path, abs, info, linked, rest);
      return;
    }
    if !info.Dir? {
      assert events == [VisitEvent(path, abs, info, linked)] + rest;
      return;
    }

    assert events[1..] == Preorder(w, path, abs, info, linked)[1..] + rest;
    st', out := WalkEntries(w, path, abs, info, walkFn, st', linked, rest);
  }

  /** The part of symwalk that follows a visit of a directory: list it, then walk each entry. */
  method WalkEntries<S>(w: World, path: Path, abs: Path, info: Node, walkFn: WalkFn<S>, st: S,
                        ghost linked: bool, ghost rest: seq<Event>)
    returns (st': S, out: Outcome)
    requires Located(w, path, info) && info.Dir? && Apart(rest, path)
    ensures Process(Preorder(w, path, abs, info, linked)[1..] + rest, walkFn, st)
            == Resumed(out, st', rest, path, info, linked, walkFn)
    decreases Fuel(w, path, info), info, 0, 1
  {
    var entries := OpenDir(w, path);
    st' := st;
    if entries.None? {
      ghost var report := Call(Args(path, abs, Some(info), Some(Unreadable)), Some(path));
      assert Preorder(w, path, abs, info, linked)[1..] == [report];
      assert ([report] + rest)[1..] == rest;
      DropApart(rest, path);
      var answer := walkFn(st, Args(path, abs, Some(info), Some(Unreadable)));
      return answer.0, answer.1;
    }
    EntryLocated(w, path, info, "");
    var names := ReadDirNames(entries.value);
    ListingUnique(names, Listing(info.entries.Keys), info.entries.Keys);
    assert Preorder(w, path, abs, info, linked)[1..] == Children(w, path, abs, info, names);
    assert names[0..] == names;
    ghost var goal := Process(Children(w, path, abs, info, names) + rest, walkFn, st);
    for i := 0 to |names|
      invariant goal == Process(Children(w, path, abs, info, names[i..]) + rest, walkFn, st')
    {
      NextChild(w, path, abs, info, names, i, rest);
      var child, childInfo := path + [names[i]], info.entries[names[i]];
      ghost var later := Children(w, path, abs, info, names[i+1..]);
      EntryLocated(w, path, info, names[i]);
      st', out := SymWalk(w, child, abs + [names[i]], childInfo, walkFn, st', false, later + rest);
      if out.Failed? {
        return;
      }
      if out.SkipDir? && childInfo.File? {
        RestOfDirectory(w, path, abs, info, names, i, rest);
        return;
      }
    }
    assert Children(w, path, abs, info, names[|names|..]) + rest == rest;
    out := Continue;
  }

  /** Dropping a directory drops its remaining entries and nothing that is apart from it. */
  lemma RestOfDirectory(w: World, path: Path, abs: Path, info: Node, names: seq<Name>, i: nat, rest: seq<Event>)
    requires Located(w, path, info) && info.Dir? && OpenDir(w, path).Some?
    requires ListingOf(names, info.entries.Keys) && i < |names| && Apart(rest, path)
    ensures Drop(Children(w, path, abs, info, names[i+1..]) + rest, Some(Parent(path + [names[i]]))) == rest
  {
    Snoc(path, names[i]);
    ChildrenBelow(w, path, abs, info, names[i+1..]);
    DropBelow(Children(w, path, abs, info, names[i+1..]), rest, path);
    DropApart(rest, path);
  }

  /** If the callback does not go on at `path`, nothing below it is done. */
  lemma SkippedVisit(w: World, path: Path, abs: Path, info: Node, linked: bool, rest: seq<Event>)
    requires Located(w, path, info) && !info.Link? && Apart(rest, path)
    ensures var events := Preorder(w, path, abs, info, linked) + rest;
      && events[0] == VisitEvent(path, abs, info, linked)
      && Drop(events[1..], events[0].scope) ==
         if info.Dir? || linked then rest else Drop(rest, Some(Parent(path)))
  {
    var events := Preorder(w, path, abs, info, linked) + rest;
    if info.Dir? {
      PreorderBelow(w, path, abs, info, linked);
      var inside := Preorder(w, path, abs, info, linked)[1..];
      assert events[1..] == inside + rest;
      assert forall e :: e in inside ==> e in Preorder(w, path, abs, info, linked);
      DropBelow(inside, rest, path);
      DropApart(rest, path);
    } else {
      assert events == [VisitEvent(path, abs, info, linked)] + rest;
      assert events[1..] == rest;
      DropNothing(rest);
    }
  }

  lemma ChildrenFrom(w: World, path: Path, abs: Path, info: Node, names: seq<Name>, i: nat)
    requires Located(w, path, info) && info.Dir? && OpenDir(w, path).Some?
    requires forall n :: n in names ==> n in info.entries
    requires i < |names|
    ensures Located(w, path + [names[i]], info.entries[names[i]])
    ensures Children(w, path, abs, info, names[i..]) ==
      Preorder(w, path + [names[i]], abs + [names[i]], info.entries[names[i]], false)
      + Children(w, path, abs, info, names[i+1..])
  {
    EntryLocated(w, path, info, names[i]);
    assert names[i..][1..] == names[i+1..] && names[i..][0] == names[i];
  }

  /** The children from the i-th on are the i-th and the later ones, which are apart from it. */
  lemma NextChild(w: World, path: Path, abs: Path, info: Node, names: seq<Name>, i: nat, rest: seq<Event>)
    requires Located(w, path, info) && info.Dir? && OpenDir(w, path).Some?
    requires ListingOf(names, info.entries.Keys) && i < |names| && Apart(rest, path)
    ensures Located(w, path + [names[i]], info.entries[names[i]])
    ensures var later := Children(w, path, abs, info, names[i+1..]);
      && Children(w, path, abs, info, names[i..]) + rest ==
         Preorder(w, path + [names[i]], abs + [names[i]], info.entries[names[i]], false) + (later + rest)
      && Apart(later + rest, path + [names[i]])
  {
    ChildrenFrom(w, path, abs, info, names, i);
    var later := Children(w, path, abs, info, names[i+1..]);
    var first := Preorder(w, path + [names[i]], abs + [names[i]], info.entries[names[i]], false);
    Associative(first, later, rest);
    ApartOfNext(w, path, abs, info, names, i, rest);
  }

  lemma ApartOfNext(w: World, path: Path, abs: Path, info: Node, names: seq<Name>, i: nat, rest: seq<Event>)
    requires Located(w, path, info) && info.Dir? && OpenDir(w, path).Some?
    requires ListingOf(names, info.entries.Keys) && i < |names| && Apart(rest, path)
    ensures Apart(Children(w, path, abs, info, names[i+1..]) + rest, path + [names[i]])
  {
    assert names[i..][1..] == names[i+1..] && names[i..][0] == names[i];
    LaterApart(w, path, abs, info, names[i..]);
    forall e | e in rest ensures !(path + [names[i]] <= e.At()) {
      ShorterPrefix(path, names[i], e.At());
    }
  }

  lemma ShorterPrefix(p: Path, n: Name, q: Path)
    ensures p + [n] <= q ==> p <= q
  {
    if p + [n] <= q {
      assert p == (p + [n])[..|p|] == q[..|p|];
    }
  }

  /** Walk: the outcome and the final state are those of processing the flat list; SkipDir never gets out. */
  method Walk<S>(w: World, root: Path, walkFn: WalkFn<S>, st: S) returns (st': S, out: Outcome)
    requires w.root.Dir?
    ensures (st', out) == Process(WalkEvents(w, root), walkFn, st)
  {
    var info := Lstat(w, root);
    if info.None? {
      var answer := walkFn(st, Args(root, root, None, Some(Missing)));
      st', out := answer.0, answer.1;
    } else {
      LstatLocated(w, root);
      st', out := SymWalk(w, root, root, info.value, walkFn, st, false, []);
      assert WalkEvents(w, root) + [] == WalkEvents(w, root);
    }
    if out.SkipDir? {
      out := Continue;
    }
  }

  /** How a list is processed whose first event is skipped. */
  lemma ProcessSkip<S>(events: seq<Event>, walkFn: WalkFn<S>, st: S, st': S)
    requires events != [] && events[0].Call? && walkFn(st, events[0].args) == (st', SkipDir)
    ensures Process(events, walkFn, st) == Process(Drop(events[1..], events[0].scope), walkFn, st')
  {
  }

  // ----- what the callback sees -----

  /** The events at which the callback is called. */
  function Calls<S>(events: seq<Event>, walkFn: WalkFn<S>, st: S): seq<Event>
    decreases |events|
  {
    if events == [] || events[0].Abort? then []
    else
      var (st', out) := walkFn(st, events[0].args);
      match out
      case Continue => [events[0]] + Calls(events[1..], walkFn, st')
      case SkipDir => [events[0]] + Calls(Drop(events[1..], events[0].scope), walkFn, st')
      case Failed(_) => [events[0]]
  }

  lemma {:induction false} DropWithin(events: seq<Event>, scope: Option<Path>, e: Event)
    ensures e in Drop(events, scope) <==> e in events && !Below(e, scope)
  {
    if events != [] {
      DropWithin(events[1..], scope, e);
      assert e in events <==> e == events[0] || e in events[1..];
    }
  }

  lemma {:induction false} DropIncreasing(events: seq<Event>, scope: Option<Path>)
    requires Increasing(events)
    ensures Increasing(Drop(events, scope))
  {
    if events != [] {
      assert Increasing(events[1..]);
      DropIncreasing(events[1..], scope);
      forall e, f | e == events[0] && f in Drop(events[1..], scope) && Visits(e) && Visits(f)
        ensures PathLess(e.At(), f.At())
      {
        DropWithin(events[1..], scope, f);
        var j :| 0 <= j < |events[1..]| && events[1..][j] == f;
        assert events[j+1] == f;
      }
      ConsIncreasing(events[0], Drop(events[1..], scope));
    }
  }

  lemma ConsIncreasing(e: Event, events: seq<Event>)
    requires Increasing(events)
    requires forall f :: f in events && Visits(e) && Visits(f) ==> PathLess(e.At(), f.At())
    ensures Increasing([e] + events)
  {
    forall i, j | 0 <= i < j < |[e] + events| && Visits(([e] + events)[i]) && Visits(([e] + events)[j])
      ensures PathLess(([e] + events)[i].At(), ([e] + events)[j].At())
    {
      assert ([e] + events)[j] == events[j-1];
      if i > 0 { assert ([e] + events)[i] == events[i-1]; }
    }
  }

  lemma {:induction false} CallsWithin<S>(events: seq<Event>, walkFn: WalkFn<S>, st: S, e: Event)
    requires e in Calls(events, walkFn, st)
    ensures e in events
    decreases |events|
  {
    var (st', out) := walkFn(st, events[0].args);
    if e != events[0] {
      if out.SkipDir? {
        CallsWithin(Drop(events[1..], events[0].scope), walkFn, st', e);
        DropWithin(events[1..], events[0].scope, e);
      } else {
        CallsWithin(events[1..], walkFn, st', e);
      }
    }
  }

  lemma {:induction false} CallsIncreasing<S>(events: seq<Event>, walkFn: WalkFn<S>, st: S)
    requires Increasing(events)
    ensures Increasing(Calls(events, walkFn, st))
    decreases |events|
  {
    if events != [] && events[0].Call? {
      var (st', out) := walkFn(st, events[0].args);
      var rest := if out.SkipDir? then Drop(events[1..], events[0].scope) else events[1..];
      assert Increasing(events[1..]);
      if out.SkipDir? { DropIncreasing(events[1..], events[0].scope); }
      if !out.Failed? {
        CallsIncreasing(rest, walkFn, st');
        forall f | f in Calls(rest, walkFn, st') && Visits(events[0]) && Visits(f) ensures PathLess(events[0].At(), f.At()) {
          CallsWithin(rest, walkFn, st', f);
          if out.SkipDir? { DropWithin(events[1..], events[0].scope, f); }
          var j :| 0 <= j < |events[1..]| && events[1..][j] == f;
          assert events[j+1] == f;
        }
        ConsIncreasing(events[0], Calls(rest, walkFn, st'));
      }
    }
  }

  /** For any stateful callback, error-free visits come in strictly increasing order: no path is visited twice. */
  lemma WalkVisitsInOrder<S>(w: World, root: Path, walkFn: WalkFn<S>, st: S)
    requires w.root.Dir?
    ensures Increasing(Calls(WalkEvents(w, root), walkFn, st))
  {
    if Lstat(w, root).Some? {
      LstatLocated(w, root);
      PreorderIncreasing(w, root, root, Lstat(w, root).value, false);
    }
    CallsIncreasing(WalkEvents(w, root), walkFn, st);
  }

  /** `abs` has no link in it and denotes the same node as `path`. */
  ghost predicate TruePath(w: World, path: Path, abs: Path, info: Node) {
    EvalSymlinks(w, path) == Some(abs) && LinkFree(w.root, abs) && Lookup(w.root, abs) == Some(info)
  }

  ghost predicate TruePaths(w: World, events: seq<Event>) {
    forall e :: e in events && Visits(e) ==> e.args.info.Some? && TruePath(w, e.At(), e.args.abs, e.args.info.value)
  }

  lemma EntryTruePath(w: World, path: Path, abs: Path, info: Node, n: Name)
    requires TruePath(w, path, abs, info) && info.Dir? && n in info.entries && !info.entries[n].Link?
    ensures TruePath(w, path + [n], abs + [n], info.entries[n])
  {
    Snoc(abs, n);
    NonLinkResolves(w, path, n, abs, Resolve(w.root, [], Steps(path), EVAL_LINKS).value.1, EVAL_LINKS);
  }

  lemma {:induction false} PreorderTruePaths(w: World, path: Path, abs: Path, info: Node, linked: bool)
    requires Located(w, path, info)
    requires info.Link? || TruePath(w, path, abs, info)
    ensures TruePaths(w, Preorder(w, path, abs, info, linked))
    decreases Fuel(w, path, info), info, 1, 0
  {
    match info
    case File(_, _) =>
    case Link(_, _) =>
      if EvalSymlinks(w, path).Some? {
        LinkResolves(w, path, info);
        PreorderTruePaths(w, path, EvalSymlinks(w, path).value, Lstat(w, EvalSymlinks(w, path).value).value, true);
      }
    case Dir(entries) =>
      if OpenDir(w, path).Some? { ChildrenTruePaths(w, path, abs, info, Listing(entries.Keys)); }
  }

  lemma {:induction false} ChildrenTruePaths(w: World, path: Path, abs: Path, info: Node, names: seq<Name>)
    requires Located(w, path, info) && info.Dir? && OpenDir(w, path).Some?
    requires TruePath(w, path, abs, info)
    requires forall n :: n in names ==> n in info.entries
    ensures TruePaths(w, Children(w, path, abs, info, names))
    decreases Fuel(w, path, info), info, 0, |names|
  {
    if names != [] {
      var n := names[0];
      EntryLocated(w, path, info, n);
      if !info.entries[n].Link? { EntryTruePath(w, path, abs, info, n); }
      PreorderTruePaths(w, path + [n], abs + [n], info.entries[n], false);
      ChildrenTruePaths(w, path, abs, info, names[1..]);
    }
  }

  /**
   From a root without links, or one that is a link itself, every error-free call of any callback gets an absolute path that
   has no link in it and denotes the same node as the path, through any nesting of links.
   */
  lemma WalkPassesTruePaths<S>(w: World, root: Path, walkFn: WalkFn<S>, st: S, e: Event)
    requires w.root.Dir? && (LinkFree(w.root, root) || (Lstat(w, root).Some? && Lstat(w, root).value.Link?))
    requires e in Calls(WalkEvents(w, root), walkFn, st) && Visits(e)
    ensures e.args.info.Some? && TruePath(w, e.At(), e.args.abs, e.args.info.value)
  {
    CallsWithin(WalkEvents(w, root), walkFn, st, e);
    if LinkFree(w.root, root) {
      LstatLinkFree(w, root);
      LinkFreeResolves(w.root, root, EVAL_LINKS);
    }
    LstatLocated(w, root);
    PreorderTruePaths(w, root, root, Lstat(w, root).value, false);
  }

  /** What WalkPassesTruePaths says of one walk. */
  ghost predicate PassesTruePaths<S>(w: World, root: Path, walkFn: WalkFn<S>, st: S)
    requires w.root.Dir?
  {
    TruePaths(w, Calls(WalkEvents(w, root), walkFn, st))
  }

  /**
   Exactly: a walk passes true paths, whatever the callback does, if its root does not exist, is a link, or has no link
   in it. From a directory or file behind a link the very first call gets the root as it is.
   */
  lemma TruePathsIff<S>(w: World, root: Path, walkFn: WalkFn<S>, st: S)
    requires w.root.Dir?
    ensures PassesTruePaths(w, root, walkFn, st) <==>
            Lstat(w, root).None? || Lstat(w, root).value.Link? || LinkFree(w.root, root)
  {
    var events := WalkEvents(w, root);
    if Lstat(w, root).None? {
      forall e | e in Calls(events, walkFn, st) && Visits(e) ensures false {
        CallsWithin(events, walkFn, st, e);
      }
    } else if Lstat(w, root).value.Link? || LinkFree(w.root, root) {
      forall e | e in Calls(events, walkFn, st) && Visits(e)
        ensures e.args.info.Some? && TruePath(w, e.At(), e.args.abs, e.args.info.value)
      {
        WalkPassesTruePaths(w, root, walkFn, st, e);
      }
    } else {
      LstatLocated(w, root);
      var info := Lstat(w, root).value;
      assert events[0] == VisitEvent(root, root, info, false);
      assert events[0] in Calls(events, walkFn, st) && Visits(events[0]);
      assert !TruePath(w, root, root, info);
    }
  }
}
