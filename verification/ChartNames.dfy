/** The names that files can have, and what the loader makes of them in a walk. */
module ChartNames {
  import opened Wrappers
  import opened FileTree
  import opened NameOrder
  import opened SymPath
  import opened SecureLoader
  import IgnoreRules

  predicate ValidName(n: Name) {
    n != "" && n != "." && n != ".." && '/' !in n
  }

  predicate ValidPath(p: Path) {
    forall n :: n in p ==> ValidName(n)
  }

  /** All names in the tree are valid. */
  predicate TreeNames(node: Node) {
    node.Dir? ==> forall n | n in node.entries :: ValidName(n) && TreeNames(node.entries[n])
  }

  lemma {:induction false} LookupNames(root: Node, p: Path)
    requires TreeNames(root) && Lookup(root, p).Some?
    ensures TreeNames(Lookup(root, p).value)
  {
    if p != [] {
      LookupNames(root, Parent(p));
    }
  }

  /** Behind `path` all names are valid. */
  predicate ValidBelow(path: Path, p: Path) {
    path <= p && ValidPath(p[|path|..])
  }

  ghost predicate AllValidBelow(path: Path, events: seq<Event>) {
    forall e :: e in events ==> ValidBelow(path, e.At())
  }

  lemma ValidMore(path: Path, n: Name, p: Path)
    requires ValidName(n) && ValidBelow(path + [n], p)
    ensures ValidBelow(path, p)
  {
    assert p[..|path|] == (path + [n])[..|path|] == path;
    assert p[|path|..] == [n] + p[|path|+1..];
  }

  lemma {:induction false} PreorderNames(w: World, path: Path, abs: Path, info: Node, linked: bool)
    requires Located(w, path, info) && TreeNames(w.root)
    ensures AllValidBelow(path, Preorder(w, path, abs, info, linked))
    decreases Fuel(w, path, info), info, 1, 0
  {
    match info
    case File(_, _) =>
    case Link(_, _) =>
      LinkPreorder(w, path, abs, info, linked);
      if EvalSymlinks(w, path).Some? {
        var resolved := EvalSymlinks(w, path).value;
        PreorderNames(w, path, resolved, Lstat(w, resolved).value, true);
      }
    case Dir(entries) =>
      if OpenDir(w, path).Some? { ChildrenNames(w, path, abs, info, Listing(entries.Keys)); }
  }

  lemma {:induction false} ChildrenNames(w: World, path: Path, abs: Path, info: Node, names: seq<Name>)
    requires Located(w, path, info) && info.Dir? && OpenDir(w, path).Some? && TreeNames(w.root)
    requires forall n :: n in names ==> n in info.entries
    ensures AllValidBelow(path, Children(w, path, abs, info, names))
    decreases Fuel(w, path, info), info, 0, |names|
  {
    if names != [] {
      var n := names[0];
      EntryLocated(w, path, info, n);
      LookupNames(w.root, Where(w, path).value);
      PreorderNames(w, path + [n], abs + [n], info.entries[n], false);
      ChildrenNames(w, path, abs, info, names[1..]);
      forall e | e in Preorder(w, path + [n], abs + [n], info.entries[n], false) ensures ValidBelow(path, e.At()) {
        ValidMore(path, n, e.At());
      }
    }
  }

  /** Everything a load meets has valid names within the chart. */
  lemma LoadNames(c: Config, w: World, e: Event)
    requires w.root.Dir? && TreeNames(w.root) && e in LoadEvents(w, c.chart)
    ensures c.chart <= e.At() && ValidPath(RelTo(c.chart, e.At()))
  {
    var info := StatDir(w, c.chart);
    if info.Some? {
      KernelWhere(w, c.chart, w.kernelLinks);
      PreorderNames(w, c.chart, c.chart, info.value, false);
    }
  }

  // ----- paths as the rules see them -----

  lemma SlashParts(p: Path)
    requires p != [] && ValidPath(p)
    ensures p[0] <= Slash(p) && ValidName(p[0])
    ensures |p| == 1 ==> Slash(p) == p[0]
    ensures |p| > 1 ==> |p[0]| < |Slash(p)| && Slash(p)[|p[0]|] == '/' && Slash(p)[|p[0]|+1..] == Slash(p[1..])
  {
    assert p[0] in p;
  }

  /** A path is not the chart itself and does not begin with a slash. */
  lemma SlashBegins(p: Path)
    requires p != [] && ValidPath(p)
    ensures !IgnoreRules.HasPrefix(Slash(p), "/") && !IgnoreRules.NeverIgnored(Slash(p))
  {
    SlashParts(p);
    assert p[0][0] in p[0];
    if |p| > 1 {
      SlashParts(p[1..]);
    }
  }

  lemma {:induction false} SlashInjective(p: Path, q: Path)
    requires ValidPath(p) && ValidPath(q) && p != [] && q != [] && Slash(p) == Slash(q)
    ensures p == q
  {
    SlashParts(p);
    SlashParts(q);
    SameFirst(p, q);
    if |p| > 1 {
      SlashInjective(p[1..], q[1..]);
    }
    assert p == [p[0]] + p[1..] && q == [q[0]] + q[1..];
  }

  lemma SameFirst(p: Path, q: Path)
    requires ValidPath(p) && ValidPath(q) && p != [] && q != [] && Slash(p) == Slash(q)
    ensures p[0] == q[0] && (|p| == 1 <==> |q| == 1)
  {
    SlashParts(p);
    SlashParts(q);
    if |p[0]| == |q[0]| {
      assert p[0] == Slash(p)[..|p[0]|] == q[0];
    }
  }
}
