/**
 A static file system as a finite tree with symbolic links, and path resolution over it.
 Paths are absolute and clean and are given by their components.
 */
module FileTree {
  import opened Wrappers

  type Name = string
  type Path = seq<Name>

  /** A component of a link target or of an unclean path; a trailing slash counts as `Here`. */
  datatype Step = Here | Up | Down(name: Name)

  datatype Node =
    | File(regular: bool, data: seq<bv8>)
    | Dir(entries: map<Name, Node>)
    | Link(absolute: bool, target: seq<Step>)

  /** The root directory, and how many links the kernel follows in one path. */
  datatype World = World(root: Node, kernelLinks: nat)

  /** What filepath.EvalSymlinks follows before it reports too many links. */
  const EVAL_LINKS: nat := 255

  function Parent(p: Path): Path {
    if p == [] then [] else p[..|p|-1]
  }

  function Last(p: Path): Name
    requires p != []
  {
    p[|p|-1]
  }

  /** The node at a path, following no links at all. */
  function Lookup(root: Node, p: Path): Option<Node> {
    if p == [] then Some(root)
    else
      var d :- Lookup(root, Parent(p));
      if d.Dir? && Last(p) in d.entries then Some(d.entries[Last(p)]) else None
  }

  function Steps(p: Path): seq<Step> {
    if p == [] then [] else Steps(Parent(p)) + [Down(Last(p))]
  }

  /**
   Follows `steps` from the directory at the link-free path `at`, resolving at most `links` links.
   The result is the link-free path of the node reached, with the links left.
   */
  function Resolve(root: Node, at: Path, steps: seq<Step>, links: nat): Option<(Path, nat)>
    decreases links, |steps|
  {
    if steps == [] then Some((at, links))
    else
      match steps[0]
      case Here => Resolve(root, at, steps[1..], links)
      case Up => Resolve(root, Parent(at), steps[1..], links)
      case Down(name) =>
        var node :- Lookup(root, at + [name]);
        match node
        case Dir(_) => Resolve(root, at + [name], steps[1..], links)
        case File(_, _) => if steps[1..] == [] then Some((at + [name], links)) else None
        case Link(absolute, target) =>
          if links == 0 then None
          else Resolve(root, if absolute then [] else at, target + steps[1..], links - 1)
  }

  /** filepath.EvalSymlinks. */
  function EvalSymlinks(w: World, p: Path): Option<Path> {
    var (q, _) :- Resolve(w.root, [], Steps(p), EVAL_LINKS);
    Some(q)
  }

  /** os.Lstat: follows the links on the way but not at the end. */
  function Lstat(w: World, p: Path): Option<Node> {
    if p == [] then Some(w.root)
    else
      var (d, _) :- Resolve(w.root, [], Steps(Parent(p)), w.kernelLinks);
      Lookup(w.root, d + [Last(p)])
  }

  /** The directory that os.Open and Readdirnames see at `p`. */
  function OpenDir(w: World, p: Path): Option<map<Name, Node>> {
    var (d, _) :- Resolve(w.root, [], Steps(p), w.kernelLinks);
    var node :- Lookup(w.root, d);
    if node.Dir? then Some(node.entries) else None
  }

  /** The path exists and none of its components is a link. */
  predicate LinkFree(root: Node, p: Path) {
    Lookup(root, p).Some? && !Lookup(root, p).value.Link?
  }

  predicate IsDir(root: Node, p: Path) {
    Lookup(root, p).Some? && Lookup(root, p).value.Dir?
  }

  lemma Snoc(p: Path, n: Name)
    ensures Parent(p + [n]) == p && Last(p + [n]) == n
    ensures Steps(p + [n]) == Steps(p) + [Down(n)]
  {
  }

  lemma ParentIsDir(root: Node, p: Path)
    requires p != [] && Lookup(root, p).Some?
    ensures IsDir(root, Parent(p))
  {
  }

  lemma {:induction false} PrefixIsDir(root: Node, p: Path, i: nat)
    requires i < |p| && Lookup(root, p).Some?
    ensures IsDir(root, p[..i])
  {
    ParentIsDir(root, p);
    if i < |p| - 1 {
      PrefixIsDir(root, Parent(p), i);
      assert Parent(p)[..i] == p[..i];
    }
  }

  /** Resolution never ends at a link and only ever uses up links. */
  lemma {:induction false} ResolvedIsLinkFree(root: Node, at: Path, steps: seq<Step>, links: nat)
    requires root.Dir? && IsDir(root, at)
    ensures var r := Resolve(root, at, steps, links); r.Some? ==> LinkFree(root, r.value.0) && r.value.1 <= links
    decreases links, |steps|
  {
    if steps != [] {
      match steps[0]
      case Here => ResolvedIsLinkFree(root, at, steps[1..], links);
      case Up =>
        if at != [] { ParentIsDir(root, at); }
        ResolvedIsLinkFree(root, Parent(at), steps[1..], links);
      case Down(name) =>
        var node := Lookup(root, at + [name]);
        if node.Some? {
          if node.value.Dir? {
            ResolvedIsLinkFree(root, at + [name], steps[1..], links);
          } else if node.value.Link? && links > 0 {
            ResolvedIsLinkFree(root, if node.value.absolute then [] else at, node.value.target + steps[1..], links - 1);
          }
        }
    }
  }

  /** One more component resolves from where the rest of the path ends. */
  lemma {:induction false} ResolveSnoc(root: Node, at: Path, steps: seq<Step>, n: Name, links: nat)
    ensures var r := Resolve(root, at, steps, links);
      Resolve(root, at, steps + [Down(n)], links) ==
      if r.None? then None else Resolve(root, r.value.0, [Down(n)], r.value.1)
    decreases links, |steps|
  {
    var more := steps + [Down(n)];
    if steps == [] {
      assert more == [Down(n)];
    } else {
      assert more[1..] == steps[1..] + [Down(n)];
      match steps[0]
      case Here => ResolveSnoc(root, at, steps[1..], n, links);
      case Up => ResolveSnoc(root, Parent(at), steps[1..], n, links);
      case Down(name) =>
        var node := Lookup(root, at + [name]);
        if node.Some? {
          match node.value {
            case Dir(_) => ResolveSnoc(root, at + [name], steps[1..], n, links);
            case File(_, _) => Snoc(at + [name], n);
            case Link(absolute, target) =>
              if links > 0 {
                var from := if absolute then [] else at;
                ResolveSnoc(root, from, target + steps[1..], n, links - 1);
                assert target + more[1..] == target + steps[1..] + [Down(n)];
              }
          }
        }
    }
  }

  /** More links allowed lead to the same place. */
  lemma {:induction false} ResolveMoreLinks(root: Node, at: Path, steps: seq<Step>, links: nat, extra: nat)
    requires Resolve(root, at, steps, links).Some?
    ensures var (p, left) := Resolve(root, at, steps, links).value;
      Resolve(root, at, steps, links + extra) == Some((p, left + extra))
    decreases links, |steps|
  {
    if steps != [] {
      match steps[0]
      case Here => ResolveMoreLinks(root, at, steps[1..], links, extra);
      case Up => ResolveMoreLinks(root, Parent(at), steps[1..], links, extra);
      case Down(name) =>
        var node := Lookup(root, at + [name]).value;
        match node {
          case Dir(_) => ResolveMoreLinks(root, at + [name], steps[1..], links, extra);
          case File(_, _) =>
          case Link(absolute, target) =>
            ResolveMoreLinks(root, if absolute then [] else at, target + steps[1..], links - 1, extra);
        }
    }
  }

  /** A link-free path resolves to itself and uses no link. */
  lemma {:induction false} LinkFreeResolves(root: Node, p: Path, links: nat)
    requires LinkFree(root, p)
    ensures Resolve(root, [], Steps(p), links) == Some((p, links))
  {
    if p != [] {
      ParentIsDir(root, p);
      LinkFreeResolves(root, Parent(p), links);
      ResolveSnoc(root, [], Steps(Parent(p)), Last(p), links);
      assert p == Parent(p) + [Last(p)];
    }
  }
}
