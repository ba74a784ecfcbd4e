/** Joining paths within a root, and the containment test of internal/helm/chart/secureloader/directory.go. */
module SecureJoin {
  import opened Wrappers
  import opened FileTree
  import opened SymPath

  const MAX_SYMLINKS: nat := 255

  function Downs(p: Path): seq<Step> {
    if p == [] then [] else [Down(p[0])] + Downs(p[1..])
  }

  function Ups(n: nat): seq<Step> {
    if n == 0 then [] else [Up] + Ups(n - 1)
  }

  /** filepath.Rel of two absolute paths. */
  function Rel(base: Path, target: Path): seq<Step> {
    if base != [] && target != [] && base[0] == target[0] then Rel(base[1..], target[1..])
    else Ups(|base|) + Downs(target)
  }

  /**
   securejoin.SecureJoin from the path `at` below root: links are followed as if root
   were the root of the file system, and what does not exist counts as no link.
   */
  function Join(w: World, root: Path, at: Path, steps: seq<Step>, links: nat): Option<Path>
    decreases links, |steps|
  {
    if steps == [] then Some(root + at)
    else
      match steps[0]
      case Here => Join(w, root, at, steps[1..], links)
      case Up => Join(w, root, Parent(at), steps[1..], links)
      case Down(n) =>
        match Lstat(w, root + at + [n])
        case Some(Link(absolute, target)) =>
          if links == 0 then None
          else Join(w, root, if absolute then [] else at, target + steps[1..], links - 1)
        case _ => Join(w, root, at + [n], steps[1..], links)
  }

  /** isSecureAbsolutePath. */
  predicate IsSecure(w: World, root: Path, abs: Path) {
    root == [] || Join(w, root, [], Rel(root, abs), MAX_SYMLINKS) == Some(abs)
  }

  predicate IsLink(info: Option<Node>) {
    info.Some? && info.value.Link?
  }

  /** A join stays where it is, goes up, starts again from the root, or goes down to what is no link. */
  predicate MovesTo(w: World, root: Path, at: Path, at': Path) {
    || at' == at || at' == Parent(at) || at' == []
    || (at' == at + [Last(at')] && !IsLink(Lstat(w, root + at + [Last(at')])))
  }

  lemma JoinThroughLink(w: World, root: Path, at: Path, n: Name, rest: seq<Step>, links: nat)
    requires IsLink(Lstat(w, root + at + [n]))
    ensures var link := Lstat(w, root + at + [n]).value;
      Join(w, root, at, [Down(n)] + rest, links) ==
        if links == 0 then None else Join(w, root, if link.absolute then [] else at, link.target + rest, links - 1)
  {
    assert ([Down(n)] + rest)[1..] == rest;
  }

  lemma JoinDown(w: World, root: Path, at: Path, n: Name, rest: seq<Step>, links: nat)
    requires !IsLink(Lstat(w, root + at + [n]))
    ensures Join(w, root, at, [Down(n)] + rest, links) == Join(w, root, at + [n], rest, links)
  {
    assert ([Down(n)] + rest)[1..] == rest;
  }

  /** A join that has steps left fails, or goes on with another one that is smaller. */
  lemma JoinStep(w: World, root: Path, at: Path, steps: seq<Step>, links: nat)
    returns (ok: bool, at': Path, steps': seq<Step>, links': nat)
    requires steps != []
    ensures !ok ==> Join(w, root, at, steps, links).None?
    ensures ok ==> Join(w, root, at, steps, links) == Join(w, root, at', steps', links')
    ensures ok ==> links' < links || (links' == links && |steps'| < |steps|)
    ensures ok ==> MovesTo(w, root, at, at')
  {
    ok, at', steps', links' := true, at, steps[1..], links;
    match steps[0]
    case Here =>
    case Up => at' := Parent(at);
    case Down(n) =>
      assert steps == [Down(n)] + steps[1..];
      var info := Lstat(w, root + at + [n]);
      if IsLink(info) {
        JoinThroughLink(w, root, at, n, steps[1..], links);
        ok := links > 0;
        if ok {
          at', steps', links' := if info.value.absolute then [] else at, info.value.target + steps[1..], links - 1;
        }
      } else {
        JoinDown(w, root, at, n, steps[1..], links);
        at' := at + [n];
      }
  }

  /** A join never leaves the root. */
  lemma {:induction false} JoinStaysBelow(w: World, root: Path, at: Path, steps: seq<Step>, links: nat)
    ensures var r := Join(w, root, at, steps, links); r.Some? ==> root <= r.value
    decreases links, |steps|
  {
    if steps != [] {
      var ok, at', steps', links' := JoinStep(w, root, at, steps, links);
      if ok {
        JoinStaysBelow(w, root, at', steps', links');
      }
    }
  }

  lemma {:induction false} RelBelow(base: Path, p: Path)
    ensures Rel(base, base + p) == Downs(p)
  {
    if base == [] {
      assert base + p == p;
    } else {
      assert (base + p)[1..] == base[1..] + p;
      RelBelow(base[1..], p);
    }
  }

  lemma PrefixLinkFree(root: Node, p: Path, q: Path)
    requires LinkFree(root, q) && p <= q
    ensures LinkFree(root, p)
  {
    if |p| < |q| { PrefixIsDir(root, q, |p|); assert q[..|p|] == p; } else { assert p == q; }
  }

  /** Joining the rest of a link-free path leads to this path. */
  lemma {:induction false} JoinFollows(w: World, root: Path, at: Path, p: Path, links: nat)
    requires LinkFree(w.root, root + at + p)
    ensures Join(w, root, at, Downs(p), links) == Some(root + at + p)
    decreases |p|
  {
    if p != [] {
      var next := root + at + [p[0]];
      assert next <= root + at + p;
      PrefixLinkFree(w.root, next, root + at + p);
      LstatLinkFree(w, next);
      assert root + (at + [p[0]]) + p[1..] == root + at + p;
      assert Downs(p)[1..] == Downs(p[1..]);
      JoinFollows(w, root, at + [p[0]], p[1..], links);
    } else {
      assert root + at + p == root + at;
    }
  }

  /** The test accepts a link-free path exactly if the root is one of its ancestors or the path itself. */
  lemma SecureIffBelowRoot(w: World, root: Path, abs: Path)
    requires LinkFree(w.root, abs)
    ensures IsSecure(w, root, abs) <==> root <= abs
  {
    if root <= abs {
      var p := abs[|root|..];
      assert abs == root + p && root + [] + p == abs;
      RelBelow(root, p);
      JoinFollows(w, root, [], p, MAX_SYMLINKS);
    }
    JoinStaysBelow(w, root, [], Rel(root, abs), MAX_SYMLINKS);
  }

  /** No component of the path, as far as it exists, is a link. */
  ghost predicate NoLinks(root: Node, p: Path) {
    forall i :: 0 <= i <= |p| ==> !LinkAt(root, p[..i])
  }

  predicate LinkAt(root: Node, p: Path) {
    Lookup(root, p).Some? && Lookup(root, p).value.Link?
  }

  lemma NoLinksParent(root: Node, p: Path)
    requires NoLinks(root, p)
    ensures NoLinks(root, Parent(p))
    ensures !LinkAt(root, p)
  {
    assert p[..|p|] == p;
    forall i | 0 <= i <= |Parent(p)| ensures !LinkAt(root, Parent(p)[..i]) {
      assert Parent(p)[..i] == p[..i];
    }
  }

  lemma NoLinksSnoc(root: Node, p: Path, n: Name)
    requires NoLinks(root, p) && !LinkAt(root, p + [n])
    ensures NoLinks(root, p + [n])
  {
    forall i | 0 <= i <= |p + [n]| ensures !LinkAt(root, (p + [n])[..i]) {
      assert (p + [n])[..i] == if i <= |p| then p[..i] else p + [n];
    }
  }

  /** A path without links resolves to itself if it exists, and does not resolve otherwise. */
  lemma {:induction false} NoLinksResolves(root: Node, p: Path, links: nat)
    requires NoLinks(root, p)
    ensures Resolve(root, [], Steps(p), links) == if Lookup(root, p).Some? then Some((p, links)) else None
  {
    if p != [] {
      NoLinksParent(root, p);
      NoLinksResolves(root, Parent(p), links);
      ResolveSnoc(root, [], Steps(Parent(p)), Last(p), links);
      assert p == Parent(p) + [Last(p)];
      assert [Down(Last(p))][1..] == [];
    }
  }

  lemma NoLinksLstat(w: World, p: Path, n: Name)
    requires NoLinks(w.root, p)
    ensures Lstat(w, p + [n]) == Lookup(w.root, p + [n])
  {
    Snoc(p, n);
    NoLinksResolves(w.root, p, w.kernelLinks);
  }

  lemma NoLinksMove(w: World, root: Path, at: Path, at': Path)
    requires NoLinks(w.root, root) && NoLinks(w.root, root + at)
    requires MovesTo(w, root, at, at')
    ensures NoLinks(w.root, root + at')
  {
    assert root + [] == root;
    if at' == Parent(at) {
      NoLinksParent(w.root, root + at);
      assert at != [] ==> root + at' == Parent(root + at);
    } else if at' != at && at' != [] {
      NoLinksLstat(w, root + at, Last(at'));
      NoLinksSnoc(w.root, root + at, Last(at'));
      assert root + at' == root + at + [Last(at')];
    }
  }

  /** From a root without links, a join leads to a path without links. */
  lemma {:induction false} JoinHasNoLinks(w: World, root: Path, at: Path, steps: seq<Step>, links: nat)
    requires NoLinks(w.root, root) && NoLinks(w.root, root + at)
    ensures var r := Join(w, root, at, steps, links); r.Some? ==> NoLinks(w.root, r.value)
    decreases links, |steps|
  {
    if steps != [] {
      var ok, at', steps', links' := JoinStep(w, root, at, steps, links);
      if ok {
        NoLinksMove(w, root, at, at');
        JoinHasNoLinks(w, root, at', steps', links');
      }
    }
  }

  // ----- what a join means -----

  lemma {:induction false} LookupBelow(root: Node, p: Path, q: Path)
    requires Lookup(root, p).Some?
    ensures Lookup(root, p + q) == Lookup(Lookup(root, p).value, q)
  {
    if q == [] {
      assert p + q == p;
    } else {
      assert Parent(p + q) == p + Parent(q) && Last(p + q) == Last(q);
      LookupBelow(root, p, Parent(q));
    }
  }

  /** What Lstat sees at an entry of a directory behind `root`. */
  lemma LstatBelow(w: World, root: Path, at: Path, n: Name)
    requires LinkFree(w.root, root) && IsDir(Lookup(w.root, root).value, at)
    ensures Lstat(w, root + at + [n]) == Lookup(Lookup(w.root, root).value, at + [n])
  {
    LookupBelow(w.root, root, at);
    LookupBelow(w.root, root, at + [n]);
    assert root + at + [n] == root + (at + [n]);
    Snoc(root + at, n);
    LinkFreeResolves(w.root, root + at, w.kernelLinks);
  }

  /** A join leads to where the path leads if the directory at `root` is taken for the whole file system. */
  lemma {:induction false} JoinIsChroot(w: World, root: Path, at: Path, steps: seq<Step>, links: nat)
    requires LinkFree(w.root, root) && IsDir(Lookup(w.root, root).value, at)
    requires Resolve(Lookup(w.root, root).value, at, steps, links).Some?
    ensures Join(w, root, at, steps, links)
         == Some(root + Resolve(Lookup(w.root, root).value, at, steps, links).value.0)
    decreases links, |steps|
  {
    var sub := Lookup(w.root, root).value;
    if steps != [] {
      match steps[0]
      case Here => JoinIsChroot(w, root, at, steps[1..], links);
      case Up =>
        if at != [] { ParentIsDir(sub, at); }
        JoinIsChroot(w, root, Parent(at), steps[1..], links);
      case Down(n) =>
        LstatBelow(w, root, at, n);
        match Lookup(sub, at + [n]).value {
          case Dir(_) => JoinIsChroot(w, root, at + [n], steps[1..], links);
          case File(_, _) => assert steps[1..] == [];
          case Link(absolute, target) =>
            var from := if absolute then [] else at;
            if at != [] { PrefixIsDir(sub, at, 0); }
            JoinIsChroot(w, root, from, target + steps[1..], links - 1);
        }
    }
  }

  /** Where the steps lead on paper. */
  function Walked(at: Path, steps: seq<Step>): Path
    decreases |steps|
  {
    if steps == [] then at
    else
      match steps[0]
      case Here => Walked(at, steps[1..])
      case Up => Walked(Parent(at), steps[1..])
      case Down(n) => Walked(at + [n], steps[1..])
  }

  lemma {:induction false} WalkedDowns(at: Path, p: Path)
    ensures Walked(at, Downs(p)) == at + p
    decreases |p|
  {
    if p == [] {
      assert at + p == at;
    } else {
      assert Downs(p)[1..] == Downs(p[1..]) && at + [p[0]] + p[1..] == at + p;
      WalkedDowns(at + [p[0]], p[1..]);
    }
  }

  /** As many steps up as the path behind `base` has components lead to `base`. */
  lemma {:induction false} WalkedUps(base: Path, p: Path, steps: seq<Step>)
    ensures Walked(base + p, Ups(|p|) + steps) == Walked(base, steps)
    decreases |p|
  {
    if p == [] {
      assert base + p == base && Ups(0) + steps == steps;
    } else {
      var q := p[..|p|-1];
      assert Parent(base + p) == base + q && (Ups(|p|) + steps)[1..] == Ups(|q|) + steps;
      WalkedUps(base, q, steps);
    }
  }

  /** Rel leads from the base to the target, whatever stands in front of both. */
  lemma {:induction false} RelLeads(front: Path, base: Path, target: Path)
    ensures Walked(front + base, Rel(base, target)) == front + target
    decreases |base|
  {
    if base != [] && target != [] && base[0] == target[0] {
      assert front + base == (front + [base[0]]) + base[1..] && front + target == (front + [target[0]]) + target[1..];
      RelLeads(front + [base[0]], base[1..], target[1..]);
    } else {
      WalkedUps(front, base, Downs(target));
      WalkedDowns(front, target);
    }
  }
}
