/**
 The rename that copies and deletes, internal/fs/fs.go: renameByCopy, CopyDir, copyFile. The file system is a map from
 clean absolute paths to nodes; every operation of the operating system may fail at any time.
 */
module RenameByCopy {
  import opened Helpers
  import opened Wrappers

  type Name = string
  type Path = seq<Name>

  /** A link has a text, which cloning keeps. The mode bits are those of files. */
  datatype Node = File(data: seq<bv8>, mode: nat) | Link(text: string) | Dir

  type Nodes = map<Path, Node>

  function Get(m: Nodes, p: Path): Option<Node> {
    if p in m then Some(m[p]) else None
  }

  function Parent(p: Path): Path {
    if p == [] then [] else p[..|p|-1]
  }

  /** `p` is `top` or lies below it. */
  predicate Within(p: Path, top: Path) {
    top <= p
  }

  predicate IsDirAt(m: Nodes, p: Path) {
    p in m && m[p].Dir?
  }

  /** A tree: every node has its parent directory. */
  ghost predicate Tree(m: Nodes) {
    IsDirAt(m, []) && forall p :: p in m && p != [] ==> IsDirAt(m, Parent(p))
  }

  lemma WithinParent(p: Path, q: Path)
    requires p != []
    ensures Within(p, q) <==> q == p || Within(Parent(p), q)
  {
    if Within(p, q) && q != p {
      assert q == p[..|q|] == Parent(p)[..|q|];
    }
    if Within(Parent(p), q) {
      assert q == Parent(p)[..|q|] == p[..|q|];
    }
  }

  lemma {:induction false} AboveIsDir(m: Nodes, p: Path, q: Path)
    requires Tree(m) && p in m && Within(p, q) && p != q
    ensures IsDirAt(m, q)
  {
    WithinParent(p, q);
    if q != Parent(p) {
      AboveIsDir(m, Parent(p), q);
    }
  }

  /** The path below `to` where the path `p` below `from` would be. */
  function Rebase(p: Path, from: Path, to: Path): Path
    requires Within(p, from)
  {
    to + p[|from|..]
  }

  /** What an atomic move leaves at `p`; directories above the destination come into being. */
  function MovedAt(m: Nodes, src: Path, dst: Path, p: Path): Option<Node> {
    if Within(p, src) && !Within(p, dst) then None else CopiedAt(m, src, dst, p)
  }

  ghost predicate Moved(m: Nodes, m': Nodes, src: Path, dst: Path) {
    forall p :: Get(m', p) == MovedAt(m, src, dst, p)
  }

  /** The same with the source left in place. */
  function CopiedAt(m: Nodes, src: Path, dst: Path, p: Path): Option<Node> {
    if Within(p, dst) then Get(m, Rebase(p, dst, src))
    else if Within(dst, p) && p !in m then Some(Dir)
    else Get(m, p)
  }

  ghost predicate Copied(m: Nodes, m': Nodes, src: Path, dst: Path) {
    forall p :: Get(m', p) == CopiedAt(m, src, dst, p)
  }

  /** Nothing but the tree at `dst` and missing directories above it has changed. */
  ghost predicate OnlyAt(m: Nodes, m': Nodes, dst: Path) {
    forall p :: !Within(p, dst) ==> Get(m', p) == Get(m, p) || (Within(dst, p) && p !in m && Get(m', p) == Some(Dir))
  }

  /** Some of the missing directories down to `p` have been made, and nothing else. */
  ghost predicate Made(m: Nodes, m': Nodes, p: Path) {
    forall q :: Get(m', q) == Get(m, q) || (Within(p, q) && q !in m && Get(m', q) == Some(Dir))
  }

  lemma MadeOneMore(m: Nodes, m': Nodes, p: Path)
    requires p != [] && p !in m && Made(m, m', Parent(p)) && p !in m'
    ensures Made(m, m'[p := Dir], p)
  {
    forall q ensures Get(m'[p := Dir], q) == Get(m, q) || (Within(p, q) && q !in m && Get(m'[p := Dir], q) == Some(Dir)) {
      WithinParent(p, q);
      assert Get(m', q) == Get(m, q) || Within(Parent(p), q);
    }
  }

  lemma MadeMore(m: Nodes, m': Nodes, p: Path)
    requires p != [] && Made(m, m', Parent(p))
    ensures Made(m, m', p)
  {
    forall q ensures Get(m', q) == Get(m, q) || (Within(p, q) && q !in m && Get(m', q) == Some(Dir)) {
      WithinParent(p, q);
      assert Get(m', q) == Get(m, q) || Within(Parent(p), q);
    }
  }

  lemma Comparable(a: Path, b: Path, p: Path)
    requires Within(p, a) && Within(p, b)
    ensures Within(a, b) || Within(b, a)
  {
    if |a| <= |b| {
      assert b[..|a|] == p[..|a|] == a;
    } else {
      assert a[..|b|] == p[..|b|] == b;
    }
  }

  lemma WithinChain(p: Path, q: Path, r: Path)
    requires Within(p, q) && Within(q, r)
    ensures Within(p, r)
  {
    assert p[..|r|] == q[..|r|];
  }

  /** What is below a path that is not there, or is no directory, is not there either. */
  lemma NothingBelow(m: Nodes, p: Path, q: Path)
    requires Tree(m) && !IsDirAt(m, q) && Within(p, q) && p != q
    ensures p !in m
  {
    if p in m {
      AboveIsDir(m, p, q);
    }
  }

  /** The names in a directory. */
  function Children(m: Nodes, d: Path): set<Name> {
    set p | p in m && |p| == |d| + 1 && Within(p, d) :: p[|d|]
  }

  function Below(m: Nodes, d: Path): set<Path> {
    set p | p in m && Within(p, d) && p != d
  }

  lemma ChildIsThere(m: Nodes, d: Path, name: Name)
    ensures name in Children(m, d) <==> d + [name] in m
  {
    if name in Children(m, d) {
      var p :| p in m && |p| == |d| + 1 && Within(p, d) && p[|d|] == name;
      assert p == d + [name];
    }
    if d + [name] in m {
      assert Within(d + [name], d) && (d + [name])[|d|] == name;
    }
  }

  /** A directory of which the children in `left` are not yet copied. */
  function PartAt(m: Nodes, src: Path, dst: Path, left: set<Name>, p: Path): Option<Node> {
    if Within(p, dst) && p != dst && p[|dst|] in left then None else CopiedAt(m, src, dst, p)
  }

  ghost predicate Part(m: Nodes, m': Nodes, src: Path, dst: Path, left: set<Name>) {
    forall p :: Get(m', p) == PartAt(m, src, dst, left, p)
  }

  lemma NotInAnyChild(m: Nodes, d: Path, p: Path)
    requires Tree(m) && Within(p, d) && p != d
    ensures p[|d|] !in Children(m, d) ==> p !in m
  {
    var child := d + [p[|d|]];
    ChildIsThere(m, d, p[|d|]);
    assert p[..|d|+1] == child;
    if child !in m && p != child {
      NothingBelow(m, p, child);
    }
  }

  /** The copy of a directory begins with the directory itself. */
  lemma PartFirst(m: Nodes, m': Nodes, src: Path, dst: Path)
    requires Tree(m) && IsDirAt(m, src) && dst !in m && Made(m, m', dst) && Tree(m') && IsDirAt(m', dst)
    ensures Part(m, m', src, dst, Children(m, src))
  {
    forall p ensures Get(m', p) == PartAt(m, src, dst, Children(m, src), p) {
      if Within(p, dst) && p != dst {
        NothingBelow(m, p, dst);
        assert !Within(dst, p);
        NotInAnyChild(m, src, Rebase(p, dst, src));
      } else if p == dst {
        assert Rebase(p, dst, src) == src;
      } else if Within(dst, p) {
        AboveIsDir(m', dst, p);
      }
    }
  }

  lemma ChildPaths(src: Path, dst: Path, name: Name, p: Path)
    requires !Within(dst, src) && !Within(src, dst)
    ensures Within(p, dst + [name]) <==> Within(p, dst) && p != dst && p[|dst|] == name
    ensures Within(p, dst + [name]) ==> Rebase(p, dst + [name], src + [name]) == Rebase(p, dst, src)
    ensures Within(dst + [name], p) <==> p == dst + [name] || Within(dst, p)
  {
    WithinParent(dst + [name], p);
    if Within(p, dst) && p != dst && p[|dst|] == name {
      assert p[..|dst|+1] == dst + [name];
    }
    if Within(p, dst + [name]) {
      assert p[|dst|] == (dst + [name])[|dst|];
      assert p[..|dst|] == dst;
      assert [name] + p[|dst|+1..] == p[|dst|..];
    }
  }

  lemma PartMore(m: Nodes, before: Nodes, after: Nodes, src: Path, dst: Path, left: set<Name>, name: Name)
    requires !Within(dst, src) && !Within(src, dst) && name in left
    requires Part(m, before, src, dst, left) && IsDirAt(m, src)
    requires Copied(before, after, src + [name], dst + [name])
    ensures Part(m, after, src, dst, left - {name})
  {
    forall p ensures Get(after, p) == PartAt(m, src, dst, left - {name}, p) {
      ChildPaths(src, dst, name, p);
      assert Get(after, p) == CopiedAt(before, src + [name], dst + [name], p);
      assert Get(before, p) == PartAt(m, src, dst, left, p);
      if Within(p, dst + [name]) {
        var q := Rebase(p, dst, src);
        assert Within(q, src);
        if Within(q, dst) {
          Comparable(src, dst, q);
        } else if Within(dst, q) {
          WithinChain(dst, q, src);
        }
        assert Get(before, q) == PartAt(m, src, dst, left, q);
      } else if p == dst {
        assert Rebase(p, dst, src) == src;
      }
    }
  }

  lemma CopyOnlyAt(m: Nodes, m': Nodes, src: Path, dst: Path)
    requires Made(m, m', dst) || Copied(m, m', src, dst)
    ensures OnlyAt(m, m', dst)
  {
    forall p | !Within(p, dst)
      ensures Get(m', p) == Get(m, p) || (Within(dst, p) && p !in m && Get(m', p) == Some(Dir))
    {
      if Copied(m, m', src, dst) {
        assert Get(m', p) == CopiedAt(m, src, dst, p);
      }
    }
  }

  /** The source is listed as it was, although the destination has been made. */
  lemma SameChildren(m: Nodes, m': Nodes, src: Path, dst: Path, left: set<Name>)
    requires Part(m, m', src, dst, left) && !Within(dst, src) && !Within(src, dst)
    ensures Children(m', src) == Children(m, src)
  {
    forall name ensures name in Children(m', src) <==> name in Children(m, src) {
      ChildIsThere(m, src, name);
      ChildIsThere(m', src, name);
      var child := src + [name];
      assert Within(child, src);
      if Within(child, dst) {
        Comparable(src, dst, child);
      } else if Within(dst, child) {
        WithinChain(dst, child, src);
      }
      assert Get(m', child) == PartAt(m, src, dst, left, child);
    }
  }

  lemma PartLast(m: Nodes, m': Nodes, src: Path, dst: Path)
    requires Part(m, m', src, dst, {})
    ensures Copied(m, m', src, dst)
  {
    forall p ensures Get(m', p) == CopiedAt(m, src, dst, p) {
      assert Get(m', p) == PartAt(m, src, dst, {}, p);
    }
  }

  /** Copying what is not a directory to a place where nothing is below. */
  lemma OneCopied(m: Nodes, src: Path, dst: Path)
    requires Tree(m) && src in m && !IsDirAt(m, src) && CanHold(m, dst)
    ensures Copied(m, m[dst := m[src]], src, dst)
  {
    forall p ensures Get(m[dst := m[src]], p) == CopiedAt(m, src, dst, p) {
      if p == dst {
        assert Rebase(p, dst, src) == src;
      } else if Within(p, dst) {
        NothingBelow(m, p, dst);
        var q := Rebase(p, dst, src);
        assert Within(q, src) && q != src;
        NothingBelow(m, q, src);
      } else if Within(dst, p) {
        WithinParent(dst, p);
        if p != Parent(dst) {
          AboveIsDir(m, Parent(dst), p);
        }
      }
    }
  }

  /** A file or a link can be put at the path. */
  predicate CanHold(m: Nodes, p: Path) {
    p != [] && !IsDirAt(m, p) && IsDirAt(m, Parent(p))
  }

  /** A regular file copied to `q`; a file copied to itself is emptied before it is read. */
  function Overwritten(m: Nodes, src: Path, q: Path): Nodes
    requires src in m && m[src].File?
  {
    m[q := if q == src then m[src].(data := []) else m[src]]
  }

  ghost predicate SameBut(m: Nodes, m': Nodes, q: Option<Path>) {
    forall p :: q != Some(p) ==> Get(m', p) == Get(m, p)
  }

  lemma PutKeepsTree(m: Nodes, p: Path, node: Node)
    requires Tree(m) && CanHold(m, p)
    ensures Tree(m[p := node])
  {
    assert |Parent(p)| < |p|;
  }

  lemma OnlyOne(m: Nodes, m': Nodes, dst: Path)
    requires forall p :: p != dst ==> Get(m', p) == Get(m, p)
    ensures OnlyAt(m, m', dst)
  {
    assert Within(dst, dst);
  }

  /** The nodes below a child of the source are fewer than those below the source. */
  lemma ChildIsSmaller(m: Nodes, before: Nodes, src: Path, dst: Path, left: set<Name>, name: Name)
    requires Part(m, before, src, dst, left) && !Within(dst, src) && !Within(src, dst) && src + [name] in m
    ensures Get(before, src + [name]) == Get(m, src + [name])
    ensures Below(before, src + [name]) < Below(m, src)
  {
    var child := src + [name];
    forall p | Within(p, child) ensures Within(p, src) && Get(before, p) == Get(m, p) {
      WithinChain(p, child, src);
      if Within(p, dst) {
        Comparable(src, dst, p);
      } else if Within(dst, p) {
        WithinChain(dst, p, src);
      }
      assert Get(before, p) == PartAt(m, src, dst, left, p);
    }
    assert Within(child, child) && Within(child, src);
    assert child in Below(m, src) && child !in Below(before, child);
    forall p | p in Below(before, child) ensures p in Below(m, src) {
      assert Within(p, child) && Get(before, p) == Get(m, p);
    }
  }

  /** A regular file is not copied to itself, nor through a link, and a directory not into itself. */
  predicate Safe(m: Nodes, src: Path, dst: Path) {
    && (src in m && m[src].File? ==> dst != src && !(dst in m && m[dst].Link?))
    && !IntoItself(m, src, dst)
  }

  /** A directory is to be put below itself. */
  predicate IntoItself(m: Nodes, src: Path, dst: Path) {
    IsDirAt(m, src) && Within(dst, src) && dst != src
  }

  /** Whatever can be moved without overwriting a directory lies apart from the place it is moved to. */
  lemma Apart(m: Nodes, src: Path, dst: Path)
    requires Tree(m) && src in m && dst != src
    requires IsDirAt(m, src) ==> dst !in m && !Within(dst, src)
    requires !IsDirAt(m, src) ==> CanHold(m, dst)
    ensures !Within(dst, src) && !Within(src, dst)
  {
    if Within(src, dst) {
      AboveIsDir(m, src, dst);
    }
    if Within(dst, src) && !IsDirAt(m, src) {
      WithinParent(dst, src);
      if Parent(dst) != src {
        AboveIsDir(m, Parent(dst), src);
      }
    }
  }

  /** The copy is there and the source is removed, or at least nothing else has changed. */
  lemma MoveDone(m: Nodes, c: Nodes, m': Nodes, src: Path, dst: Path, removed: bool)
    requires !Within(dst, src) && !Within(src, dst) && Copied(m, c, src, dst)
    requires forall q :: !Within(q, src) ==> Get(m', q) == Get(c, q)
    requires removed ==> forall q :: Within(q, src) ==> q !in m'
    ensures forall p :: !Within(p, src) ==> Get(m', p) == MovedAt(m, src, dst, p)
    ensures removed ==> Moved(m, m', src, dst)
  {
    forall p | !Within(p, src) ensures Get(m', p) == MovedAt(m, src, dst, p) {
      assert Get(c, p) == CopiedAt(m, src, dst, p);
    }
    forall p | Within(p, src) ensures MovedAt(m, src, dst, p) == None {
      if Within(p, dst) {
        Comparable(src, dst, p);
      }
    }
  }

  /** What a successful copy has done. */
  ghost predicate CopyDone(m: Nodes, c: Nodes, src: Path, dst: Path, to: Option<Path>) {
    && src in m
    && (m[src].Dir? ==> dst !in m && !Within(dst, src) && Copied(m, c, src, dst))
    && (m[src].Link? ==> dst !in m && CanHold(m, dst) && c == m[dst := m[src]])
    && (m[src].File? ==> to.Some? && CanHold(m, to.value) && c == Overwritten(m, src, to.value))
  }

  /** The path found by following links from `dst`. */
  ghost predicate LeadsTo(m: Nodes, dst: Path, to: Option<Path>) {
    && (to.Some? && to.value in m ==> !m[to.value].Link?)
    && (!(dst in m && m[dst].Link?) ==> to == Some(dst))
  }

  lemma CopyIsDone(m: Nodes, c: Nodes, src: Path, dst: Path, to: Option<Path>)
    requires Tree(m) && LeadsTo(m, dst, to) && CopyDone(m, c, src, dst, to)
    ensures Safe(m, src, dst) ==> Copied(m, c, src, dst) && !Within(dst, src) && !Within(src, dst)
    ensures !Safe(m, src, dst) && dst != src ==> dst in m && Get(c, dst) == Get(m, dst) && !Within(dst, src)
  {
    if Safe(m, src, dst) {
      Apart(m, src, dst);
      if !m[src].Dir? {
        OneCopied(m, src, dst);
      }
    } else if dst != src && Within(dst, src) {
      NothingBelow(m, dst, src);
    }
  }

  /** What a failed copy has done. */
  ghost predicate CopyStopped(m: Nodes, c: Nodes, src: Path, dst: Path, to: Option<Path>) {
    || c == m
    || (IsDirAt(m, src) && dst !in m && OnlyAt(m, c, dst))
    || (src in m && m[src].File? && to.Some? && CanHold(m, to.value) && SameBut(m, c, to))
  }

  lemma SourceIsIntact(m: Nodes, c: Nodes, src: Path, dst: Path, to: Option<Path>)
    requires Tree(m) && LeadsTo(m, dst, to) && CopyStopped(m, c, src, dst, to) && Safe(m, src, dst)
    ensures OnlyAt(m, c, dst) && forall p :: Within(p, src) ==> Get(c, p) == Get(m, p)
  {
    if c != m {
      Apart(m, src, dst);
      if m[src].File? {
        OnlyOne(m, c, dst);
      }
      forall p | Within(p, src) ensures Get(c, p) == Get(m, p) {
        if Within(p, dst) {
          Comparable(src, dst, p);
        } else if Within(dst, p) {
          WithinChain(dst, p, src);
        }
      }
    }
  }

  /** A file copied to itself is lost; one copied through a link leaves the link where the file should be. */
  lemma UnsafeIsNoMove(m: Nodes, m': Nodes, src: Path, dst: Path)
    requires !Safe(m, src, dst) && !IntoItself(m, src, dst)
    requires dst == src ==> src !in m'
    requires dst != src ==> dst in m && Get(m', dst) == Get(m, dst)
    ensures !Moved(m, m', src, dst)
  {
    assert Rebase(dst, dst, src) == src;
    assert MovedAt(m, src, dst, dst) == Get(m, src);
    assert Get(m', dst) != MovedAt(m, src, dst, dst);
  }

  datatype Outcome = Done | CopyFailed | RemoveFailed

  /** The file at `src` has gone to `to`, and is gone altogether if this is where it was. */
  ghost predicate LeavesFile(m: Nodes, m': Nodes, src: Path, to: Path)
    requires src in m
  {
    forall p :: Get(m', p) == if Within(p, src) then None else if p == to then Some(m[src]) else Get(m, p)
  }

  lemma ChildrenApart(src: Path, dst: Path, name: Name)
    requires !Within(dst, src)
    ensures !Within(dst + [name], src + [name])
  {
    WithinParent(dst + [name], src + [name]);
    if Within(dst, src + [name]) {
      WithinChain(dst, src + [name], src);
    }
    assert dst + [name] == src + [name] ==> dst == src by {
      assert (dst + [name])[..|dst|] == dst && (src + [name])[..|src|] == src;
    }
  }

  // ----- the loop of CopyDir -----

  /**
   The names in `left` are still to copy: they are in the source and not yet in the destination. If the destination
   is not inside the source, the rest is copied; if it is, the way down to it is still to copy.
   */
  ghost predicate Copying(m: Nodes, m': Nodes, src: Path, dst: Path, left: set<Name>) {
    && IsDirAt(m, src) && IsDirAt(m', dst) && dst !in m && !Within(src, dst)
    && (forall name :: name in left ==> src + [name] in m' && dst + [name] !in m')
    && if Within(dst, src) then dst[|src|] in left else Part(m, m', src, dst, left)
  }

  lemma BeginCopy(m: Nodes, m': Nodes, src: Path, dst: Path)
    requires Tree(m) && Tree(m') && IsDirAt(m, src) && dst !in m && !Within(src, dst)
    requires Made(m, m', dst) && IsDirAt(m', dst)
    ensures Copying(m, m', src, dst, Children(m', src))
  {
    forall name | name in Children(m', src) ensures src + [name] in m' && dst + [name] !in m' {
      ChildIsThere(m', src, name);
      NothingMade(m, m', dst, name);
    }
    if Within(dst, src) {
      WayDown(m', src, dst, dst[|src|]);
      ChildIsThere(m', src, dst[|src|]);
    } else {
      PartFirst(m, m', src, dst);
      SameChildren(m, m', src, dst, Children(m, src));
    }
  }

  lemma NothingMade(m: Nodes, m': Nodes, dst: Path, name: Name)
    requires Tree(m) && dst !in m && Made(m, m', dst)
    ensures dst + [name] !in m'
  {
    NothingBelow(m, dst + [name], dst);
    assert Get(m', dst + [name]) == Get(m, dst + [name]) || Within(dst, dst + [name]);
  }

  lemma InsideParents(src: Path, dst: Path, a: Name, b: Name)
    requires Within(src + [b], dst + [a])
    ensures Within(src, dst)
  {
    assert dst == (dst + [a])[..|dst|] == (src + [b])[..|dst|] == src[..|dst|];
  }

  /** Copying one entry leaves the other ones as they are. */
  lemma OthersStay(before: Nodes, after: Nodes, src: Path, dst: Path, name: Name, other: Name)
    requires !Within(src, dst) && OnlyAt(before, after, dst + [name]) && other != name
    requires src + [other] in before && dst + [other] !in before
    ensures src + [other] in after && dst + [other] !in after
  {
    if Within(src + [other], dst + [name]) {
      InsideParents(src, dst, name, other);
    }
    var to := dst + [other];
    assert to[|dst|] != (dst + [name])[|dst|];
    assert !Within(to, dst + [name]) && !Within(dst + [name], to) by {
      assert |to| == |dst + [name]|;
    }
    assert Get(before, src + [other]).Some?;
    assert Get(after, to) == Get(before, to);
  }

  /** The way to the destination itself is never copied. */
  lemma NotTheWay(m: Nodes, src: Path, dst: Path, name: Name)
    requires Tree(m) && IsDirAt(m, dst) && !Within(src, dst)
    requires !(IsDirAt(m, src + [name]) && Within(dst + [name], src + [name]))
    ensures Within(dst, src) ==> name != dst[|src|]
  {
    if Within(dst, src) && name == dst[|src|] {
      WayDown(m, src, dst, name);
    }
  }

  lemma CopyOn(m: Nodes, before: Nodes, after: Nodes, src: Path, dst: Path, left: set<Name>, name: Name)
    requires Copying(m, before, src, dst, left) && OnlyAt(before, after, dst + [name])
    requires if Within(dst, src) then name != dst[|src|] else Part(m, after, src, dst, left - {name})
    ensures Copying(m, after, src, dst, left - {name})
  {
    forall other | other in left - {name} ensures src + [other] in after && dst + [other] !in after {
      OthersStay(before, after, src, dst, name, other);
    }
    assert !Within(dst, dst + [name]);
    assert Get(after, dst) == Get(before, dst);
  }

  /** The entry that leads to the destination is a directory, to be copied into itself. */
  lemma WayDown(m: Nodes, src: Path, dst: Path, name: Name)
    requires Tree(m) && IsDirAt(m, dst) && Within(dst, src) && dst != src && name == dst[|src|]
    ensures IsDirAt(m, src + [name]) && Within(dst + [name], src + [name])
  {
    var way := src + [name];
    assert dst[..|src|+1] == way;
    if way != dst {
      AboveIsDir(m, dst, way);
    }
    WithinChain(dst + [name], dst, way);
  }

  /** Every entry is smaller than the directory, or nests deeper. */
  lemma EntrySmaller(m: Nodes, before: Nodes, src: Path, dst: Path, left: set<Name>, name: Name)
    requires Copying(m, before, src, dst, left) && name in left
    ensures !Within(dst, src) ==> !Within(dst + [name], src + [name])
    ensures !Within(dst, src) ==> Below(before, src + [name]) < Below(m, src)
  {
    if !Within(dst, src) {
      ChildrenApart(src, dst, name);
      assert Get(before, src + [name]) == PartAt(m, src, dst, left, src + [name]);
      assert Within(src + [name], src);
      if Within(src + [name], dst) {
        Comparable(src, dst, src + [name]);
      } else if Within(dst, src + [name]) {
        WithinChain(dst, src + [name], src);
      }
      ChildIsSmaller(m, before, src, dst, left, name);
    }
  }

  /** What changes only a child of the destination changes only the destination. */
  lemma OnlyAtChain(m: Nodes, before: Nodes, after: Nodes, dst: Path, name: Name)
    requires Tree(before) && dst in before && OnlyAt(m, before, dst) && OnlyAt(before, after, dst + [name])
    ensures OnlyAt(m, after, dst)
  {
    forall p | !Within(p, dst)
      ensures Get(after, p) == Get(m, p) || (Within(dst, p) && p !in m && Get(after, p) == Some(Dir))
    {
      if Within(p, dst + [name]) {
        WithinChain(p, dst + [name], dst);
      }
      WithinParent(dst + [name], p);
      if Within(dst, p) && p != dst {
        AboveIsDir(before, dst, p);
      }
      assert Get(after, p) == Get(before, p);
    }
  }

  // ----- what fits -----

  /** The directory is there, or it and what is missing above it can be made. */
  ghost predicate CanMake(m: Nodes, p: Path, maxDepth: nat) {
    && (p in m || |p| <= maxDepth)
    && forall q :: Within(p, q) && q in m ==> IsDirAt(m, q)
  }

  lemma CanMakeStep(m: Nodes, p: Path, maxDepth: nat)
    requires Tree(m) && p !in m && p != []
    ensures CanMake(m, p, maxDepth) <==> |p| <= maxDepth && CanMake(m, Parent(p), maxDepth)
  {
    forall q ensures Within(p, q) <==> q == p || Within(Parent(p), q) {
      WithinParent(p, q);
    }
  }

  lemma CanMakeIfThere(m: Nodes, p: Path, maxDepth: nat)
    requires Tree(m) && p in m
    ensures CanMake(m, p, maxDepth) <==> IsDirAt(m, p)
  {
    assert Within(p, p);
    forall q | Within(p, q) && q != p ensures IsDirAt(m, q) {
      AboveIsDir(m, p, q);
    }
  }

  /** The copy of no directory is too deep. */
  ghost predicate DepthFits(m: Nodes, src: Path, dst: Path, maxDepth: nat) {
    forall p :: Within(p, src) && IsDirAt(m, p) ==> |dst| + |p| - |src| <= maxDepth
  }

  /** A directory can be copied: to a free place outside itself, below directories only, and not too deep. */
  ghost predicate DirFits(m: Nodes, src: Path, dst: Path, maxDepth: nat) {
    && IsDirAt(m, src) && dst !in m && !Within(dst, src)
    && CanMake(m, dst, maxDepth) && DepthFits(m, src, dst, maxDepth)
  }

  ghost predicate EntryFits(m: Nodes, from: Path, to: Path, maxDepth: nat) {
    if IsDirAt(m, from) then DirFits(m, from, to, maxDepth) else CanHold(m, to)
  }

  lemma ChildStays(m: Nodes, before: Nodes, src: Path, dst: Path, left: set<Name>, name: Name, p: Path)
    requires Part(m, before, src, dst, left) && !Within(dst, src) && !Within(src, dst) && Within(p, src + [name])
    ensures Within(p, src) && Get(before, p) == Get(m, p)
  {
    WithinChain(p, src + [name], src);
    if Within(p, dst) {
      Comparable(src, dst, p);
    } else if Within(dst, p) {
      WithinChain(dst, p, src);
    }
    assert Get(before, p) == PartAt(m, src, dst, left, p);
  }

  /** If the whole directory fits, the next entry does. */
  lemma NextFits(m: Nodes, before: Nodes, src: Path, dst: Path, left: set<Name>, name: Name, maxDepth: nat)
    requires DirFits(m, src, dst, maxDepth) && Copying(m, before, src, dst, left) && Tree(before) && name in left
    ensures EntryFits(before, src + [name], dst + [name], maxDepth)
  {
    var from, to := src + [name], dst + [name];
    assert Parent(to) == dst;
    if IsDirAt(before, from) {
      ChildrenApart(src, dst, name);
      forall p | Within(p, from) && IsDirAt(before, p) ensures |to| + |p| - |from| <= maxDepth {
        ChildStays(m, before, src, dst, left, name, p);
        assert Get(before, p) == Get(m, p) && IsDirAt(m, p);
      }
      assert DepthFits(before, from, to, maxDepth);
      assert Within(from, from);
      CanMakeIfThere(before, dst, maxDepth);
      CanMakeStep(before, to, maxDepth);
    }
  }

  /** The directories copied so far, those outside `left`, are not too deep. */
  ghost predicate DepthSoFar(m: Nodes, src: Path, dst: Path, left: set<Name>, maxDepth: nat) {
    !Within(dst, src) ==>
      forall p :: Within(p, src) && IsDirAt(m, p) && (p == src || p[|src|] !in left) ==> |dst| + |p| - |src| <= maxDepth
  }

  lemma DepthAtFirst(m: Nodes, src: Path, dst: Path, maxDepth: nat)
    requires Tree(m) && |dst| <= maxDepth
    ensures DepthSoFar(m, src, dst, Children(m, src), maxDepth)
  {
    forall p | Within(p, src) && IsDirAt(m, p) && p != src ensures p[|src|] in Children(m, src) {
      NotInAnyChild(m, src, p);
    }
  }

  lemma DepthGoesOn(m: Nodes, before: Nodes, src: Path, dst: Path, left: set<Name>, name: Name, maxDepth: nat)
    requires Tree(m) && Copying(m, before, src, dst, left) && name in left && DepthSoFar(m, src, dst, left, maxDepth)
    requires EntryFits(before, src + [name], dst + [name], maxDepth)
    ensures DepthSoFar(m, src, dst, left - {name}, maxDepth)
  {
    var from := src + [name];
    if !Within(dst, src) {
      forall p | Within(p, src) && IsDirAt(m, p) && p != src && p[|src|] == name
        ensures |dst| + |p| - |src| <= maxDepth
      {
        assert p[..|from|] == from;
        ChildStays(m, before, src, dst, left, name, p);
        ChildStays(m, before, src, dst, left, name, from);
        if !IsDirAt(m, from) && p != from {
          NothingBelow(m, p, from);
        }
        assert IsDirAt(before, p);
      }
    }
  }

  class FileSystem {
    const dest: (Path, string) -> Path  // where a link with this text leads
    const maxLinks: nat
    const maxDepth: nat                 // the longest path that the system makes a directory at
    const reliable: bool                // operations fail only for a reason that is modelled
    var nodes: Nodes

    constructor (dest: (Path, string) -> Path, maxLinks: nat, maxDepth: nat, reliable: bool, nodes: Nodes)
      ensures this.dest == dest && this.maxLinks == maxLinks && this.maxDepth == maxDepth
      ensures this.reliable == reliable && this.nodes == nodes
    {
      this.dest, this.maxLinks, this.maxDepth := dest, maxLinks, maxDepth;
      this.reliable, this.nodes := reliable, nodes;
    }

    /** The operating system reports an error for a reason that is not modelled. */
    method Fault() returns (fault: bool)
      ensures fault ==> !reliable
    {
      fault := *;
      fault := fault && !reliable;
    }

    /** Follows the links at the end of a path; the path found need not exist. */
    function Follow(m: Nodes, p: Path, links: nat): (q: Option<Path>)
      ensures q.Some? && q.value in m ==> !m[q.value].Link?
      decreases links
    {
      if p in m && m[p].Link? then
        if links == 0 then None else Follow(m, dest(p, m[p].text), links - 1)
      else Some(p)
    }

    /** os.MkdirAll on a path without links: an existing directory is fine, anything else in the way is not. */
    method MkdirAll(p: Path) returns (ok: bool)
      requires Tree(nodes)
      modifies this`nodes
      ensures Tree(nodes) && Made(old(nodes), nodes, p)
      ensures ok ==> IsDirAt(nodes, p) && CanMake(old(nodes), p, maxDepth)
      ensures reliable ==> (ok <==> CanMake(old(nodes), p, maxDepth))
      ensures p in old(nodes) ==> nodes == old(nodes)
      decreases |p|
    {
      if p in nodes {
        CanMakeIfThere(nodes, p, maxDepth);
        return nodes[p].Dir?;
      }
      CanMakeStep(nodes, p, maxDepth);
      ok := MkdirAll(Parent(p));
      var fault := Fault();
      if !ok || fault || |p| > maxDepth {
        MadeMore(old(nodes), nodes, p);
        return false;
      }
      assert Get(nodes, p) == Get(old(nodes), p) || Within(Parent(p), p);
      MadeOneMore(old(nodes), nodes, p);
      nodes := nodes[p := Dir];
    }

    /** cloneSymlink: the text is kept, so a relative link leads elsewhere; an existing destination is an error. */
    method CloneSymlink(src: Path, dst: Path) returns (ok: bool)
      requires Tree(nodes) && src in nodes && nodes[src].Link?
      modifies this`nodes
      ensures Tree(nodes)
      ensures ok ==> dst !in old(nodes) && CanHold(old(nodes), dst)
      ensures reliable ==> (ok <==> dst !in old(nodes) && CanHold(old(nodes), dst))
      ensures nodes == if ok then old(nodes)[dst := old(nodes)[src]] else old(nodes)
    {
      var fault := Fault();
      if fault || dst in nodes || dst == [] || !IsDirAt(nodes, Parent(dst)) {
        return false;
      }
      PutKeepsTree(nodes, dst, nodes[src]);
      nodes := nodes[dst := nodes[src]];
      return true;
    }

    /** os.Create: makes or truncates the file that the path leads to. */
    method Create(dst: Path) returns (out: Option<Path>)
      requires Tree(nodes)
      modifies this`nodes
      ensures Tree(nodes)
      ensures out.None? ==> nodes == old(nodes)
      ensures reliable ==>
        (out.Some? <==> var q := Follow(old(nodes), dst, maxLinks); q.Some? && CanHold(old(nodes), q.value))
      ensures out.Some? ==>
        && out == Follow(old(nodes), dst, maxLinks) && CanHold(old(nodes), out.value)
        && out.value in nodes && nodes[out.value].File? && nodes[out.value].data == []
        && nodes == old(nodes)[out.value := nodes[out.value]]
        && (out.value in old(nodes) ==> nodes[out.value].mode == old(nodes)[out.value].mode)
    {
      var q := Follow(nodes, dst, maxLinks);
      var fault := Fault();
      if fault || q.None? || !CanHold(nodes, q.value) {
        return None;
      }
      var file := File([], if q.value in nodes then nodes[q.value].mode else 438);
      PutKeepsTree(nodes, q.value, file);
      nodes := nodes[q.value := file];
      return q;
    }

    /** io.Copy and os.Chmod. */
    method WriteOut(src: Path, out: Path) returns (ok: bool)
      requires Tree(nodes) && CanHold(nodes, out)
      requires src in nodes && nodes[src].File? && out in nodes && nodes[out].File?
      modifies this`nodes
      ensures Tree(nodes) && SameBut(old(nodes), nodes, Some(out))
      ensures reliable ==> ok
      ensures ok ==> nodes == old(nodes)[out := old(nodes)[src]]
    {
      var file := File(nodes[src].data, nodes[out].mode);
      var mode := nodes[src].mode;
      PutKeepsTree(nodes, out, file);
      PutKeepsTree(nodes, out, file.(mode := mode));
      ghost var m := nodes;
      nodes := nodes[out := file];
      var fault := Fault();
      if fault {
        return false;
      }
      nodes := nodes[out := file.(mode := mode)];
      assert nodes == m[out := file.(mode := mode)];
      return true;
    }

    /** What copyFile can copy: a link to a free place, and a file to wherever the destination leads. */
    predicate FileFits(m: Nodes, src: Path, dst: Path) {
      && src in m
      && match m[src]
         case Link(_) => dst !in m && CanHold(m, dst)
         case File(_, _) => var q := Follow(m, dst, maxLinks); q.Some? && CanHold(m, q.value)
         case Dir => false
    }

    /** copyFile: a link is cloned; otherwise data and mode go to wherever the destination leads. */
    method CopyFile(src: Path, dst: Path) returns (ok: bool)
      requires Tree(nodes)
      modifies this`nodes
      ensures Tree(nodes)
      ensures SameBut(old(nodes), nodes, Follow(old(nodes), dst, maxLinks))
      ensures !ok && nodes != old(nodes) ==>
        && src in old(nodes) && !old(nodes)[src].Link?
        && Follow(old(nodes), dst, maxLinks).Some? && CanHold(old(nodes), Follow(old(nodes), dst, maxLinks).value)
      ensures ok ==> FileFits(old(nodes), src, dst)
      ensures reliable ==> (ok <==> FileFits(old(nodes), src, dst))
      ensures ok && old(nodes)[src].Link? ==>
        nodes == old(nodes)[dst := old(nodes)[src]]
      ensures ok && old(nodes)[src].File? ==>
        nodes == Overwritten(old(nodes), src, Follow(old(nodes), dst, maxLinks).value)
    {
      var fault := Fault();
      if fault || src !in nodes {
        return false;
      }
      if nodes[src].Link? {
        ok := CloneSymlink(src, dst);
        return;
      }
      ghost var m := nodes;
      var out := Create(dst);
      fault := Fault();
      if out.None? || fault || nodes[src].Dir? {
        return false;
      }
      assert nodes[src] == if out.value == src then m[src].(data := []) else m[src];
      ok := WriteOut(src, out.value);
    }

    /** How deep a directory that is copied into itself can still nest. */
    function DepthLeft(src: Path, dst: Path): nat {
      if Within(dst, src) && |dst| <= maxDepth then maxDepth + 1 - |dst| else 0
    }

    /** One entry of CopyDir's loop. */
    method CopyEntry(src: Path, dst: Path, name: Name) returns (ok: bool)
      requires Tree(nodes) && src + [name] in nodes && dst + [name] !in nodes
      modifies this`nodes
      ensures Tree(nodes) && OnlyAt(old(nodes), nodes, dst + [name])
      ensures ok ==> Copied(old(nodes), nodes, src + [name], dst + [name])
      ensures ok ==> EntryFits(old(nodes), src + [name], dst + [name], maxDepth)
      ensures reliable ==> (ok <==> EntryFits(old(nodes), src + [name], dst + [name], maxDepth))
      decreases Bit(Within(dst + [name], src + [name])), DepthLeft(src + [name], dst + [name]),
                Below(nodes, src + [name]), 1
    {
      var from, to := src + [name], dst + [name];
      ghost var before := nodes;
      if nodes[from].Dir? {
        ok := CopyDir(from, to);
      } else {
        ok := CopyFile(from, to);
        OnlyOne(before, nodes, to);
        if ok {
          OneCopied(before, from, to);
        }
      }
    }

    lemma DepthBegins(m: Nodes, m': Nodes, src: Path, dst: Path)
      requires Tree(m) && |dst| <= maxDepth && Copying(m, m', src, dst, Children(m', src))
      ensures DepthSoFar(m, src, dst, Children(m', src), maxDepth)
    {
      if !Within(dst, src) {
        SameChildren(m, m', src, dst, Children(m', src));
        DepthAtFirst(m, src, dst, maxDepth);
      }
    }

    /**
     CopyDir; the entries come in any order. A directory copied into itself nests until a path is too long, and
     fails.
     */
    method CopyDir(src: Path, dst: Path) returns (ok: bool)
      requires Tree(nodes)
      modifies this`nodes
      ensures Tree(nodes)
      ensures !IsDirAt(old(nodes), src) ==> nodes == old(nodes)
      ensures ok ==> DirFits(old(nodes), src, dst, maxDepth) && Copied(old(nodes), nodes, src, dst)
      ensures reliable ==> (ok <==> DirFits(old(nodes), src, dst, maxDepth))
      ensures OnlyAt(old(nodes), nodes, dst)
      ensures dst in old(nodes) ==> nodes == old(nodes)
      decreases Bit(Within(dst, src)), DepthLeft(src, dst), Below(nodes, src), 0
    {
      ghost var m := nodes;
      if !IsDirAt(nodes, src) {
        return false;
      }
      var q := Follow(nodes, dst, maxLinks);
      if q.None? || q.value in nodes {
        return false;
      }
      ok := MkdirAll(dst);  // a link that leads nowhere is in its way
      CopyOnlyAt(m, nodes, src, dst);
      var fault := Fault();
      if !ok || fault {
        return false;
      }
      if Within(src, dst) {
        AboveIsDir(m, src, dst);
      }
      var left := Children(nodes, src);
      BeginCopy(m, nodes, src, dst);
      DepthBegins(m, nodes, src, dst);
      while left != {}
        invariant Tree(nodes) && OnlyAt(m, nodes, dst) && Copying(m, nodes, src, dst, left)
        invariant DepthSoFar(m, src, dst, left, maxDepth)
        decreases |left|
      {
        var name :| name in left;
        ghost var before := nodes;
        EntrySmaller(m, nodes, src, dst, left, name);
        if DirFits(m, src, dst, maxDepth) {
          NextFits(m, nodes, src, dst, left, name, maxDepth);
        }
        ok := CopyEntry(src, dst, name);
        OnlyAtChain(m, before, nodes, dst, name);
        if !ok {
          return false;
        }
        if Within(dst, src) {
          NotTheWay(before, src, dst, name);
        } else {
          PartMore(m, before, nodes, src, dst, left, name);
        }
        CopyOn(m, before, nodes, src, dst, left, name);
        DepthGoesOn(m, before, src, dst, left, name, maxDepth);
        left := left - {name};
      }
      PartLast(m, nodes, src, dst);
      return true;
    }

    /** os.RemoveAll; on a failure some of the tree is left. */
    method RemoveAll(p: Path) returns (ok: bool)
      modifies this`nodes
      ensures forall q :: !Within(q, p) ==> Get(nodes, q) == Get(old(nodes), q)
      ensures reliable ==> ok
      ensures ok ==> forall q :: Within(q, p) ==> q !in nodes
      ensures forall q :: q in nodes ==> q in old(nodes) && nodes[q] == old(nodes)[q]
    {
      var fault := Fault();
      var gone: set<Path> := *;
      nodes := map q | q in nodes && (!Within(q, p) || (fault && q !in gone)) :: nodes[q];
      return !fault;
    }

    /** What renameByCopy can move: it takes a link to a directory for a directory, which it then is not. */
    ghost predicate Fits(m: Nodes, src: Path, dst: Path) {
      var q := Follow(m, src, maxLinks);
      if q.Some? && IsDirAt(m, q.value) then DirFits(m, src, dst, maxDepth) else FileFits(m, src, dst)
    }

    /**
     renameByCopy. It succeeds on what fits and only there; a success is an atomic move exactly when the move is safe,
     and then a failure leaves the source intact or the destination complete.
     */
    method RenameByCopy(src: Path, dst: Path) returns (o: Outcome)
      requires Tree(nodes)
      modifies this`nodes
      ensures IntoItself(old(nodes), src, dst) ==> o.CopyFailed? && OnlyAt(old(nodes), nodes, dst)
      ensures o.Done? ==> Fits(old(nodes), src, dst)
      ensures reliable ==> o == if Fits(old(nodes), src, dst) then Done else CopyFailed
      ensures o.Done? ==> (Moved(old(nodes), nodes, src, dst) <==> Safe(old(nodes), src, dst))
      ensures o.Done? && old(nodes)[src].File? ==>
        LeavesFile(old(nodes), nodes, src, Follow(old(nodes), dst, maxLinks).value)
      ensures o.CopyFailed? && Safe(old(nodes), src, dst) ==>
        OnlyAt(old(nodes), nodes, dst) && forall p :: Within(p, src) ==> Get(nodes, p) == Get(old(nodes), p)
      ensures o.RemoveFailed? && Safe(old(nodes), src, dst) ==>
        forall p :: !Within(p, src) ==> Get(nodes, p) == MovedAt(old(nodes), src, dst, p)
    {
      ghost var m := nodes;
      ghost var to := Follow(nodes, dst, maxLinks);
      var copied: bool;
      var q := Follow(nodes, src, maxLinks);
      if q.Some? && IsDirAt(nodes, q.value) {
        copied := CopyDir(src, dst);
      } else {
        copied := CopyFile(src, dst);
      }
      if !copied {
        if Safe(m, src, dst) {
          SourceIsIntact(m, nodes, src, dst, to);
        }
        return CopyFailed;
      }
      CopyIsDone(m, nodes, src, dst, to);
      ghost var c := nodes;
      var removed := RemoveAll(src);
      if Safe(m, src, dst) {
        MoveDone(m, c, nodes, src, dst, removed);
      } else if removed {
        UnsafeIsNoMove(m, nodes, src, dst);
      }
      return if removed then Done else RemoveFailed;
    }
  }

  // ----- what following links means -----

  predicate LinksTo(fs: FileSystem, m: Nodes, p: Path, q: Path) {
    p in m && m[p].Link? && q == fs.dest(p, m[p].text)
  }

  /** Each path but the last is a link to the next; the last, `q`, is no link. */
  ghost predicate Chain(fs: FileSystem, m: Nodes, chain: seq<Path>, p: Path, q: Path) {
    && chain != [] && chain[0] == p && chain[|chain|-1] == q
    && (forall i :: 0 <= i < |chain| - 1 ==> LinksTo(fs, m, chain[i], chain[i+1]))
    && (q in m ==> !m[q].Link?)
  }

  lemma ChainTail(fs: FileSystem, m: Nodes, chain: seq<Path>, p: Path, q: Path)
    requires Chain(fs, m, chain, p, q) && |chain| > 1
    ensures LinksTo(fs, m, p, chain[1]) && Chain(fs, m, chain[1..], chain[1], q)
  {
  }

  lemma ChainHead(fs: FileSystem, m: Nodes, rest: seq<Path>, p: Path, next: Path, q: Path)
    requires LinksTo(fs, m, p, next) && Chain(fs, m, rest, next, q)
    ensures Chain(fs, m, [p] + rest, p, q)
  {
  }

  lemma {:induction false} ChainIsFollowed(fs: FileSystem, m: Nodes, chain: seq<Path>, p: Path, q: Path, links: nat)
    requires Chain(fs, m, chain, p, q) && |chain| <= links + 1
    ensures fs.Follow(m, p, links) == Some(q)
    decreases links
  {
    if |chain| > 1 {
      ChainTail(fs, m, chain, p, q);
      ChainIsFollowed(fs, m, chain[1..], chain[1], q, links - 1);
    }
  }

  lemma {:induction false} FollowHasChain(fs: FileSystem, m: Nodes, p: Path, q: Path, links: nat) returns (chain: seq<Path>)
    requires fs.Follow(m, p, links) == Some(q)
    ensures Chain(fs, m, chain, p, q) && |chain| <= links + 1
    decreases links
  {
    if p in m && m[p].Link? {
      var next := fs.dest(p, m[p].text);
      chain := FollowHasChain(fs, m, next, q, links - 1);
      ChainHead(fs, m, chain, p, next, q);
      chain := [p] + chain;
    } else {
      chain := [p];
    }
  }

  /** A path leads to the end of its chain of links, if the chain has no more links than allowed. */
  lemma FollowIff(fs: FileSystem, m: Nodes, p: Path, links: nat, q: Path)
    ensures fs.Follow(m, p, links) == Some(q) <==> exists chain :: Chain(fs, m, chain, p, q) && |chain| <= links + 1
  {
    if fs.Follow(m, p, links) == Some(q) {
      var chain := FollowHasChain(fs, m, p, q, links);
    }
    if chain :| Chain(fs, m, chain, p, q) && |chain| <= links + 1 {
      ChainIsFollowed(fs, m, chain, p, q, links);
    }
  }

  // ----- where the outcome is a success but not a move, or a failure without need -----

  /** A file is moved onto itself: done, and the file is gone. */
  method MoveOntoItself(fs: FileSystem, src: Path) returns (o: Outcome)
    requires Tree(fs.nodes) && src in fs.nodes && fs.nodes[src].File? && fs.reliable
    modifies fs
    ensures o.Done? && src !in fs.nodes
    ensures forall p :: !Within(p, src) ==> Get(fs.nodes, p) == Get(old(fs.nodes), p)
  {
    ghost var m := fs.nodes;
    assert fs.Follow(m, src, fs.maxLinks) == Some(src);
    assert CanHold(m, src) && fs.FileFits(m, src, src);
    o := fs.RenameByCopy(src, src);
    assert LeavesFile(m, fs.nodes, src, src) && Within(src, src);
  }

  lemma FileAndLink(m: Nodes, src: Path, dst: Path)
    requires Tree(m) && src in m && m[src].File? && dst in m && m[dst].Link?
    ensures !Within(dst, src)
  {
    if Within(dst, src) {
      NothingBelow(m, dst, src);
    }
  }

  lemma FileIsAt(m: Nodes, m': Nodes, src: Path, to: Path, dst: Path)
    requires src in m && LeavesFile(m, m', src, to) && !Within(to, src) && !Within(dst, src) && dst != to
    ensures src !in m' && Get(m', to) == Get(m, src) && Get(m', dst) == Get(m, dst)
  {
    assert Within(src, src) && Get(m', src) == None;
  }

  /** A file is moved to where a link is: done, and the file has gone to where the link leads. */
  method MoveThroughLink(fs: FileSystem, src: Path, dst: Path, to: Path) returns (o: Outcome)
    requires Tree(fs.nodes) && src in fs.nodes && fs.nodes[src].File? && fs.reliable
    requires dst in fs.nodes && fs.nodes[dst].Link? && fs.Follow(fs.nodes, dst, fs.maxLinks) == Some(to)
    requires CanHold(fs.nodes, to) && !Within(to, src)
    modifies fs
    ensures o.Done? && src !in fs.nodes
    ensures Get(fs.nodes, dst) == Get(old(fs.nodes), dst) && Get(fs.nodes, to) == Get(old(fs.nodes), src)
  {
    ghost var m := fs.nodes;
    FileAndLink(m, src, dst);
    assert fs.Follow(m, src, fs.maxLinks) == Some(src) && fs.FileFits(m, src, dst);
    o := fs.RenameByCopy(src, dst);
    FileIsAt(m, fs.nodes, src, to, dst);
  }

  /** A link to a directory cannot be moved at all. */
  method MoveLinkToDirectory(fs: FileSystem, src: Path, dst: Path) returns (o: Outcome)
    requires Tree(fs.nodes) && src in fs.nodes && fs.nodes[src].Link? && fs.reliable
    requires exists d :: fs.Follow(fs.nodes, src, fs.maxLinks) == Some(d) && IsDirAt(fs.nodes, d)
    modifies fs
    ensures o.CopyFailed?
  {
    o := fs.RenameByCopy(src, dst);
  }

  /** Moving to a free place in an existing directory and back again restores everything. */
  lemma MovedBack(m: Nodes, m': Nodes, m'': Nodes, src: Path, dst: Path)
    requires Tree(m) && src in m && dst !in m && dst != [] && IsDirAt(m, Parent(dst)) && !Within(dst, src)
    requires Moved(m, m', src, dst) && Moved(m', m'', dst, src)
    ensures m'' == m
  {
    if Within(src, dst) {
      AboveIsDir(m, src, dst);
    }
    forall p ensures Get(m'', p) == Get(m, p) {
      assert Get(m'', p) == MovedAt(m', dst, src, p);
      assert Get(m', p) == MovedAt(m, src, dst, p);
      if Within(p, src) {
        var q := Rebase(p, src, dst);
        assert Within(q, dst) && Rebase(q, dst, src) == p;
        assert Get(m', q) == MovedAt(m, src, dst, q);
      } else if Within(p, dst) {
        if p != dst {
          NothingBelow(m, p, dst);
        }
      } else {
        StaysPut(m, src, dst, p);
      }
    }
    assert forall p :: p in m <==> Get(m, p).Some?;
    assert forall p :: p in m'' <==> Get(m'', p).Some?;
    assert forall p :: p in m ==> Get(m, p) == Some(m[p]) && Get(m'', p) == Some(m''[p]);
  }

  /** Outside both trees a move changes nothing, if the destination's directory is there. */
  lemma StaysPut(m: Nodes, src: Path, dst: Path, p: Path)
    requires Tree(m) && src in m && dst != [] && IsDirAt(m, Parent(dst)) && !Within(p, src) && !Within(p, dst)
    ensures MovedAt(m, src, dst, p) == Get(m, p)
    ensures Within(src, p) ==> p in m
  {
    if Within(src, p) {
      AboveIsDir(m, src, p);
    }
    if Within(dst, p) {
      WithinParent(dst, p);
      if p != Parent(dst) {
        AboveIsDir(m, Parent(dst), p);
      }
    }
  }

  /** A move keeps the file system a tree. */
  lemma MovedIsTree(m: Nodes, m': Nodes, src: Path, dst: Path)
    requires Tree(m) && src in m && !Within(dst, src) && !Within(src, dst) && Moved(m, m', src, dst)
    requires forall q :: q in m && Within(dst, q) && q != dst ==> IsDirAt(m, q)
    ensures Tree(m')
  {
    assert dst != [] by {
      assert Within(src, []);
    }
    assert src != [] by {
      assert Within(dst, []);
    }
    assert Get(m', []) == MovedAt(m, src, dst, []);
    forall p | p in m' && p != [] ensures IsDirAt(m', Parent(p)) {
      assert Get(m', p) == MovedAt(m, src, dst, p);
      assert Get(m', Parent(p)) == MovedAt(m, src, dst, Parent(p));
      WithinParent(p, dst);
      WithinParent(p, src);
      if Within(p, dst) && p != dst {
        var q := Rebase(p, dst, src);
        assert Parent(q) == Rebase(Parent(p), dst, src);
      } else if Within(dst, p) {
        WithinChain(dst, p, Parent(p));
        if Within(Parent(p), src) {
          WithinChain(dst, Parent(p), src);
        }
      } else {
        assert p in m && IsDirAt(m, Parent(p));
      }
    }
  }
}
