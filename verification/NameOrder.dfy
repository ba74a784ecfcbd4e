/** Byte-wise order on names, component-wise order on paths, and sorted directory listings. */
module NameOrder {
  import opened FileTree
  import opened Lexical

  predicate PathLess(p: Path, q: Path) {
    q != [] && (p == [] || Less(p[0], q[0]) || (p[0] == q[0] && PathLess(p[1..], q[1..])))
  }

  /** The first path ends, or has the lower name, at the first place where the two differ. */
  predicate LowerAtName(p: Path, q: Path, i: nat) {
    i <= |p| && i < |q| && p[..i] == q[..i] && (i == |p| || Less(p[i], q[i]))
  }

  lemma LowerAtNameTail(p: Path, q: Path, i: nat)
    requires p != [] && q != [] && p[0] == q[0]
    ensures LowerAtName(p[1..], q[1..], i) <==> LowerAtName(p, q, i + 1)
  {
    if i + 1 <= |p| && i + 1 <= |q| {
      assert p[..i+1] == [p[0]] + p[1..][..i] && q[..i+1] == [q[0]] + q[1..][..i];
      assert p[1..][..i] == p[..i+1][1..] && q[1..][..i] == q[..i+1][1..];
    }
  }

  lemma {:induction false} PathLessIff(p: Path, q: Path)
    ensures PathLess(p, q) <==> exists i: nat :: LowerAtName(p, q, i)
  {
    if p != [] && q != [] && p[0] == q[0] {
      LessIrreflexive(p[0]);
      PathLessIff(p[1..], q[1..]);
      if i: nat :| LowerAtName(p[1..], q[1..], i) {
        LowerAtNameTail(p, q, i);
      }
      if i: nat :| LowerAtName(p, q, i) {
        LowerAtNameTail(p, q, i - 1);
      }
    } else {
      assert q != [] && (p == [] || Less(p[0], q[0])) ==> LowerAtName(p, q, 0);
      forall i: nat ensures LowerAtName(p, q, i) ==> i == 0 {
        if 0 < i <= |p| && i <= |q| {
          assert p[..i][0] == p[0] && q[..i][0] == q[0];
        }
      }
    }
  }

  lemma {:induction false} PathLessIrreflexive(p: Path)
    ensures !PathLess(p, p)
  {
    if p != [] {
      LessIrreflexive(p[0]);
      PathLessIrreflexive(p[1..]);
    }
  }

  /** A path comes before everything below it. */
  lemma {:induction false} PrefixFirst(p: Path, q: Path)
    requires p <= q && p != q
    ensures PathLess(p, q)
  {
    if p != [] {
      assert p[1..] <= q[1..] && p == [p[0]] + p[1..] && q == [q[0]] + q[1..];
      PrefixFirst(p[1..], q[1..]);
    }
  }

  /** Everything below one entry of a directory comes before everything below a later one. */
  lemma {:induction false} SiblingsOrdered(d: Path, a: Name, b: Name, p: Path, q: Path)
    requires d + [a] <= p && d + [b] <= q && Less(a, b)
    ensures PathLess(p, q)
  {
    if d == [] {
      assert p[0] == ([] + [a])[0] && q[0] == ([] + [b])[0];
    } else {
      assert (d + [a])[0] == d[0] && (d + [b])[0] == d[0];
      assert (d + [a])[1..] == d[1..] + [a] && (d + [b])[1..] == d[1..] + [b];
      SiblingsOrdered(d[1..], a, b, p[1..], q[1..]);
    }
  }

  ghost predicate Sorted(names: seq<Name>) {
    forall i, j :: 0 <= i < j < |names| ==> Less(names[i], names[j])
  }

  /** The listing of a directory: its names, each once, in order. */
  ghost predicate ListingOf(names: seq<Name>, of: set<Name>) {
    Sorted(names) && forall n :: n in names <==> n in of
  }

  /** There is at most one listing, whatever order the names arrive in. */
  lemma {:induction false} ListingUnique(xs: seq<Name>, ys: seq<Name>, of: set<Name>)
    requires ListingOf(xs, of) && ListingOf(ys, of)
    ensures xs == ys
    decreases |xs|
  {
    EmptyListing(xs, of);
    EmptyListing(ys, of);
    if xs != [] {
      assert xs[0] in of;
      assert ys[0] in of;
      if xs[0] != ys[0] {
        var i :| 0 <= i < |xs| && xs[i] == ys[0];
        var j :| 0 <= j < |ys| && ys[j] == xs[0];
        LessTransitive(xs[0], xs[i], xs[0]);
        LessIrreflexive(xs[0]);
      }
      forall n ensures (n in xs[1..] <==> n in of - {xs[0]}) && (n in ys[1..] <==> n in of - {xs[0]}) {
        TailListing(xs, n);
        TailListing(ys, n);
      }
      ListingUnique(xs[1..], ys[1..], of - {xs[0]});
      assert xs == [xs[0]] + xs[1..] && ys == [ys[0]] + ys[1..];
    }
  }

  lemma EmptyListing(xs: seq<Name>, of: set<Name>)
    requires ListingOf(xs, of)
    ensures xs == [] <==> of == {}
  {
    if xs != [] { assert xs[0] in xs; }
    if n :| n in of { assert n in xs; }
  }

  lemma TailListing(xs: seq<Name>, n: Name)
    requires xs != [] && Sorted(xs)
    ensures n in xs[1..] <==> n in xs && n != xs[0]
  {
    if n in xs[1..] {
      var i :| 0 <= i < |xs[1..]| && xs[1..][i] == n;
      assert Less(xs[0], xs[i+1]);
      LessIrreflexive(n);
    }
    if n in xs && n != xs[0] {
      var i :| 0 <= i < |xs| && xs[i] == n;
      assert xs[1..][i-1] == n;
    }
  }

  /** Puts a new name in its place. */
  function Insert(names: seq<Name>, n: Name): seq<Name> {
    if names == [] || Less(n, names[0]) then [n] + names
    else [names[0]] + Insert(names[1..], n)
  }

  lemma {:induction false} InsertListing(names: seq<Name>, n: Name, of: set<Name>)
    requires ListingOf(names, of) && n !in of
    ensures ListingOf(Insert(names, n), of + {n})
    decreases |names|
  {
    if names == [] {
    } else if Less(n, names[0]) {
      forall i | 0 <= i < |names| ensures Less(n, names[i]) {
        if i > 0 { LessTransitive(n, names[0], names[i]); }
      }
    } else {
      assert names[0] in of;
      LessTotal(n, names[0]);
      var rest := names[1..];
      forall m ensures m in rest <==> m in of - {names[0]} { TailListing(names, m); }
      InsertListing(rest, n, of - {names[0]});
      var more := Insert(rest, n);
      forall i | 0 <= i < |more| ensures Less(names[0], more[i]) {
        assert more[i] in (of - {names[0]}) + {n};
        if more[i] != n { var j :| 0 <= j < |names| && names[j] == more[i]; }
      }
      forall m ensures m in Insert(names, n) <==> m in of + {n} {
        assert m in Insert(names, n) <==> m == names[0] || m in more;
      }
    }
  }

  /** readDirNames: reads the names in any order and sorts them. */
  method ReadDirNames(entries: map<Name, Node>) returns (names: seq<Name>)
    ensures ListingOf(names, entries.Keys)
  {
    names := [];
    var left := entries.Keys;
    while left != {}
      invariant left <= entries.Keys
      invariant ListingOf(names, entries.Keys - left)
      decreases |left|
    {
      var n :| n in left;
      InsertListing(names, n, entries.Keys - left);
      names := Insert(names, n);
      left := left - {n};
      assert entries.Keys - left == (entries.Keys - left - {n}) + {n};
    }
  }

  lemma {:induction false} ListingExists(of: set<Name>)
    ensures exists names :: ListingOf(names, of)
  {
    if of == {} {
      assert ListingOf([], of);
    } else {
      var n :| n in of;
      ListingExists(of - {n});
      var names :| ListingOf(names, of - {n});
      InsertListing(names, n, of - {n});
      assert of - {n} + {n} == of;
    }
  }

  ghost function Listing(of: set<Name>): (names: seq<Name>)
    ensures ListingOf(names, of)
  {
    ListingExists(of);
    var ns :| ListingOf(ns, of);
    ns
  }
}
