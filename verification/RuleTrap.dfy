/**
 A chart on which a harmful rule makes the load inexact: directories that come first use up the leading slashes, and
 the path that is then left leads out of the chart.
 */
module RuleTrap {
  import opened Wrappers
  import opened FileTree
  import opened Lexical
  import opened NameOrder
  import opened SymPath
  import opened SecureJoin
  import opened SecureLoader
  import opened ChartNames
  import opened UnstableRules
  import IgnoreRules

  const Empty: Node := Dir(map[])
  const Outside: Node := Link(true, [Down("o")])

  /** A name of control characters, which comes before all names of others. */
  function Early(i: nat): Name {
    if i == 0 then "" else ['\U{01}'] + Early(i - 1)
  }

  function EarlyNames(n: nat): (names: seq<Name>)
    ensures |names| == n
  {
    seq(n, i requires 0 <= i => Early(i + 1))
  }

  function EarlyDirs(n: nat): map<Name, Node> {
    if n == 0 then map[] else EarlyDirs(n - 1)[Early(n) := Empty]
  }

  /** Directories along the path, from component `j` on, and a link at its end. */
  function Nest(rel: Path, j: nat): Node
    requires j <= |rel|
    decreases |rel| - j
  {
    if j == |rel| then Outside else Dir(map[rel[j] := Nest(rel, j + 1)])
  }

  function Chart(rel: Path, n: nat): Node
    requires rel != []
  {
    Dir(EarlyDirs(n)[rel[0] := Nest(rel, 1)])
  }

  function Trap(rel: Path, n: nat): World
    requires rel != []
  {
    World(Dir(map["o" := Empty, "r" := Chart(rel, n)]), EVAL_LINKS)
  }

  /** No control characters. */
  predicate Printable(s: string) {
    forall c :: c in s ==> c > '\U{01}'
  }

  // ----- the names and nodes of the trap -----

  lemma {:induction false} EarlyLess(i: nat, j: nat)
    requires i < j
    ensures Less(Early(i), Early(j))
  {
    if i > 0 {
      EarlyLess(i - 1, j - 1);
    }
  }

  lemma {:induction false} EarlyValid(i: nat)
    requires i > 0
    ensures ValidName(Early(i)) && Early(i)[0] == '\U{01}'
    ensures forall c :: c in Early(i) ==> c == '\U{01}'
  {
    assert Early(i) == ['\U{01}'] + Early(i - 1);
    if i > 1 {
      EarlyValid(i - 1);
    }
    assert Early(i)[0] != '.';
  }

  lemma {:induction false} EarlyEntries(n: nat, name: Name)
    ensures name in EarlyDirs(n) <==> exists i | 1 <= i <= n :: Early(i) == name
    ensures name in EarlyDirs(n) ==> EarlyDirs(n)[name] == Empty
  {
    if n > 0 {
      EarlyEntries(n - 1, name);
      if i: nat :| 1 <= i <= n && Early(i) == name {
        assert i == n || (1 <= i <= n - 1 && Early(i) == name);
      }
      if i: nat :| 1 <= i <= n - 1 && Early(i) == name {
        assert 1 <= i <= n && Early(i) == name;
      }
      assert 1 <= n <= n && Early(n) in EarlyDirs(n);
    }
  }

  predicate Trapped(rel: Path) {
    rel != [] && ValidPath(rel) && Printable(rel[0])
  }

  lemma FirstIsLate(rel: Path, i: nat)
    requires Trapped(rel) && i > 0
    ensures Less(Early(i), rel[0]) && Early(i) != rel[0]
  {
    EarlyValid(i);
    assert rel[0] in rel;
    assert rel[0][0] in rel[0];
  }

  lemma TrapListing(rel: Path, n: nat)
    requires Trapped(rel)
    ensures Listing(Chart(rel, n).entries.Keys) == EarlyNames(n) + [rel[0]]
  {
    var names, keys := EarlyNames(n) + [rel[0]], Chart(rel, n).entries.Keys;
    forall i, j | 0 <= i < j < |names| ensures Less(names[i], names[j]) {
      if j < n { EarlyLess(i + 1, j + 1); } else { FirstIsLate(rel, i + 1); }
    }
    forall name ensures name in names <==> name in keys {
      EarlyEntries(n, name);
      if i :| 1 <= i <= n && Early(i) == name { assert names[i - 1] == name; }
      if name in names && name != rel[0] {
        var i :| 0 <= i < n && names[i] == name;
        assert Early(i + 1) == name;
      }
      assert names[n] == rel[0];
    }
    ListingUnique(Listing(keys), names, keys);
  }

  /** The directory of `rel[..j]`, or the link at its end. */
  function Inside(rel: Path, j: nat): Path
    requires j <= |rel|
  {
    ["r"] + rel[..j]
  }

  lemma InsideSnoc(rel: Path, j: nat)
    requires j < |rel|
    ensures Inside(rel, j + 1) == Inside(rel, j) + [rel[j]]
    ensures Parent(Inside(rel, j + 1)) == Inside(rel, j) && Last(Inside(rel, j + 1)) == rel[j]
  {
  }

  lemma TrapTop(rel: Path, n: nat)
    requires rel != []
    ensures var root := Trap(rel, n).root;
      Lookup(root, ["r"]) == Some(Chart(rel, n)) && Lookup(root, ["o"]) == Some(Empty)
  {
    assert Parent(["r"]) == [] == Parent(["o"]);
  }

  lemma {:induction false} TrapLookup(rel: Path, n: nat, j: nat)
    requires 0 < j <= |rel|
    ensures Lookup(Trap(rel, n).root, Inside(rel, j)) == Some(Nest(rel, j))
  {
    InsideSnoc(rel, j - 1);
    if j == 1 {
      TrapTop(rel, n);
      assert Inside(rel, 0) == ["r"];
    } else {
      TrapLookup(rel, n, j - 1);
    }
  }

  lemma EarlyLookup(rel: Path, n: nat, i: nat)
    requires Trapped(rel) && 0 < i <= n
    ensures Early(i) in Chart(rel, n).entries && Chart(rel, n).entries[Early(i)] == Empty
    ensures Lookup(Trap(rel, n).root, ["r", Early(i)]) == Some(Empty)
  {
    TrapTop(rel, n);
    FirstIsLate(rel, i);
    EarlyEntries(n, Early(i));
    assert Parent(["r", Early(i)]) == ["r"];
  }

  lemma {:induction false} NestNames(rel: Path, j: nat)
    requires j <= |rel| && ValidPath(rel)
    ensures TreeNames(Nest(rel, j))
    decreases |rel| - j
  {
    if j < |rel| {
      NestNames(rel, j + 1);
      assert rel[j] in rel;
    }
  }

  lemma TrapNames(rel: Path, n: nat)
    requires Trapped(rel)
    ensures TreeNames(Trap(rel, n).root) && NoLinks(Trap(rel, n).root, ["r"])
  {
    var entries := Chart(rel, n).entries;
    NestNames(rel, 1);
    assert rel[0] in rel;
    forall name | name in entries ensures ValidName(name) && TreeNames(entries[name]) {
      if name != rel[0] {
        EarlyEntries(n, name);
        var i :| 1 <= i <= n && Early(i) == name;
        EarlyValid(i);
      }
    }
    assert TreeNames(Chart(rel, n));
    TrapTop(rel, n);
    forall i | 0 <= i <= 1 ensures !LinkAt(Trap(rel, n).root, ["r"][..i]) {
      assert ["r"][..i] == if i == 0 then [] else ["r"];
    }
  }

  // ----- where the walk is -----

  lemma LinkFreeLocated(w: World, p: Path)
    requires w.root.Dir? && LinkFree(w.root, p)
    ensures Located(w, p, Lookup(w.root, p).value)
    ensures Lookup(w.root, p).value.Dir? ==> OpenDir(w, p) == Some(Lookup(w.root, p).value.entries)
  {
    LinkFreeResolves(w.root, p, MaxLinks(w));
    LinkFreeResolves(w.root, p, w.kernelLinks);
  }

  /** The link leads to the directory `o`. */
  lemma LinkLeadsOut(rel: Path, n: nat)
    requires rel != []
    ensures var w, p := Trap(rel, n), Inside(rel, |rel|);
      && EvalSymlinks(w, p) == Some(["o"]) && Lstat(w, ["o"]) == Some(Empty)
      && Located(w, p, Outside) && Located(w, p, Empty) && OpenDir(w, p) == Some(map[])
  {
    var w, p, d := Trap(rel, n), Inside(rel, |rel|), Inside(rel, |rel| - 1);
    InsideSnoc(rel, |rel| - 1);
    TrapLookup(rel, n, |rel|);
    TrapTop(rel, n);
    ParentIsDir(w.root, p);
    LinkFreeLocated(w, d);
    LstatLinkFree(w, ["o"]);
    OutSteps(w, d, rel[|rel| - 1], EVAL_LINKS);
  }

  lemma OutSteps(w: World, d: Path, n: Name, links: nat)
    requires LinkFree(w.root, d) && Lookup(w.root, d + [n]) == Some(Outside) && LinkFree(w.root, ["o"]) && links > 0
    ensures Resolve(w.root, [], Steps(d + [n]), links) == Some((["o"], links - 1))
  {
    Snoc(d, n);
    LinkFreeResolves(w.root, d, links);
    ResolveSnoc(w.root, [], Steps(d), n, links);
    Snoc([], "o");
    assert [Down("o")] + [Down(n)][1..] == [Down("o")] == Steps(["o"]);
    LinkFreeResolves(w.root, ["o"], links - 1);
  }

  // ----- the events -----

  lemma EmptyPreorder(w: World, path: Path, abs: Path, linked: bool)
    requires Located(w, path, Empty) && OpenDir(w, path) == Some(map[])
    ensures Preorder(w, path, abs, Empty, linked) == [VisitEvent(path, abs, Empty, linked)]
  {
    EmptyListing(Listing(Empty.entries.Keys), Empty.entries.Keys);
  }

  lemma EarlyPreorder(rel: Path, n: nat, i: nat)
    requires Trapped(rel) && 0 < i <= n
    ensures var w, p := Trap(rel, n), ["r", Early(i)];
      Located(w, p, Empty) && LinkFree(w.root, p) && Preorder(w, p, p, Empty, false) == [VisitEvent(p, p, Empty, false)]
  {
    EarlyLookup(rel, n, i);
    LinkFreeLocated(Trap(rel, n), ["r", Early(i)]);
    EmptyPreorder(Trap(rel, n), ["r", Early(i)], ["r", Early(i)], false);
  }

  function LastEvent(rel: Path): Event {
    VisitEvent(["r"] + rel, ["o"], Empty, true)
  }

  lemma LastPreorder(rel: Path, n: nat)
    requires rel != []
    ensures var w, p := Trap(rel, n), Inside(rel, |rel|);
      Located(w, p, Outside) && Preorder(w, p, p, Outside, false) == [LastEvent(rel)]
  {
    LinkLeadsOut(rel, n);
    var w, p := Trap(rel, n), Inside(rel, |rel|);
    LinkPreorder(w, p, p, Outside, false);
    EmptyPreorder(w, p, ["o"], true);
    assert rel[..|rel|] == rel;
  }

  lemma NestLocated(rel: Path, n: nat, j: nat)
    requires 0 < j <= |rel|
    ensures Located(Trap(rel, n), Inside(rel, j), Nest(rel, j))
    ensures j < |rel| ==> LinkFree(Trap(rel, n).root, Inside(rel, j)) && OpenDir(Trap(rel, n), Inside(rel, j)).Some?
  {
    if j == |rel| {
      LinkLeadsOut(rel, n);
    } else {
      TrapLookup(rel, n, j);
      LinkFreeLocated(Trap(rel, n), Inside(rel, j));
    }
  }

  /** A directory along the path, and then what is in it. */
  lemma NestPreorder(rel: Path, n: nat, j: nat)
    requires 0 < j < |rel|
    ensures var w, p, q := Trap(rel, n), Inside(rel, j), Inside(rel, j + 1);
      && Located(w, p, Nest(rel, j)) && Located(w, q, Nest(rel, j + 1))
      && Preorder(w, p, p, Nest(rel, j), false)
         == [VisitEvent(p, p, Nest(rel, j), false)] + Preorder(w, q, q, Nest(rel, j + 1), false)
  {
    var w, p, q := Trap(rel, n), Inside(rel, j), Inside(rel, j + 1);
    NestLocated(rel, n, j);
    NestLocated(rel, n, j + 1);
    InsideSnoc(rel, j);
    var info, name := Nest(rel, j), rel[j];
    assert info.entries.Keys == {name};
    ListingUnique(Listing({name}), [name], {name});
    assert [name][1..] == [];
    assert Children(w, p, p, info, [name]) == Preorder(w, q, q, Nest(rel, j + 1), false) + Children(w, p, p, info, []);
  }

  lemma ChartLocated(rel: Path, n: nat)
    requires Trapped(rel)
    ensures var w, info := Trap(rel, n), Chart(rel, n);
      && Located(w, ["r"], info) && OpenDir(w, ["r"]) == Some(info.entries)
      && StatDir(w, ["r"]) == Some(info)
      && (forall name :: name in EarlyNames(n) + [rel[0]] ==> name in info.entries)
  {
    TrapTop(rel, n);
    LinkFreeLocated(Trap(rel, n), ["r"]);
    LinkFreeResolves(Trap(rel, n).root, ["r"], EVAL_LINKS);
    TrapListing(rel, n);
    assert ListingOf(EarlyNames(n) + [rel[0]], Chart(rel, n).entries.Keys);
  }

  ghost function ChildEvents(rel: Path, n: nat, i: nat): seq<Event>
    requires Trapped(rel) && i <= n
  {
    ChartLocated(rel, n);
    Children(Trap(rel, n), ["r"], ["r"], Chart(rel, n), (EarlyNames(n) + [rel[0]])[i..])
  }

  lemma TrapEvents(rel: Path, n: nat)
    requires Trapped(rel)
    ensures LoadEvents(Trap(rel, n), ["r"]) == [VisitEvent(["r"], ["r"], Chart(rel, n), false)] + ChildEvents(rel, n, 0)
  {
    ChartLocated(rel, n);
    TrapListing(rel, n);
    assert (EarlyNames(n) + [rel[0]])[0..] == EarlyNames(n) + [rel[0]];
  }

  lemma NextEarly(rel: Path, n: nat, i: nat)
    requires Trapped(rel) && i < n
    ensures var p := ["r", Early(i + 1)];
      && ChildEvents(rel, n, i) == [VisitEvent(p, p, Empty, false)] + ChildEvents(rel, n, i + 1)
      && Drop(ChildEvents(rel, n, i + 1), Some(p)) == ChildEvents(rel, n, i + 1)
  {
    var names, w, info := EarlyNames(n) + [rel[0]], Trap(rel, n), Chart(rel, n);
    ChartLocated(rel, n);
    TrapListing(rel, n);
    EarlyPreorder(rel, n, i + 1);
    EarlyLookup(rel, n, i + 1);
    assert names[i..][0] == Early(i + 1) && names[i..][1..] == names[i+1..];
    assert ["r"] + [Early(i + 1)] == ["r", Early(i + 1)];
    assert ListingOf(names, info.entries.Keys) && Sorted(names[i..]);
    LaterApart(w, ["r"], ["r"], info, names[i..]);
    DropApart(ChildEvents(rel, n, i + 1), ["r", Early(i + 1)]);
  }

  lemma LastChild(rel: Path, n: nat)
    requires Trapped(rel)
    ensures var w, p := Trap(rel, n), Inside(rel, 1);
      Located(w, p, Nest(rel, 1)) && ChildEvents(rel, n, n) == Preorder(w, p, p, Nest(rel, 1), false)
  {
    var w, info := Trap(rel, n), Chart(rel, n);
    ChartLocated(rel, n);
    NestLocated(rel, n, 1);
    var names := EarlyNames(n) + [rel[0]];
    assert names[n..] == [rel[0]] && [rel[0]][1..] == [];
    assert Inside(rel, 1) == ["r"] + [rel[0]];
    assert Children(w, ["r"], ["r"], info, [rel[0]])
        == Preorder(w, Inside(rel, 1), Inside(rel, 1), Nest(rel, 1), false) + Children(w, ["r"], ["r"], info, []);
  }
}
