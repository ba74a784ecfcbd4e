/**
 sort.SliceStable of Go's standard library, as functions on sequences: insertion sort of
 blocks of 20, then merging of neighbouring blocks by SymMerge, whose rotations are slices here.

 Its comparator is meant to be a strict order. The lemmas show what it does when it is given a
 total preorder instead, that is, a comparator that also holds between equal elements.
 */
module StableSort {

  type Comparator<!T> = (T, T) -> bool

  const BLOCK: nat := 20

  ghost predicate TotalPreorder<T(!new)>(ge: Comparator<T>) {
    && (forall x, y :: ge(x, y) || ge(y, x))
    && (forall x, y, z :: ge(x, y) && ge(y, z) ==> ge(x, z))
  }

  ghost predicate SortedBy<T>(ge: Comparator<T>, s: seq<T>) {
    forall i, j :: 0 <= i < j < |s| ==> ge(s[i], s[j])
  }

  /** Every element of `s` may come before every element of `t`. */
  ghost predicate Before<T>(ge: Comparator<T>, s: seq<T>, t: seq<T>) {
    forall x, y :: x in s && y in t ==> ge(x, y)
  }

  lemma SortedConcat<T>(ge: Comparator<T>, s: seq<T>, t: seq<T>)
    requires SortedBy(ge, s) && SortedBy(ge, t) && Before(ge, s, t)
    ensures SortedBy(ge, s + t)
  {
    forall i, j | 0 <= i < j < |s + t| ensures ge((s + t)[i], (s + t)[j]) {
      if j < |s| { assert ge(s[i], s[j]); }
      else if i < |s| { assert s[i] in s && t[j-|s|] in t; }
      else { assert ge(t[i-|s|], t[j-|s|]); }
    }
  }

  // ----- insertion sort -----

  /** The new element moves left as long as it is less than its neighbour. */
  function InsertLeft<T>(less: Comparator<T>, s: seq<T>, x: T): seq<T> {
    if s == [] || !less(x, s[|s|-1]) then s + [x]
    else InsertLeft(less, s[..|s|-1], x) + [s[|s|-1]]
  }

  function InsertionSort<T>(less: Comparator<T>, s: seq<T>): seq<T> {
    if s == [] then [] else InsertLeft(less, InsertionSort(less, s[..|s|-1]), s[|s|-1])
  }

  lemma BeforeLast<T>(ge: Comparator<T>, s: seq<T>, x: T, r: seq<T>)
    requires s != [] && SortedBy(ge, s) && ge(x, s[|s|-1])
    requires multiset(r) == multiset(s[..|s|-1]) + multiset{x}
    ensures Before(ge, r, [s[|s|-1]])
  {
    var front, last := s[..|s|-1], s[|s|-1];
    forall y, z | y in r && z in [last] ensures ge(y, z) {
      assert y in multiset(r);
      assert y == x || y in front;
      if y in front { var i :| 0 <= i < |front| && front[i] == y; assert ge(s[i], s[|s|-1]); }
    }
  }

  lemma {:induction false} InsertLeftSorts<T(!new)>(ge: Comparator<T>, s: seq<T>, x: T)
    requires TotalPreorder(ge) && SortedBy(ge, s)
    ensures SortedBy(ge, InsertLeft(ge, s, x))
    ensures multiset(InsertLeft(ge, s, x)) == multiset(s) + multiset{x}
  {
    if s == [] {
    } else if !ge(x, s[|s|-1]) {
      assert ge(s[|s|-1], x);
      forall i | 0 <= i < |s| ensures ge(s[i], x) {
        assert i == |s| - 1 || ge(s[i], s[|s|-1]);
      }
    } else {
      var front, last := s[..|s|-1], s[|s|-1];
      assert s == front + [last];
      InsertLeftSorts(ge, front, x);
      BeforeLast(ge, s, x, InsertLeft(ge, front, x));
      SortedConcat(ge, InsertLeft(ge, front, x), [last]);
    }
  }

  lemma {:induction false} InsertionSortSorts<T(!new)>(ge: Comparator<T>, s: seq<T>)
    requires TotalPreorder(ge)
    ensures SortedBy(ge, InsertionSort(ge, s)) && multiset(InsertionSort(ge, s)) == multiset(s)
  {
    if s != [] {
      InsertionSortSorts(ge, s[..|s|-1]);
      InsertLeftSorts(ge, InsertionSort(ge, s[..|s|-1]), s[|s|-1]);
      assert s == s[..|s|-1] + [s[|s|-1]];
    }
  }

  // ----- merging -----

  /** The lowest index from `i` on at which the probe fails, found by halving. */
  function SearchUp<T>(less: Comparator<T>, v: seq<T>, x: T, i: nat, j: nat): (k: nat)
    requires i <= j <= |v|
    ensures i <= k <= j
    decreases j - i
  {
    if i == j then i
    else
      var h := (i + j) / 2;
      if less(v[h], x) then SearchUp(less, v, x, h + 1, j) else SearchUp(less, v, x, i, h)
  }

  /** The lowest index from `i` on at which `x` is less, found by halving. */
  function SearchDown<T>(less: Comparator<T>, u: seq<T>, x: T, i: nat, j: nat): (k: nat)
    requires i <= j <= |u|
    ensures i <= k <= j
    decreases j - i
  {
    if i == j then i
    else
      var h := (i + j) / 2;
      if !less(x, u[h]) then SearchDown(less, u, x, h + 1, j) else SearchDown(less, u, x, i, h)
  }

  /** Position `c` compared with its mirror image. */
  predicate Probe<T>(less: Comparator<T>, s: seq<T>, p: nat, c: nat)
    requires c < |s| && c <= p && p - c < |s|
  {
    less(s[p - c], s[c])
  }

  /** The symmetric decomposition of SymMerge, found by halving. */
  function SearchSplit<T>(less: Comparator<T>, s: seq<T>, p: nat, start: nat, r: nat): (k: nat)
    requires start <= r && r <= |s| && r <= p + 1 && p - start < |s|
    ensures start <= k <= r
    decreases r - start
  {
    if start == r then start
    else
      var c := (start + r) / 2;
      if !Probe(less, s, p, c) then SearchSplit(less, s, p, c + 1, r) else SearchSplit(less, s, p, start, c)
  }

  /** The range of split positions that leave as many elements on the left as there is room for. */
  function SplitRange(m: nat, b: nat): (range: (nat, nat))
    requires 2 <= m && m + 2 <= b
    ensures range.0 <= range.1 <= b / 2 && range.1 <= m && b / 2 + m - range.0 <= b
    ensures range.0 == 0 || b / 2 + m - range.0 == b
    ensures range.1 == m || range.1 == b / 2
  {
    var mid := b / 2;
    if m > mid then (mid + m - b, mid) else (0, m)
  }

  /** Where two neighbouring blocks are split: how much of each goes to the left half. */
  function Split<T>(less: Comparator<T>, u: seq<T>, v: seq<T>): (k: (nat, nat))
    requires |u| >= 2 && |v| >= 2
    ensures k.0 <= |u| && k.1 <= |v| && k.0 + k.1 == (|u| + |v|) / 2
  {
    var mid := (|u| + |v|) / 2;
    var (low, high) := SplitRange(|u|, |u| + |v|);
    var start := SearchSplit(less, u + v, mid + |u| - 1, low, high);
    (start, mid - start)
  }

  /** symMerge of two neighbouring blocks. */
  function SymMerge<T>(less: Comparator<T>, u: seq<T>, v: seq<T>): (r: seq<T>)
    ensures |r| == |u| + |v|
    decreases |u| + |v|
  {
    if u == [] then v
    else if v == [] then u
    else if |u| == 1 then
      var i := SearchUp(less, v, u[0], 0, |v|);
      v[..i] + u + v[i..]
    else if |v| == 1 then
      var i := SearchDown(less, u, v[0], 0, |u|);
      u[..i] + v + u[i..]
    else
      var (i, j) := Split(less, u, v);
      SymMerge(less, u[..i], v[..j]) + SymMerge(less, u[i..], v[j..])
  }

  lemma {:induction false} SearchUpFinds<T(!new)>(ge: Comparator<T>, v: seq<T>, x: T, i: nat, j: nat)
    requires TotalPreorder(ge) && SortedBy(ge, v) && i <= j <= |v|
    requires forall k :: 0 <= k < i ==> ge(v[k], x)
    requires forall k :: j <= k < |v| ==> ge(x, v[k])
    ensures var h := SearchUp(ge, v, x, i, j);
      (forall k :: 0 <= k < h ==> ge(v[k], x)) && (forall k :: h <= k < |v| ==> ge(x, v[k]))
    decreases j - i
  {
    if i < j {
      var h := (i + j) / 2;
      if ge(v[h], x) {
        forall k | 0 <= k < h + 1 ensures ge(v[k], x) { if k < h { assert ge(v[k], v[h]); } }
        SearchUpFinds(ge, v, x, h + 1, j);
      } else {
        forall k | h <= k < |v| ensures ge(x, v[k]) { if h < k { assert ge(v[h], v[k]); } }
        SearchUpFinds(ge, v, x, i, h);
      }
    }
  }

  lemma {:induction false} SearchDownFinds<T(!new)>(ge: Comparator<T>, u: seq<T>, x: T, i: nat, j: nat)
    requires TotalPreorder(ge) && SortedBy(ge, u) && i <= j <= |u|
    requires forall k :: 0 <= k < i ==> ge(u[k], x)
    requires forall k :: j <= k < |u| ==> ge(x, u[k])
    ensures var h := SearchDown(ge, u, x, i, j);
      (forall k :: 0 <= k < h ==> ge(u[k], x)) && (forall k :: h <= k < |u| ==> ge(x, u[k]))
    decreases j - i
  {
    if i < j {
      var h := (i + j) / 2;
      if !ge(x, u[h]) {
        forall k | 0 <= k < h + 1 ensures ge(u[k], x) { if k < h { assert ge(u[k], u[h]); } }
        SearchDownFinds(ge, u, x, h + 1, j);
      } else {
        forall k | h <= k < |u| ensures ge(x, u[k]) { if h < k { assert ge(u[h], u[k]); } }
        SearchDownFinds(ge, u, x, i, h);
      }
    }
  }

  /** One halving. */
  lemma SearchSplitStep<T>(less: Comparator<T>, s: seq<T>, p: nat, start: nat, r: nat) returns (c: nat)
    requires start < r && r <= |s| && r <= p + 1 && p - start < |s|
    ensures start <= c < r
    ensures SearchSplit(less, s, p, start, r)
         == if Probe(less, s, p, c) then SearchSplit(less, s, p, start, c) else SearchSplit(less, s, p, c + 1, r)
  {
    c := (start + r) / 2;
  }

  /** The probe at `c` is possible and answers `answer`. */
  predicate Answers<T>(less: Comparator<T>, s: seq<T>, p: nat, c: int, answer: bool) {
    0 <= c < |s| && c <= p && p - c < |s| && Probe(less, s, p, c) == answer
  }

  /** The probe fails just before the split position, unless this is the lowest one. */
  lemma {:induction false} SearchSplitLow<T>(less: Comparator<T>, s: seq<T>, p: nat, low: nat, start: nat, r: nat)
    returns (k: nat)
    requires low <= start <= r && r <= |s| && r <= p + 1 && p - low < |s|
    requires start == low || Answers(less, s, p, start - 1, false)
    ensures k == SearchSplit(less, s, p, start, r)
    ensures k == low || Answers(less, s, p, k - 1, false)
    decreases r - start
  {
    if start == r {
      return start;
    }
    var c := SearchSplitStep(less, s, p, start, r);
    if Probe(less, s, p, c) {
      k := SearchSplitLow(less, s, p, low, start, c);
    } else {
      k := SearchSplitLow(less, s, p, low, c + 1, r);
    }
  }

  /** The probe holds at the split position, unless this is the highest one. */
  lemma {:induction false} SearchSplitHigh<T>(less: Comparator<T>, s: seq<T>, p: nat, start: nat, r: nat, high: nat)
    returns (k: nat)
    requires start <= r <= high && high <= |s| && high <= p + 1 && p - start < |s|
    requires r == high || Answers(less, s, p, r, true)
    ensures k == SearchSplit(less, s, p, start, r)
    ensures k == high || Answers(less, s, p, k, true)
    decreases r - start
  {
    if start == r {
      return start;
    }
    var c := SearchSplitStep(less, s, p, start, r);
    if Probe(less, s, p, c) {
      k := SearchSplitHigh(less, s, p, start, c, high);
    } else {
      k := SearchSplitHigh(less, s, p, c + 1, r, high);
    }
  }

  /** A probe compares an element of one block with one of the other. */
  lemma ProbeAcross<T>(less: Comparator<T>, u: seq<T>, v: seq<T>, i: nat, j: nat)
    requires i < |u| && j < |v|
    ensures Probe(less, u + v, |u| + i + j, i) == less(v[j], u[i])
  {
    assert (u + v)[|u| + j] == v[j] && (u + v)[i] == u[i];
  }

  /** The split sends no element to the right half that must come before one on the left. */
  lemma SplitSeparates<T(!new)>(ge: Comparator<T>, u: seq<T>, v: seq<T>)
    requires TotalPreorder(ge) && |u| >= 2 && |v| >= 2
    ensures var (i, j) := Split(ge, u, v);
      && (0 < i && j < |v| ==> ge(u[i-1], v[j]))
      && (0 < j && i < |u| ==> ge(v[j-1], u[i]))
  {
    var (i, j) := Split(ge, u, v);
    SplitProbes(ge, u, v, i, j);
    if 0 < i && j < |v| { ProbeAcross(ge, u, v, i - 1, j); }
    if 0 < j && i < |u| { ProbeAcross(ge, u, v, i, j - 1); }
  }

  lemma SplitProbes<T>(less: Comparator<T>, u: seq<T>, v: seq<T>, i: nat, j: nat)
    requires |u| >= 2 && |v| >= 2 && (i, j) == Split(less, u, v)
    ensures 0 < i && j < |v| ==> !Probe(less, u + v, |u| + i - 1 + j, i - 1)
    ensures 0 < j && i < |u| ==> Probe(less, u + v, |u| + i + j - 1, i)
  {
    var p := |u| + i + j - 1;
    var (low, high) := SplitRange(|u|, |u| + |v|);
    assert i == SearchSplit(less, u + v, p, low, high);
    var k := SearchSplitLow(less, u + v, p, low, low, high);
    k := SearchSplitHigh(less, u + v, p, low, high, high);
  }

  /** Sorted blocks with their last and first elements in order are in order as a whole. */
  lemma BeforeByEnds<T(!new)>(ge: Comparator<T>, s: seq<T>, t: seq<T>)
    requires TotalPreorder(ge) && SortedBy(ge, s) && SortedBy(ge, t)
    requires s != [] && t != [] ==> ge(s[|s|-1], t[0])
    ensures Before(ge, s, t)
  {
    forall x, y | x in s && y in t ensures ge(x, y) {
      var i :| 0 <= i < |s| && s[i] == x;
      var j :| 0 <= j < |t| && t[j] == y;
      assert i == |s| - 1 || ge(s[i], s[|s|-1]);
      assert j == 0 || ge(t[0], t[j]);
    }
  }

  lemma BeforeUnion<T>(ge: Comparator<T>, a: seq<T>, b: seq<T>, c: seq<T>, d: seq<T>, left: seq<T>, right: seq<T>)
    requires Before(ge, a, c) && Before(ge, a, d) && Before(ge, b, c) && Before(ge, b, d)
    requires multiset(left) == multiset(a) + multiset(b) && multiset(right) == multiset(c) + multiset(d)
    ensures Before(ge, left, right)
  {
    forall x, y | x in left && y in right ensures ge(x, y) {
      assert x in multiset(left) && y in multiset(right);
      assert (x in a || x in b) && (y in c || y in d);
    }
  }

  /** Putting a block into another one where everything before may precede it and everything after may follow it. */
  lemma Inserted<T(!new)>(ge: Comparator<T>, s: seq<T>, i: nat, x: seq<T>)
    requires TotalPreorder(ge) && SortedBy(ge, s) && i <= |s| && |x| == 1
    requires forall k :: 0 <= k < i ==> ge(s[k], x[0])
    requires forall k :: i <= k < |s| ==> ge(x[0], s[k])
    ensures SortedBy(ge, s[..i] + x + s[i..])
    ensures multiset(s[..i] + x + s[i..]) == multiset(s) + multiset(x)
  {
    assert s == s[..i] + s[i..];
    BeforeByEnds(ge, s[..i], x);
    SortedConcat(ge, s[..i], x);
    BeforeByEnds(ge, s[..i] + x, s[i..]);
    SortedConcat(ge, s[..i] + x, s[i..]);
  }

  /** The left parts of both blocks may come before their right parts. */
  lemma QuartersOrdered<T(!new)>(ge: Comparator<T>, u: seq<T>, v: seq<T>, i: nat, j: nat)
    requires TotalPreorder(ge) && SortedBy(ge, u) && SortedBy(ge, v) && i <= |u| && j <= |v|
    requires 0 < i && j < |v| ==> ge(u[i-1], v[j])
    requires 0 < j && i < |u| ==> ge(v[j-1], u[i])
    ensures Before(ge, u[..i], u[i..]) && Before(ge, u[..i], v[j..])
    ensures Before(ge, v[..j], u[i..]) && Before(ge, v[..j], v[j..])
  {
    BeforeByEnds(ge, u[..i], u[i..]);
    BeforeByEnds(ge, u[..i], v[j..]);
    BeforeByEnds(ge, v[..j], u[i..]);
    BeforeByEnds(ge, v[..j], v[j..]);
  }

  lemma TwoParts<T>(s: seq<T>, i: nat)
    requires i <= |s|
    ensures multiset(s) == multiset(s[..i]) + multiset(s[i..])
  {
    assert s == s[..i] + s[i..];
  }

  /** Merging the halves of a split yields the merge. */
  lemma HalvesMerged<T(!new)>(ge: Comparator<T>, u: seq<T>, v: seq<T>, left: seq<T>, right: seq<T>)
    requires TotalPreorder(ge) && SortedBy(ge, u) && SortedBy(ge, v) && |u| >= 2 && |v| >= 2
    requires var (i, j) := Split(ge, u, v);
      && multiset(left) == multiset(u[..i]) + multiset(v[..j])
      && multiset(right) == multiset(u[i..]) + multiset(v[j..])
    requires SortedBy(ge, left) && SortedBy(ge, right)
    ensures SortedBy(ge, left + right)
    ensures multiset(left + right) == multiset(u) + multiset(v)
  {
    var (i, j) := Split(ge, u, v);
    SplitSeparates(ge, u, v);
    QuartersOrdered(ge, u, v, i, j);
    TwoParts(u, i);
    TwoParts(v, j);
    BeforeUnion(ge, u[..i], v[..j], u[i..], v[j..], left, right);
    SortedConcat(ge, left, right);
  }

  lemma {:induction false} SymMergeSorts<T(!new)>(ge: Comparator<T>, u: seq<T>, v: seq<T>)
    requires TotalPreorder(ge) && SortedBy(ge, u) && SortedBy(ge, v)
    ensures SortedBy(ge, SymMerge(ge, u, v))
    ensures multiset(SymMerge(ge, u, v)) == multiset(u) + multiset(v)
    decreases |u| + |v|
  {
    if u == [] || v == [] {
    } else if |u| == 1 {
      SearchUpFinds(ge, v, u[0], 0, |v|);
      Inserted(ge, v, SearchUp(ge, v, u[0], 0, |v|), u);
    } else if |v| == 1 {
      SearchDownFinds(ge, u, v[0], 0, |u|);
      Inserted(ge, u, SearchDown(ge, u, v[0], 0, |u|), v);
    } else {
      var (i, j) := Split(ge, u, v);
      SymMergeSorts(ge, u[..i], v[..j]);
      SymMergeSorts(ge, u[i..], v[j..]);
      HalvesMerged(ge, u, v, SymMerge(ge, u[..i], v[..j]), SymMerge(ge, u[i..], v[j..]));
    }
  }

  // ----- the whole sort -----

  /** Sorts each block of 20 by insertion. */
  function SortBlocks<T>(less: Comparator<T>, s: seq<T>): seq<T> {
    if |s| < BLOCK then InsertionSort(less, s)
    else InsertionSort(less, s[..BLOCK]) + SortBlocks(less, s[BLOCK..])
  }

  /** Merges neighbouring blocks of length `k`. */
  function MergePass<T>(less: Comparator<T>, s: seq<T>, k: nat): (r: seq<T>)
    requires k > 0
    ensures |r| == |s|
    decreases |s|
  {
    if |s| < 2 * k then (if k < |s| then SymMerge(less, s[..k], s[k..]) else s)
    else SymMerge(less, s[..k], s[k..2*k]) + MergePass(less, s[2*k..], k)
  }

  function MergePasses<T>(less: Comparator<T>, s: seq<T>, k: nat): seq<T>
    requires k > 0
    decreases if k < |s| then |s| - k else 0
  {
    if k >= |s| then s else MergePasses(less, MergePass(less, s, k), 2 * k)
  }

  function SliceStable<T>(less: Comparator<T>, s: seq<T>): seq<T> {
    MergePasses(less, SortBlocks(less, s), BLOCK)
  }

  /** Each block of length `k` is sorted. */
  ghost predicate Blocks<T>(ge: Comparator<T>, s: seq<T>, k: nat)
    requires k > 0
    decreases |s|
  {
    if |s| <= k then SortedBy(ge, s) else SortedBy(ge, s[..k]) && Blocks(ge, s[k..], k)
  }

  lemma BlocksConcat<T>(ge: Comparator<T>, s: seq<T>, t: seq<T>, k: nat)
    requires k > 0 && |s| == k && SortedBy(ge, s) && Blocks(ge, t, k)
    ensures Blocks(ge, s + t, k)
  {
    assert (s + t)[..k] == s && (s + t)[k..] == t;
    if t == [] { assert s + t == s; }
  }

  lemma {:induction false} SortBlocksSorts<T(!new)>(ge: Comparator<T>, s: seq<T>)
    requires TotalPreorder(ge)
    ensures Blocks(ge, SortBlocks(ge, s), BLOCK) && multiset(SortBlocks(ge, s)) == multiset(s)
    decreases |s|
  {
    if |s| < BLOCK {
      InsertionSortSorts(ge, s);
      SameLength(InsertionSort(ge, s), s);
    } else {
      InsertionSortSorts(ge, s[..BLOCK]);
      SameLength(InsertionSort(ge, s[..BLOCK]), s[..BLOCK]);
      SortBlocksSorts(ge, s[BLOCK..]);
      BlocksConcat(ge, InsertionSort(ge, s[..BLOCK]), SortBlocks(ge, s[BLOCK..]), BLOCK);
      assert s == s[..BLOCK] + s[BLOCK..];
    }
  }

  lemma SameLength<T>(s: seq<T>, t: seq<T>)
    requires multiset(s) == multiset(t)
    ensures |s| == |t|
  {
    assert |multiset(s)| == |s| && |multiset(t)| == |t|;
  }

  lemma TwoBlocks<T>(ge: Comparator<T>, s: seq<T>, k: nat)
    requires k > 0 && Blocks(ge, s, k) && 2 * k <= |s|
    ensures SortedBy(ge, s[..k]) && SortedBy(ge, s[k..2*k]) && Blocks(ge, s[2*k..], k)
  {
    assert s[k..][..k] == s[k..2*k] && s[k..][k..] == s[2*k..];
    if |s| == 2 * k { assert s[k..2*k] == s[k..] && s[2*k..] == []; }
  }

  lemma ThreeParts<T>(s: seq<T>, i: nat, j: nat)
    requires i <= j <= |s|
    ensures multiset(s) == multiset(s[..i]) + multiset(s[i..j]) + multiset(s[j..])
  {
    assert s == s[..i] + s[i..j] + s[j..];
  }

  /** The first two blocks merged, and what the pass makes of the rest. */
  lemma MergedFirst<T(!new)>(ge: Comparator<T>, s: seq<T>, k: nat, rest: seq<T>)
    requires TotalPreorder(ge) && k > 0 && Blocks(ge, s, k) && 2 * k <= |s|
    requires Blocks(ge, rest, 2 * k) && multiset(rest) == multiset(s[2*k..])
    ensures var out := SymMerge(ge, s[..k], s[k..2*k]) + rest; Blocks(ge, out, 2 * k) && multiset(out) == multiset(s)
  {
    TwoBlocks(ge, s, k);
    SymMergeSorts(ge, s[..k], s[k..2*k]);
    BlocksConcat(ge, SymMerge(ge, s[..k], s[k..2*k]), rest, 2 * k);
    ThreeParts(s, k, 2 * k);
  }

  lemma MergedLast<T(!new)>(ge: Comparator<T>, s: seq<T>, k: nat)
    requires TotalPreorder(ge) && k <= |s| && SortedBy(ge, s[..k]) && SortedBy(ge, s[k..])
    ensures SortedBy(ge, SymMerge(ge, s[..k], s[k..])) && multiset(SymMerge(ge, s[..k], s[k..])) == multiset(s)
  {
    SymMergeSorts(ge, s[..k], s[k..]);
    TwoParts(s, k);
  }

  lemma {:induction false} MergePassSorts<T(!new)>(ge: Comparator<T>, s: seq<T>, k: nat)
    requires TotalPreorder(ge) && k > 0 && Blocks(ge, s, k)
    ensures Blocks(ge, MergePass(ge, s, k), 2 * k) && multiset(MergePass(ge, s, k)) == multiset(s)
    decreases |s|
  {
    if |s| >= 2 * k {
      TwoBlocks(ge, s, k);
      MergePassSorts(ge, s[2*k..], k);
      MergedFirst(ge, s, k, MergePass(ge, s[2*k..], k));
    } else if k < |s| {
      MergedLast(ge, s, k);
    }
  }

  lemma {:induction false} MergePassesSort<T(!new)>(ge: Comparator<T>, s: seq<T>, k: nat)
    requires TotalPreorder(ge) && k > 0 && Blocks(ge, s, k)
    ensures SortedBy(ge, MergePasses(ge, s, k)) && multiset(MergePasses(ge, s, k)) == multiset(s)
    decreases if k < |s| then |s| - k else 0
  {
    if k < |s| {
      MergePassSorts(ge, s, k);
      MergePassesSort(ge, MergePass(ge, s, k), 2 * k);
    }
  }

  /** With a total preorder as its comparator the sort yields an ordered permutation. */
  lemma SliceStableSorts<T(!new)>(ge: Comparator<T>, s: seq<T>)
    requires TotalPreorder(ge)
    ensures SortedBy(ge, SliceStable(ge, s)) && multiset(SliceStable(ge, s)) == multiset(s)
  {
    SortBlocksSorts(ge, s);
    MergePassesSort(ge, SortBlocks(ge, s), BLOCK);
  }
}
