/**
 The extended-length form of Windows paths, internal/fs/fs.go: fixLongPath fills a buffer with two cursors, isAbs
 and volumeName classify the path. Paths are byte strings; both slashes separate.
 */
module LongPath {
  import opened Helpers

  predicate IsSeparator(c: char) {
    c == '\\' || c == '/'
  }

  /** The first separator at `from` or behind it, or the end. */
  function NextSeparator(path: string, from: nat): (n: nat)
    requires from <= |path|
    ensures from <= n <= |path|
    ensures forall k :: from <= k < n ==> !IsSeparator(path[k])
    ensures n < |path| ==> IsSeparator(path[n])
    decreases |path| - from
  {
    if from == |path| || IsSeparator(path[from]) then from else NextSeparator(path, from + 1)
  }

  /** The maximal runs without a separator, from `r` on. */
  function Components(path: string, r: nat): seq<string>
    requires r <= |path|
    decreases |path| - r
  {
    if r == |path| then []
    else if IsSeparator(path[r]) then Components(path, r + 1)
    else [path[r..NextSeparator(path, r)]] + Components(path, NextSeparator(path, r))
  }

  function Split(path: string): seq<string> {
    Components(path, 0)
  }

  /** A backslash in front of each component. */
  function Joined(components: seq<string>): string {
    if components == [] then "" else "\\" + components[0] + Joined(components[1..])
  }

  function WithoutDots(components: seq<string>): seq<string> {
    if components == [] then []
    else (if components[0] == "." then [] else [components[0]]) + WithoutDots(components[1..])
  }

  predicate IsDriveLetter(c: char) {
    '0' <= c <= '9' || 'a' <= c <= 'z' || 'A' <= c <= 'Z'
  }

  predicate HasDrive(path: string) {
    |path| >= 2 && path[1] == ':' && IsDriveLetter(path[0])
  }

  /** The characters from `from` to `to` are a name that does not begin with a dot. */
  predicate IsName(path: string, from: nat, to: nat) {
    from < to <= |path| && path[from] != '.' && forall k :: from <= k < to ==> !IsSeparator(path[k])
  }

  /**
   The first `n` characters are the head of a UNC path: two separators, a server up to `mid`, a separator, and a
   share, which is a whole component.
   */
  predicate IsUncHead(path: string, mid: nat, n: nat) {
    && 2 < mid < n <= |path|
    && IsSeparator(path[0]) && IsSeparator(path[1]) && IsSeparator(path[mid])
    && IsName(path, 2, mid) && IsName(path, mid + 1, n)
    && (n < |path| ==> IsSeparator(path[n]))
  }

  /** The drive or the UNC head of a path, of which it has at most one; nothing without either. */
  ghost function Volume(path: string): string {
    if HasDrive(path) then path[..2]
    else if mid: nat, n: nat :| IsUncHead(path, mid, n) then path[..n]
    else ""
  }

  lemma OneUncHead(path: string, mid: nat, n: nat, mid': nat, n': nat)
    requires IsUncHead(path, mid, n) && IsUncHead(path, mid', n')
    ensures mid == mid' && n == n'
  {
  }

  lemma VolumeIsUncHead(path: string, mid: nat, n: nat)
    requires IsUncHead(path, mid, n)
    ensures Volume(path) == path[..n]
  {
    forall mid': nat, n': nat | IsUncHead(path, mid', n') ensures n' == n {
      OneUncHead(path, mid, n, mid', n');
    }
  }

  /** A drive, or the head of a UNC path, or nothing; no index leaves the path. */
  method VolumeName(path: string) returns (v: string)
    ensures v == Volume(path)
  {
    if |path| < 2 {
      return "";
    }
    var c := path[0];
    if path[1] == ':' && ('0' <= c <= '9' || 'a' <= c <= 'z' || 'A' <= c <= 'Z') {
      return path[..2];
    }
    var l := |path|;
    v := "";
    if l >= 5 && IsSeparator(path[0]) && IsSeparator(path[1]) && !IsSeparator(path[2]) && path[2] != '.' {
      var n := 3;
      ghost var mid := 0;
      while n < l - 1
        invariant 3 <= n <= l - 1
        invariant forall k :: 2 <= k < n ==> !IsSeparator(path[k])
      {
        if IsSeparator(path[n]) {
          mid := n;
          n := n + 1;
          if !IsSeparator(path[n]) {
            if path[n] == '.' {
              break;
            }
            while n < l
              invariant mid < n <= l
              invariant forall k :: mid < k < n ==> !IsSeparator(path[k])
            {
              if IsSeparator(path[n]) {
                break;
              }
              n := n + 1;
            }
            VolumeIsUncHead(path, mid, n);
            return path[..n];
          }
          break;
        }
        n := n + 1;
      }
    }
  }

  /** The volume is followed by a separator. */
  ghost predicate Absolute(path: string) {
    var v := Volume(path);
    v != "" && |v| < |path| && IsSeparator(path[|v|])
  }

  method IsAbs(path: string) returns (b: bool)
    ensures b <==> Absolute(path)
  {
    var v := VolumeName(path);
    if v == "" {
      return false;
    }
    VolumeIsPrefix(path);
    var rest := path[|v|..];
    if rest == "" {
      return false;
    }
    return IsSeparator(rest[0]);
  }

  lemma VolumeIsPrefix(path: string)
    ensures Volume(path) <= path
  {
  }

  const EXTENDED := "\\\\?"

  /** The components that are left, each behind a backslash; a drive on its own has one behind it as well. */
  ghost function Extended(path: string): string {
    var kept := WithoutDots(Split(path));
    EXTENDED + Joined(kept) + if kept == [Volume(path)] then "\\" else ""
  }

  /** Short paths, paths that begin with two backslashes, relative paths and paths that go up are left alone. */
  ghost predicate LeftAlone(path: string) {
    |path| < 248 || path[..2] == "\\\\" || !Absolute(path) || ".." in Split(path)
  }

  ghost function Fixed(path: string): string {
    if LeftAlone(path) then path else Extended(path)
  }

  /** The remaining components at a component that ends at `e`. */
  lemma AtComponent(path: string, r: nat, e: nat)
    requires r < e <= |path| && (e < |path| ==> IsSeparator(path[e]))
    requires forall k :: r <= k < e ==> !IsSeparator(path[k])
    ensures Components(path, r) == [path[r..e]] + Components(path, e)
    ensures WithoutDots(Components(path, r))
         == (if path[r..e] == "." then [] else [path[r..e]]) + WithoutDots(Components(path, e))
  {
    assert NextSeparator(path, r) == e;
    assert Components(path, r)[1..] == Components(path, e);
  }

  lemma JoinedMore(c: string, rest: seq<string>)
    ensures Joined([c] + rest) == "\\" + c + Joined(rest)
  {
    assert ([c] + rest)[1..] == rest;
  }

  /** What is written followed by what is left to write. */
  ghost predicate Writing(path: string, done: string, r: nat) {
    && r <= |path|
    && done + Joined(WithoutDots(Components(path, r))) == EXTENDED + Joined(WithoutDots(Split(path)))
    && (".." in Components(path, r) <==> ".." in Split(path))
  }

  /** A separator, or a component that is a dot, adds nothing. */
  lemma SkipOne(path: string, done: string, r: nat)
    requires Writing(path, done, r) && r < |path|
    requires IsSeparator(path[r]) || (path[r] == '.' && (r + 1 == |path| || IsSeparator(path[r+1])))
    ensures Writing(path, done, r + 1)
  {
    if !IsSeparator(path[r]) {
      AtComponent(path, r, r + 1);
      assert path[r..r+1] == ".";
      assert WithoutDots(Components(path, r)) == WithoutDots(Components(path, r + 1));
    }
  }

  lemma GoesUp(path: string, done: string, r: nat)
    requires Writing(path, done, r) && r + 1 < |path| && path[r] == '.' && path[r+1] == '.'
    requires r + 2 == |path| || IsSeparator(path[r+2])
    ensures Fixed(path) == path
  {
    AtComponent(path, r, r + 2);
    assert path[r..r+2] == "..";
    assert path[r..r+2] in Components(path, r);
  }

  lemma NotDots(c: string)
    requires c != "" && !(c[0] == '.' && |c| == 1) && !(|c| == 2 && c[0] == '.' && c[1] == '.')
    ensures c != "." && c != ".."
  {
  }

  lemma WriteComponent(path: string, done: string, r: nat, e: nat)
    requires Writing(path, done, r) && r < e <= |path| && (e < |path| ==> IsSeparator(path[e]))
    requires forall k :: r <= k < e ==> !IsSeparator(path[k])
    requires !(path[r] == '.' && e == r + 1) && !(e == r + 2 && path[r] == '.' && path[r+1] == '.')
    ensures Writing(path, done + "\\" + path[r..e], e)
  {
    var c := path[r..e];
    NotDots(c);
    AtComponent(path, r, e);
    JoinedMore(c, WithoutDots(Components(path, e)));
    var rest := Joined(WithoutDots(Components(path, e)));
    assert done + ("\\" + path[r..e] + rest) == (done + "\\" + path[r..e]) + rest;
  }

  lemma {:induction false} JoinedLength(components: seq<string>)
    requires "" !in components
    ensures |Joined(components)| >= 2 * |components|
  {
    if components != [] {
      JoinedLength(components[1..]);
    }
  }

  /** Every component is a non-empty run without separators. */
  lemma {:induction false} ComponentsAreRuns(path: string, r: nat, c: string)
    requires r <= |path| && c in Components(path, r)
    ensures c != "" && forall k :: 0 <= k < |c| ==> !IsSeparator(c[k])
    decreases |path| - r
  {
    if r < |path| {
      if IsSeparator(path[r]) {
        ComponentsAreRuns(path, r + 1, c);
      } else if c != path[r..NextSeparator(path, r)] {
        ComponentsAreRuns(path, NextSeparator(path, r), c);
      }
    }
  }

  lemma {:induction false} WithoutDotsMembers(components: seq<string>, c: string)
    ensures c in WithoutDots(components) <==> c in components && c != "."
  {
    if components != [] {
      WithoutDotsMembers(components[1..], c);
      assert c in components <==> c == components[0] || c in components[1..];
    }
  }

  lemma KeptAreNotEmpty(path: string)
    ensures "" !in WithoutDots(Split(path))
  {
    WithoutDotsMembers(Split(path), "");
    if "" in Split(path) {
      ComponentsAreRuns(path, 0, "");
    }
  }

  lemma DriveIsFirst(path: string)
    requires HasDrive(path) && |path| > 2 && IsSeparator(path[2])
    ensures WithoutDots(Split(path)) == [path[..2]] + WithoutDots(Components(path, 2))
  {
    AtComponent(path, 0, 2);
    assert path[0..2] == path[..2];
  }

  lemma UncNamesAreFirst(path: string, mid: nat, n: nat)
    requires IsUncHead(path, mid, n)
    ensures WithoutDots(Split(path)) == [path[2..mid], path[mid+1..n]] + WithoutDots(Components(path, n))
  {
    AtComponent(path, 2, mid);
    AtComponent(path, mid + 1, n);
    assert Components(path, mid) == Components(path, mid + 1);
    assert Components(path, 0) == Components(path, 1) == Components(path, 2);
    assert path[2..mid][0] != '.' && path[mid+1..n][0] != '.';
  }

  /** Six characters have been written exactly when the drive is the only component that is left. */
  lemma TrailingBackslash(path: string, body: string)
    requires Absolute(path)
    requires body == EXTENDED + Joined(WithoutDots(Split(path)))
    ensures |body| == 6 <==> WithoutDots(Split(path)) == [Volume(path)]
  {
    var kept := WithoutDots(Split(path));
    KeptAreNotEmpty(path);
    if HasDrive(path) {
      DriveIsFirst(path);
      var rest := WithoutDots(Components(path, 2));
      JoinedMore(path[..2], rest);
      JoinedLength(rest);
    } else {
      var mid: nat, n: nat :| IsUncHead(path, mid, n);
      UncNamesAreFirst(path, mid, n);
      JoinedLength(kept);
      assert |kept| >= 2;
    }
  }

  lemma Completed(path: string, body: string)
    requires |path| >= 248 && path[..2] != "\\\\" && Absolute(path)
    requires Writing(path, body, |path|)
    ensures Fixed(path) == if |body| == 6 then body + "\\" else body
  {
    assert body + Joined(WithoutDots(Components(path, |path|))) == body;
    TrailingBackslash(path, body);
  }

  /** The default case: a backslash and the component at `r`. */
  method CopyComponent(path: string, r: nat, pathbuf: array<char>, w: nat) returns (w': nat, r': nat)
    requires r < |path| && !IsSeparator(path[r]) && w <= r + 3 && pathbuf.Length == |path| + 4
    modifies pathbuf
    ensures r < r' <= |path| && (r' < |path| ==> IsSeparator(path[r']))
    ensures forall k :: r <= k < r' ==> !IsSeparator(path[k])
    ensures w' == w + 1 + r' - r && pathbuf[..w'] == old(pathbuf[..w]) + "\\" + path[r..r']
  {
    w', r' := w, r;
    pathbuf[w'] := '\\';
    w' := w' + 1;
    while r' < |path| && !IsSeparator(path[r'])
      invariant r <= r' <= |path| && w' == w + 1 + r' - r
      invariant forall k :: r <= k < r' ==> !IsSeparator(path[k])
      invariant pathbuf[..w'] == old(pathbuf[..w]) + "\\" + path[r..r']
    {
      pathbuf[w'] := path[r'];
      w' := w' + 1;
      r' := r' + 1;
    }
  }

  /** The loop of fixLongPath over its buffer; the cursor `w` never leaves it. On a component that goes up it stops. */
  method Rewrite(path: string, pathbuf: array<char>) returns (up: bool, w: nat)
    requires pathbuf.Length == |path| + 4 && pathbuf[..3] == EXTENDED
    modifies pathbuf
    ensures up ==> Fixed(path) == path
    ensures !up ==> w <= |path| + 4 && Writing(path, pathbuf[..w], |path|)
  {
    var n := |path|;
    var r := 0;
    w := 3;
    ghost var done := EXTENDED;
    while r < n
      invariant 0 <= r <= n && 3 <= w <= r + 4
      invariant r < n && !IsSeparator(path[r]) ==> w <= r + 3
      invariant pathbuf[..w] == done && Writing(path, done, r)
    {
      if IsSeparator(path[r]) {
        SkipOne(path, done, r);
        r := r + 1;
      } else if path[r] == '.' && (r + 1 == n || IsSeparator(path[r+1])) {
        SkipOne(path, done, r);
        r := r + 1;
      } else if r + 1 < n && path[r] == '.' && path[r+1] == '.' && (r + 2 == n || IsSeparator(path[r+2])) {
        GoesUp(path, done, r);
        return true, w;
      } else {
        ghost var from := r;
        w, r := CopyComponent(path, r, pathbuf, w);
        WriteComponent(path, done, from, r);
        done := pathbuf[..w];
      }
    }
    return false, w;
  }

  method FixLongPath(path: string) returns (s: string)
    ensures s == Fixed(path)
  {
    if |path| < 248 {
      return path;
    }
    if |path| >= 2 && path[..2] == "\\\\" {
      return path;
    }
    var abs := IsAbs(path);
    if !abs {
      return path;
    }
    var pathbuf := new char[3 + |path| + 1];
    pathbuf[0], pathbuf[1], pathbuf[2] := '\\', '\\', '?';
    assert pathbuf[..3] == EXTENDED;
    var up, w := Rewrite(path, pathbuf);
    if up {
      return path;
    }
    Completed(path, pathbuf[..w]);
    if w == 6 {
      pathbuf[w] := '\\';
      w := w + 1;
    }
    s := pathbuf[..w];
  }

  /** A second pass changes nothing. */
  lemma FixedIsStable(path: string)
    ensures Fixed(Fixed(path)) == Fixed(path)
  {
    if !LeftAlone(path) {
      assert Extended(path)[..2] == "\\\\";
    }
  }

  /** A path is rewritten exactly if it is long, absolute, does not begin with two backslashes, and does not go up. */
  lemma RewrittenIff(path: string)
    ensures Fixed(path) != path <==>
      |path| >= 248 && !(path[0] == path[1] == '\\') && Absolute(path) && ".." !in Split(path)
  {
    assert |path| >= 248 ==> path[..2] == [path[0], path[1]];
    if !LeftAlone(path) {
      assert Extended(path)[..2] == "\\\\";
    }
  }

  predicate IsComponent(c: string) {
    c != "" && forall k :: 0 <= k < |c| ==> !IsSeparator(c[k])
  }

  lemma Behind(path: string, r: nat, front: string, rest: string)
    requires r <= |path| && path[r..] == front + rest
    ensures r + |front| <= |path| && path[r..r+|front|] == front && path[r+|front|..] == rest
  {
    assert path[r..][..|front|] == front && path[r..][|front|..] == rest;
  }

  lemma JoinedFirst(c: string, rest: string, tail: string)
    ensures "\\" + c + rest + tail == "\\" + (c + (rest + tail))
  {
    Associative("\\" + c, rest, tail);
    Associative("\\", c, rest + tail);
  }

  lemma BeginsWithBackslash(components: seq<string>, tail: string)
    requires tail == "" || tail == "\\"
    ensures Joined(components) + tail == "" || (Joined(components) + tail)[0] == '\\'
  {
  }

  /** Joining and splitting again gives the components back, with or without a separator behind them. */
  lemma {:induction false} SplitOfJoined(path: string, r: nat, components: seq<string>, tail: string)
    requires forall c :: c in components ==> IsComponent(c)
    requires tail == "" || tail == "\\"
    requires r <= |path| && path[r..] == Joined(components) + tail
    ensures Components(path, r) == components
    decreases |components|
  {
    if components == [] {
      assert path[r..] == tail;
      assert tail != "" ==> path[r..][0] == '\\';
    } else {
      var c, rest := components[0], components[1..];
      SplitFirst(path, r, c, Joined(rest), tail);
      BeginsWithBackslash(rest, tail);
      SplitOfJoined(path, r + 1 + |c|, rest, tail);
      ComponentFound(path, r, r + 1 + |c|, c, Joined(rest) + tail);
    }
  }

  lemma SplitFirst(path: string, r: nat, c: string, rest: string, tail: string)
    requires r <= |path| && path[r..] == "\\" + c + rest + tail
    ensures var e := r + 1 + |c|; e <= |path| && path[r] == '\\' && path[r+1..e] == c && path[e..] == rest + tail
  {
    JoinedFirst(c, rest, tail);
    Behind(path, r, "\\", c + (rest + tail));
    Behind(path, r + 1, c, rest + tail);
    assert path[r..][0] == '\\';
  }

  lemma ComponentFound(path: string, r: nat, e: nat, c: string, behind: string)
    requires r < e <= |path| && path[r] == '\\' && path[r+1..e] == c && path[e..] == behind
    requires IsComponent(c) && (behind != "" ==> behind[0] == '\\')
    ensures Components(path, r) == [c] + Components(path, e)
  {
    forall k | r < k < e ensures !IsSeparator(path[k]) {
      assert path[k] == c[k-r-1];
    }
    assert e < |path| ==> path[e] == behind[0];
    AtComponent(path, r + 1, e);
  }

  /** Behind the prefix a rewritten path has the components of the original, in order, without the dots. */
  lemma FixedKeepsComponents(path: string)
    requires !LeftAlone(path)
    ensures EXTENDED <= Fixed(path)
    ensures Components(Fixed(path), |EXTENDED|) == WithoutDots(Split(path))
  {
    var kept := WithoutDots(Split(path));
    forall c | c in kept ensures IsComponent(c) {
      WithoutDotsMembers(Split(path), c);
      ComponentsAreRuns(path, 0, c);
    }
    var tail := if kept == [Volume(path)] then "\\" else "";
    assert Extended(path)[|EXTENDED|..] == Joined(kept) + tail;
    SplitOfJoined(Extended(path), |EXTENDED|, kept, tail);
  }

  /** The path without its separators. */
  function Letters(path: string, r: nat): string
    requires r <= |path|
    decreases |path| - r
  {
    if r == |path| then "" else (if IsSeparator(path[r]) then "" else [path[r]]) + Letters(path, r + 1)
  }

  function Flat(components: seq<string>): string {
    if components == [] then "" else components[0] + Flat(components[1..])
  }

  lemma {:induction false} LettersOfRun(path: string, r: nat, e: nat)
    requires r <= e <= |path| && forall k :: r <= k < e ==> !IsSeparator(path[k])
    ensures Letters(path, r) == path[r..e] + Letters(path, e)
    decreases e - r
  {
    if r < e {
      LettersOfRun(path, r + 1, e);
      assert path[r..e] == [path[r]] + path[r+1..e];
      Associative([path[r]], path[r+1..e], Letters(path, e));
    }
  }

  /** Splitting loses nothing but the separators. */
  lemma {:induction false} SplitKeepsLetters(path: string, r: nat)
    requires r <= |path|
    ensures Flat(Components(path, r)) == Letters(path, r)
    decreases |path| - r
  {
    if r < |path| {
      if IsSeparator(path[r]) {
        SplitKeepsLetters(path, r + 1);
      } else {
        var e := NextSeparator(path, r);
        AtComponent(path, r, e);
        assert Components(path, r)[1..] == Components(path, e);
        SplitKeepsLetters(path, e);
        LettersOfRun(path, r, e);
      }
    }
  }

  /**
   A long UNC path is left alone exactly when it begins with two backslashes or goes up; with a slash among its first
   two characters it is rewritten, and the result names a server where the extended form expects a drive or UNC.
   */
  lemma UncIsLeftAloneIff(path: string, mid: nat, n: nat)
    requires |path| >= 248 && IsUncHead(path, mid, n) && n < |path|
    ensures Fixed(path) == path <==> path[..2] == "\\\\" || ".." in Split(path)
    ensures Fixed(path) != path ==> EXTENDED + "\\" + path[2..mid] + "\\" + path[mid+1..n] <= Fixed(path)
  {
    VolumeIsUncHead(path, mid, n);
    if !LeftAlone(path) {
      UncNamesAreFirst(path, mid, n);
      JoinedPair(path[2..mid], path[mid+1..n], WithoutDots(Components(path, n)));
      ExtendedPrefix(path, "\\" + path[2..mid] + "\\" + path[mid+1..n]);
    }
  }

  lemma JoinedPair(c: string, d: string, rest: seq<string>)
    ensures "\\" + c + "\\" + d <= Joined([c, d] + rest)
  {
    assert [c, d] + rest == [c] + ([d] + rest);
    JoinedMore(c, [d] + rest);
    JoinedMore(d, rest);
    Associative("\\" + c, "\\" + d, Joined(rest));
    Associative("\\" + c, "\\", d);
  }

  lemma ExtendedPrefix(path: string, front: string)
    requires front <= Joined(WithoutDots(Split(path)))
    ensures EXTENDED + front <= Extended(path) && Extended(path)[..2] == "\\\\"
  {
  }
}
