/** What a line of an ignore file ignores, said on the text of the line and the names in the path. */
module IgnoreLines {
  import opened Wrappers
  import opened FileTree
  import opened SecureLoader
  import opened ChartNames
  import opened IgnoreRules

  predicate Blank(s: string) {
    forall i :: 0 <= i < |s| ==> IsSpace(s[i])
  }

  /** No space at either end. */
  predicate Tight(s: string) {
    s != "" && !IsSpace(s[0]) && !IsSpace(s[|s|-1])
  }

  lemma {:induction false} TrimBehind(s: string, behind: string)
    requires Tight(s) && Blank(behind)
    ensures TrimSpace(s + behind) == s
    decreases |behind|
  {
    var t := s + behind;
    assert t[0] == s[0];
    if behind == [] {
      assert t == s;
    } else {
      assert t[|t|-1] == behind[|behind|-1] && t[..|t|-1] == s + behind[..|behind|-1];
      TrimBehind(s, behind[..|behind|-1]);
    }
  }

  /** White space around a line does not count. */
  lemma {:induction false} TrimAround(front: string, s: string, behind: string)
    requires Tight(s) && Blank(front) && Blank(behind)
    ensures TrimSpace(front + s + behind) == s
    decreases |front|
  {
    if front == [] {
      assert front + s + behind == s + behind;
      TrimBehind(s, behind);
    } else {
      assert (front + s + behind)[0] == front[0] && (front + s + behind)[1..] == front[1..] + s + behind;
      TrimAround(front[1..], s, behind);
    }
  }

  lemma {:induction false} TrimBlank(s: string)
    requires Blank(s)
    ensures TrimSpace(s) == ""
  {
    if s != "" {
      TrimBlank(s[1..]);
    }
  }

  // ----- the name at the end of a path -----

  lemma {:induction false} AfterNoSlash(s: string)
    requires '/' !in s
    ensures AfterLastSlash(s) == s
  {
    if s != "" {
      assert s[|s|-1] in s && s == s[..|s|-1] + [s[|s|-1]];
      AfterNoSlash(s[..|s|-1]);
    }
  }

  lemma {:induction false} AfterTheSlash(front: string, name: string)
    requires '/' !in name
    ensures AfterLastSlash(front + "/" + name) == name
    decreases |name|
  {
    var s := front + "/" + name;
    if name == "" {
      assert s[|s|-1] == '/';
    } else {
      var shorter := name[..|name|-1];
      assert s[|s|-1] == name[|name|-1] && s[|s|-1] in name && s[..|s|-1] == front + "/" + shorter;
      AfterTheSlash(front, shorter);
      assert name == shorter + [name[|name|-1]];
    }
  }

  lemma {:induction false} SlashSnoc(p: Path, n: Name)
    requires p != []
    ensures Slash(p + [n]) == Slash(p) + "/" + n
  {
    if |p| == 1 {
      assert (p + [n])[1..] == [n];
    } else {
      assert (p + [n])[1..] == p[1..] + [n];
      SlashSnoc(p[1..], n);
      assert p[0] + "/" + (Slash(p[1..]) + "/" + n) == (p[0] + "/" + Slash(p[1..])) + "/" + n;
    }
  }

  predicate Slashes(s: string) {
    forall i :: 0 <= i < |s| ==> s[i] == '/'
  }

  lemma {:induction false} TrimmedSlashes(s: string, behind: string)
    requires Slashes(behind) && (s == "" || s[|s|-1] != '/')
    ensures TrimTrailingSlashes(s + behind) == s
    decreases |behind|
  {
    var t := s + behind;
    if behind == "" {
      assert t == s;
    } else {
      assert t[|t|-1] == behind[|behind|-1] && t[..|t|-1] == s + behind[..|behind|-1];
      TrimmedSlashes(s, behind[..|behind|-1]);
    }
  }

  /** The base of a path is its last name without the slashes behind it; of slashes only one is left, of nothing a dot. */
  lemma BaseIs(front: string, name: string, behind: string)
    requires Slashes(behind)
    ensures Base("") == "." && (behind != "" ==> Base(behind) == "/")
    ensures name != "" && '/' !in name ==> Base(name + behind) == name && Base(front + "/" + name + behind) == name
  {
    TrimmedSlashes("", behind);
    assert "" + behind == behind;
    if name != "" && '/' !in name {
      assert name[|name|-1] in name;
      TrimmedSlashes(name, behind);
      AfterNoSlash(name);
      TrimmedSlashes(front + "/" + name, behind);
      AfterTheSlash(front, name);
    }
  }

  /** A pattern without a slash is matched against the last name of the path. */
  lemma BaseIsLast(p: Path, n: Name)
    requires ValidPath(p + [n])
    ensures Base(Slash(p + [n])) == n
  {
    assert ValidName(n) by { assert n in p + [n]; }
    var s := Slash(p + [n]);
    if p == [] {
      assert s == n;
      AfterNoSlash(n);
    } else {
      SlashSnoc(p, n);
      AfterTheSlash(Slash(p), n);
    }
    assert s != "" && s[|s|-1] == n[|n|-1] && n[|n|-1] in n;
    assert TrimTrailingSlashes(s) == s;
  }

  // ----- the meaning of a line -----

  /** The pattern of a line, between an exclamation mark, if it is `negated`, and a slash, if it is for directories. */
  predicate IsLine(line: string, negated: bool, pattern: string, directories: bool) {
    && line == (if negated then "!" else "") + pattern + (if directories then "/" else "")
    && Tight(line) && pattern != "" && pattern[|pattern|-1] != '/'
    && line[0] != '#' && (line[0] == '!' ==> negated)
  }

  /** What the pattern applies to: a leading slash anchors it, and without any slash it is about the last name. */
  predicate PatternHits(glob: Glob, pattern: string, p: Path, n: Name) {
    if pattern != "" && pattern[0] == '/' then glob(pattern[1..], Slash(p + [n])) == Some(true)
    else if '/' in pattern then glob(pattern, Slash(p + [n])) == Some(true)
    else glob(pattern, n) == Some(true)
  }

  lemma ContainsSlash(s: string)
    ensures Contains(s, "/") <==> '/' in s
  {
    if i :| 0 <= i <= |s| && HasPrefix(s[i..], "/") {
      assert s[i] == s[i..][0];
    }
    if '/' in s {
      var i :| 0 <= i < |s| && s[i] == '/';
      assert s[i..][0] == '/' && HasPrefix(s[i..], "/");
    }
  }

  lemma LineParts(line: string, negated: bool, pattern: string, directories: bool)
    requires IsLine(line, negated, pattern, directories)
    ensures HasPrefix(line, "!") <==> negated
    ensures HasSuffix(TrimPrefix(line, "!"), "/") <==> directories
    ensures TrimSuffix(TrimPrefix(line, "!"), "/") == pattern
    ensures !HasPrefix(line, "#")
  {
    var positive := TrimPrefix(line, "!");
    assert positive == pattern + if directories then "/" else "";
    assert positive[|positive|-1] == if directories then '/' else pattern[|pattern|-1];
    assert HasSuffix(positive, "/") <==> directories;
  }

  lemma LineParsed(glob: Glob, front: string, line: string, behind: string, negated: bool, pattern: string, directories: bool)
    requires IsLine(line, negated, pattern, directories) && Blank(front) && Blank(behind)
    requires !Contains(line, "**") && glob(line, "abc").Some?
    ensures var parsed := ParseRule(glob, front + line + behind);
      && parsed.Parsed? && parsed.rule.negate == negated && parsed.rule.mustDir == directories
      && parsed.rule.rule == pattern
      && parsed.rule.kind == if pattern[0] == '/' then Anchored else if '/' in pattern then Structural else Basename
  {
    TrimAround(front, line, behind);
    LineParts(line, negated, pattern, directories);
    ContainsSlash(pattern);
  }

  /**
   What a well-formed line ignores: what its pattern hits, directories only if it ends in a slash, or, if it begins
   with an exclamation mark, everything but that.
   */
  lemma LineIgnores(glob: Glob, front: string, line: string, behind: string,
                    negated: bool, pattern: string, directories: bool, p: Path, n: Name, isDir: bool)
    requires IsLine(line, negated, pattern, directories) && Blank(front) && Blank(behind)
    requires !Contains(line, "**") && glob(line, "abc").Some?
    requires ValidPath(p + [n])
    ensures ParseRule(glob, front + line + behind).Parsed?
    ensures IgnoreRules.Ignored(glob, [ParseRule(glob, front + line + behind).rule], Slash(p + [n]), isDir)
       <==> negated != ((directories ==> isDir) && PatternHits(glob, pattern, p, n))
  {
    LineParsed(glob, front, line, behind, negated, pattern, directories);
    var r := ParseRule(glob, front + line + behind).rule;
    BaseIsLast(p, n);
    SlashBegins(p + [n]);
    assert r in [r];
  }

  /** Blank lines and comments yield no rule. */
  lemma NoRule(glob: Glob, front: string, rest: string)
    requires Blank(front)
    ensures ParseRule(glob, front) == Nothing
    ensures Tight(rest) && rest[0] == '#' ==> ParseRule(glob, front + rest) == Nothing
  {
    TrimBlank(front);
    if Tight(rest) {
      TrimAround(front, rest, "");
      assert front + rest + "" == front + rest;
    }
  }

  /** A doubled asterisk or a pattern that the glob rejects make a line malformed. */
  lemma MalformedLine(glob: Glob, front: string, line: string, behind: string)
    requires Tight(line) && Blank(front) && Blank(behind) && line[0] != '#'
    ensures ParseRule(glob, front + line + behind).Malformed? <==> Contains(line, "**") || glob(line, "abc").None?
  {
    TrimAround(front, line, behind);
  }

  /** A byte order mark is dropped from the first line of a file, and nothing else from any line. */
  lemma OnlyTheMarkIsDropped(first: string, others: seq<string>)
    ensures WithoutBom(["\U{EF}\U{BB}\U{BF}" + first] + others) == [first] + others
    ensures !("\U{EF}\U{BB}\U{BF}" <= first) ==> WithoutBom([first] + others) == [first] + others
    ensures WithoutBom([]) == []
  {
    assert ("\U{EF}\U{BB}\U{BF}" + first)[3..] == first;
  }
}
