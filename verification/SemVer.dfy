/**
 Precedence of versions, as Masterminds/semver compares them and as sections 10
 and 11 of Semantic Versioning 2.0.0 define it.
 */
module SemVer {
  import opened Lexical

  datatype Ident = Numeric(n: nat) | Alphanumeric(s: string)

  /** A parsed version; `original` is the string it was parsed from. */
  datatype Version = Version(major: nat, minor: nat, patch: nat, pre: seq<Ident>, metadata: string, original: string)

  function CompareNat(a: nat, b: nat): int {
    if a < b then -1 else if a > b then 1 else 0
  }

  /** comparePrePart on two identifiers that are present. */
  function CompareIdent(a: Ident, b: Ident): int {
    match (a, b)
    case (Numeric(m), Numeric(n)) => CompareNat(m, n)
    case (Numeric(_), Alphanumeric(_)) => -1
    case (Alphanumeric(_), Numeric(_)) => 1
    case (Alphanumeric(s), Alphanumeric(t)) => if s == t then 0 else if Less(t, s) then 1 else -1
  }

  /** comparePrerelease: identifier by identifier; a missing identifier is lower than any other. */
  function ComparePre(a: seq<Ident>, b: seq<Ident>): int {
    if a == [] && b == [] then 0
    else if a == [] then -1
    else if b == [] then 1
    else if CompareIdent(a[0], b[0]) != 0 then CompareIdent(a[0], b[0])
    else ComparePre(a[1..], b[1..])
  }

  /** Version.Compare. */
  function Compare(a: Version, b: Version): int {
    if CompareNat(a.major, b.major) != 0 then CompareNat(a.major, b.major)
    else if CompareNat(a.minor, b.minor) != 0 then CompareNat(a.minor, b.minor)
    else if CompareNat(a.patch, b.patch) != 0 then CompareNat(a.patch, b.patch)
    else if a.pre == [] && b.pre == [] then 0
    else if a.pre == [] then 1
    else if b.pre == [] then -1
    else ComparePre(a.pre, b.pre)
  }

  predicate LessThan(a: Version, b: Version) {
    Compare(a, b) < 0
  }

  predicate SamePrecedence(a: Version, b: Version) {
    Compare(a, b) == 0
  }

  /** What precedence looks at: everything but the build metadata. */
  function Key(v: Version): (nat, nat, nat, seq<Ident>) {
    (v.major, v.minor, v.patch, v.pre)
  }

  lemma IdentOrder(a: Ident, b: Ident)
    ensures CompareIdent(a, b) == -CompareIdent(b, a)
    ensures CompareIdent(a, b) == 0 <==> a == b
  {
    if a.Alphanumeric? && b.Alphanumeric? {
      LessTotal(a.s, b.s);
      LessIrreflexive(a.s);
      if Less(a.s, b.s) && Less(b.s, a.s) { LessTransitive(a.s, b.s, a.s); }
    }
  }

  lemma IdentTransitive(a: Ident, b: Ident, c: Ident)
    requires CompareIdent(a, b) < 0 && CompareIdent(b, c) < 0
    ensures CompareIdent(a, c) < 0
  {
    if a.Alphanumeric? && b.Alphanumeric? && c.Alphanumeric? {
      LessTotal(a.s, b.s);
      LessTotal(b.s, c.s);
      LessTransitive(a.s, b.s, c.s);
      LessIrreflexive(a.s);
      IdentOrder(a, c);
      if Less(c.s, a.s) { LessTransitive(a.s, c.s, a.s); }
    }
  }

  lemma {:induction false} PreOrder(a: seq<Ident>, b: seq<Ident>)
    ensures ComparePre(a, b) == -ComparePre(b, a)
    ensures ComparePre(a, b) == 0 <==> a == b
  {
    if a != [] && b != [] {
      IdentOrder(a[0], b[0]);
      PreOrder(a[1..], b[1..]);
      assert a == [a[0]] + a[1..] && b == [b[0]] + b[1..];
    }
  }

  lemma {:induction false} PreTransitive(a: seq<Ident>, b: seq<Ident>, c: seq<Ident>)
    requires ComparePre(a, b) < 0 && ComparePre(b, c) < 0
    ensures ComparePre(a, c) < 0
  {
    if a != [] && b != [] && c != [] {
      IdentOrder(a[0], b[0]);
      IdentOrder(b[0], c[0]);
      if CompareIdent(a[0], b[0]) < 0 && CompareIdent(b[0], c[0]) < 0 {
        IdentTransitive(a[0], b[0], c[0]);
      } else if CompareIdent(a[0], b[0]) == 0 && CompareIdent(b[0], c[0]) == 0 {
        PreTransitive(a[1..], b[1..], c[1..]);
      }
    }
  }

  /** Precedence is decided both ways alike, and ties exactly when all but the metadata agrees. */
  lemma CompareOrder(a: Version, b: Version)
    ensures Compare(a, b) == -Compare(b, a)
    ensures SamePrecedence(a, b) <==> Key(a) == Key(b)
  {
    PreOrder(a.pre, b.pre);
  }

  lemma LessThanTransitive(a: Version, b: Version, c: Version)
    requires LessThan(a, b) && LessThan(b, c)
    ensures LessThan(a, c)
  {
    if a.pre != [] && b.pre != [] && c.pre != [] && ComparePre(a.pre, b.pre) < 0 && ComparePre(b.pre, c.pre) < 0 {
      PreTransitive(a.pre, b.pre, c.pre);
    }
  }

  /** "Not less than" is a total preorder, and build metadata does not matter to it. */
  lemma PrecedenceIsTotalPreorder(a: Version, b: Version, c: Version)
    ensures !LessThan(a, a)
    ensures !LessThan(a, b) || !LessThan(b, a)
    ensures !LessThan(a, b) && !LessThan(b, c) ==> !LessThan(a, c)
    ensures Key(a) == Key(b) ==> Compare(a, c) == Compare(b, c) && Compare(c, a) == Compare(c, b)
  {
    CompareOrder(a, a);
    CompareOrder(a, b);
    CompareOrder(b, c);
    CompareOrder(a, c);
    if !LessThan(a, b) && !LessThan(b, c) {
      if LessThan(b, a) && LessThan(c, b) {
        LessThanTransitive(c, b, a);
      }
    }
  }

  // ----- precedence on the fields, as section 11 words it -----

  /** Major, minor and patch are compared in this order. */
  predicate TripleBelow(a: Version, b: Version) {
    || a.major < b.major
    || (a.major == b.major && a.minor < b.minor)
    || (a.major == b.major && a.minor == b.minor && a.patch < b.patch)
  }

  predicate SameTriple(a: Version, b: Version) {
    a.major == b.major && a.minor == b.minor && a.patch == b.patch
  }

  /** Numbers are compared by value, numeric ones are below the others, and text is compared byte by byte. */
  ghost predicate IdentBelow(a: Ident, b: Ident) {
    || (a.Numeric? && b.Numeric? && a.n < b.n)
    || (a.Numeric? && b.Alphanumeric?)
    || (a.Alphanumeric? && b.Alphanumeric? && exists i: nat :: LowerAt(a.s, b.s, i))
  }

  /** At place `i`, the first one at which they differ, `a` ends or has the lower identifier. */
  ghost predicate PreBelowAt(a: seq<Ident>, b: seq<Ident>, i: nat) {
    i <= |a| && i < |b| && a[..i] == b[..i] && (i == |a| || IdentBelow(a[i], b[i]))
  }

  /** `a` has lower precedence than `b`. */
  ghost predicate Precedes(a: Version, b: Version) {
    || TripleBelow(a, b)
    || (SameTriple(a, b) && a.pre != [] && b.pre == [])
    || (SameTriple(a, b) && a.pre != [] && b.pre != [] && exists i: nat :: PreBelowAt(a.pre, b.pre, i))
  }

  lemma IdentBelowIff(a: Ident, b: Ident)
    ensures CompareIdent(a, b) < 0 <==> IdentBelow(a, b)
    ensures CompareIdent(a, b) == 0 <==> a == b
    ensures IdentBelow(a, b) ==> a != b
  {
    IdentOrder(a, b);
    if a.Alphanumeric? && b.Alphanumeric? {
      LessTotal(a.s, b.s);
      LessIrreflexive(a.s);
      if Less(a.s, b.s) && Less(b.s, a.s) { LessTransitive(a.s, b.s, a.s); }
      LessIff(a.s, b.s);
    }
  }

  lemma PreBelowTail(a: seq<Ident>, b: seq<Ident>, i: nat)
    requires a != [] && b != [] && a[0] == b[0]
    ensures PreBelowAt(a[1..], b[1..], i) <==> PreBelowAt(a, b, i + 1)
  {
    if i + 1 <= |a| && i + 1 <= |b| {
      assert a[..i+1] == [a[0]] + a[1..][..i] && b[..i+1] == [b[0]] + b[1..][..i];
    }
  }

  lemma {:induction false} PreBelowIff(a: seq<Ident>, b: seq<Ident>)
    ensures ComparePre(a, b) < 0 <==> exists i: nat :: PreBelowAt(a, b, i)
  {
    if a != [] && b != [] {
      IdentBelowIff(a[0], b[0]);
      if a[0] == b[0] {
        PreBelowIff(a[1..], b[1..]);
        if i: nat :| PreBelowAt(a[1..], b[1..], i) {
          PreBelowTail(a, b, i);
        }
        if i: nat :| PreBelowAt(a, b, i) {
          PreBelowTail(a, b, i - 1);
        }
      } else {
        assert IdentBelow(a[0], b[0]) ==> PreBelowAt(a, b, 0);
        forall i: nat ensures PreBelowAt(a, b, i) ==> i == 0 {
          if 0 < i <= |a| && i <= |b| {
            assert a[..i][0] == a[0] && b[..i][0] == b[0];
          }
        }
      }
    } else {
      assert a == [] && b != [] ==> PreBelowAt(a, b, 0);
    }
  }

  /** The comparison is that of section 11. */
  lemma LessThanIffPrecedes(a: Version, b: Version)
    ensures LessThan(a, b) <==> Precedes(a, b)
  {
    PreBelowIff(a.pre, b.pre);
  }
}
