/**
 * Relative file paths, as the license-file globbing yields them, and the order in
 * which `sorted()` puts them. A POSIX path compares component by component, each
 * component as a string compares (character by character).
 */
module Paths {
  import Text

  /** A relative path, as its list of components. */
  type Path = seq<string>

  /** `path.as_posix()` */
  function AsPosix(p: Path): string {
    Text.Join(p, "/")
  }

  /** Python's `<` on strings. */
  predicate StrLess(a: string, b: string) {
    if |a| == 0 then |b| > 0
    else if |b| == 0 then false
    else if a[0] == b[0] then StrLess(a[1..], b[1..])
    else a[0] < b[0]
  }

  /** Python's `<` on POSIX paths. */
  predicate PathLess(p: Path, q: Path) {
    if |p| == 0 then |q| > 0
    else if |q| == 0 then false
    else if p[0] == q[0] then PathLess(p[1..], q[1..])
    else StrLess(p[0], q[0])
  }

  lemma {:induction false} StrLessIrreflexive(a: string)
    ensures !StrLess(a, a)
  {
    if |a| > 0 {
      StrLessIrreflexive(a[1..]);
    }
  }

  lemma {:induction false} StrLessTransitive(a: string, b: string, c: string)
    requires StrLess(a, b) && StrLess(b, c)
    ensures StrLess(a, c)
  {
    if |a| > 0 && |b| > 0 && |c| > 0 && a[0] == b[0] && b[0] == c[0] {
      StrLessTransitive(a[1..], b[1..], c[1..]);
    }
  }

  lemma {:induction false} StrLessTotal(a: string, b: string)
    requires a != b
    ensures StrLess(a, b) || StrLess(b, a)
  {
    if |a| > 0 && |b| > 0 && a[0] == b[0] {
      assert a == [a[0]] + a[1..] && b == [b[0]] + b[1..];
      StrLessTotal(a[1..], b[1..]);
    }
  }

  lemma {:induction false} PathLessIrreflexive(p: Path)
    ensures !PathLess(p, p)
  {
    if |p| > 0 {
      PathLessIrreflexive(p[1..]);
    }
  }

  lemma {:induction false} PathLessTransitive(p: Path, q: Path, r: Path)
    requires PathLess(p, q) && PathLess(q, r)
    ensures PathLess(p, r)
  {
    if |p| > 0 && |q| > 0 && |r| > 0 {
      if p[0] == q[0] && q[0] == r[0] {
        PathLessTransitive(p[1..], q[1..], r[1..]);
      } else if p[0] != q[0] && q[0] != r[0] {
        StrLessTransitive(p[0], q[0], r[0]);
        if p[0] == r[0] {
          StrLessIrreflexive(p[0]);
          StrLessTransitive(p[0], q[0], p[0]);
        }
      }
    }
  }

  lemma {:induction false} PathLessTotal(p: Path, q: Path)
    requires p != q
    ensures PathLess(p, q) || PathLess(q, p)
  {
    if |p| > 0 && |q| > 0 {
      if p[0] == q[0] {
        assert p == [p[0]] + p[1..] && q == [q[0]] + q[1..];
        PathLessTotal(p[1..], q[1..]);
      } else {
        StrLessTotal(p[0], q[0]);
      }
    }
  }

  /** Strictly increasing, hence free of duplicates. */
  predicate StrictlySorted(s: seq<Path>) {
    forall i, j :: 0 <= i < j < |s| ==> PathLess(s[i], s[j])
  }

  /** Inserting into a strictly sorted list of paths. */
  function Insert(x: Path, s: seq<Path>): (r: seq<Path>)
    requires StrictlySorted(s)
    ensures StrictlySorted(r)
    ensures forall y :: y in r <==> y == x || y in s
  {
    if |s| == 0 then [x]
    else if x == s[0] then s
    else if PathLess(x, s[0]) then
      assert forall j :: 0 <= j < |s| ==> PathLess(x, s[j]) by {
        forall j | 0 < j < |s| ensures PathLess(x, s[j]) {
          PathLessTransitive(x, s[0], s[j]);
        }
      }
      [x] + s
    else
      PathLessTotal(x, s[0]);
      var rest := Insert(x, s[1..]);
      assert forall y :: y in rest ==> PathLess(s[0], y);
      [s[0]] + rest
  }

  /** `sorted(set(paths))`: every path once, in increasing order. */
  function SortedUnique(paths: seq<Path>): (r: seq<Path>)
    ensures StrictlySorted(r)
    ensures forall y :: y in r <==> y in paths
  {
    if |paths| == 0 then []
    else
      var rest := SortedUnique(paths[1..]);
      assert forall y :: y in paths <==> y == paths[0] || y in paths[1..];
      Insert(paths[0], rest)
  }

  /** A strictly sorted list holds no path twice. */
  lemma SortedHasNoDuplicates(s: seq<Path>, i: nat, j: nat)
    requires StrictlySorted(s)
    requires i < j < |s|
    ensures s[i] != s[j]
  {
    PathLessIrreflexive(s[i]);
  }
}
