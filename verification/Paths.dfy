/** Portable relative paths: their database order, their depth and their ancestors. */
module Paths {
  import opened Ordering

  type Path = string

  /** The index's collation: lexicographic by code unit. */
  predicate Less(a: Path, b: Path) {
    if b == "" then false
    else if a == "" then true
    else if a[0] != b[0] then a[0] < b[0]
    else Less(a[1..], b[1..])
  }

  lemma {:induction false} LessIrreflexive(a: Path)
    ensures !Less(a, a)
  {
    if a != "" { LessIrreflexive(a[1..]); }
  }

  lemma {:induction false} LessConnected(a: Path, b: Path)
    requires a != b
    ensures Less(a, b) || Less(b, a)
  {
    if a != "" && b != "" && a[0] == b[0] {
      assert a == [a[0]] + a[1..] && b == [b[0]] + b[1..];
      LessConnected(a[1..], b[1..]);
    }
  }

  lemma {:induction false} LessTransitive(a: Path, b: Path, d: Path)
    requires Less(a, b) && Less(b, d)
    ensures Less(a, d)
  {
    if a != "" && a[0] == b[0] == d[0] {
      LessTransitive(a[1..], b[1..], d[1..]);
    }
  }

  function ByPath(): (Path, Path) -> bool { (a: Path, b: Path) => Less(a, b) }

  lemma ByPathIsStrictTotal()
    ensures StrictTotal(ByPath())
  {
    forall a: Path, b: Path, d: Path
      ensures !Less(a, a)
      ensures a != b ==> Less(a, b) || Less(b, a)
      ensures Less(a, b) && Less(b, d) ==> Less(a, d)
    {
      LessIrreflexive(a);
      if a != b { LessConnected(a, b); }
      if Less(a, b) && Less(b, d) { LessTransitive(a, b, d); }
    }
  }

  /** The number of separators: `length(path)-length(replace(path,'/',''))`. */
  function Depth(p: Path): nat {
    if p == "" then 0 else (if p[0] == '/' then 1 else 0) + Depth(p[1..])
  }

  /** `a` names a directory that contains `p`, directly or not. */
  predicate Contains(a: Path, p: Path) {
    |a| < |p| && p[..|a|] == a && p[|a|] == '/'
  }

  lemma {:induction false} DepthOfConcatenation(a: Path, b: Path)
    ensures Depth(a + b) == Depth(a) + Depth(b)
  {
    if a == "" {
      assert a + b == b;
    } else {
      assert (a + b)[1..] == a[1..] + b;
      DepthOfConcatenation(a[1..], b);
    }
  }

  /** Everything inside a directory is strictly deeper than it. */
  lemma ContainedIsDeeper(a: Path, p: Path)
    requires Contains(a, p)
    ensures Depth(a) < Depth(p)
  {
    assert p == a + p[|a|..];
    DepthOfConcatenation(a, p[|a|..]);
  }
}
