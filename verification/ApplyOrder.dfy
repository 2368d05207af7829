/** The order in which `apply_pending` visits paths (share.rs:730). */
module ApplyOrder {
  import opened Results
  import opened Ordering
  import opened Paths
  import opened Register
  import opened Index

  /** The heads of every recorded path; applying rows does not change them. */
  type HeadMap = map<Path, Heads>

  function HeadsOf(t: Tables): HeadMap {
    map p | p in t.rows :: t.rows[p].versions
  }

  /** Every head is a deletion. */
  predicate Removing(heads: HeadMap, p: Path) {
    p in heads && forall r :: r in heads[p] ==> r.content == Deleted
  }

  /** The rows `apply_pending` may touch: unacknowledged and not under deletion review. */
  function Candidates(t: Tables): set<Path> {
    set p | p in t.rows && t.rows[p].versions != t.rows[p].observed && p !in t.pending
  }

  /** `ORDER BY removing, CASE WHEN removing THEN -depth ELSE depth END, path`. */
  predicate Before(heads: HeadMap, a: Path, b: Path) {
    if Removing(heads, a) != Removing(heads, b) then Removing(heads, b)
    else if Depth(a) != Depth(b) then (if Removing(heads, a) then Depth(a) > Depth(b) else Depth(a) < Depth(b))
    else Less(a, b)
  }

  function ByApplication(heads: HeadMap): (Path, Path) -> bool {
    (a: Path, b: Path) => Before(heads, a, b)
  }

  lemma ByApplicationIsStrictTotal(heads: HeadMap)
    ensures StrictTotal(ByApplication(heads))
  {
    forall a: Path, b: Path, d: Path
      ensures !Before(heads, a, a)
      ensures a != b ==> Before(heads, a, b) || Before(heads, b, a)
      ensures Before(heads, a, b) && Before(heads, b, d) ==> Before(heads, a, d)
    {
      LessIrreflexive(a);
      if a != b { LessConnected(a, b); }
      if Less(a, b) && Less(b, d) { LessTransitive(a, b, d); }
    }
  }

  /** All creations come before all removals. */
  lemma CreationsBeforeRemovals(heads: HeadMap, s: set<Path>, i: nat, j: nat)
    requires StrictTotal(ByApplication(heads)) && i < |s| && j < |s|
    requires var l := Listing(ByApplication(heads), s); !Removing(heads, l[i]) && Removing(heads, l[j])
    ensures i < j
  {
    var l := Listing(ByApplication(heads), s);
    assert !ByApplication(heads)(l[j], l[i]);
  }

  /** A directory is created before anything inside it. */
  lemma ParentsFirst(heads: HeadMap, s: set<Path>, i: nat, j: nat)
    requires StrictTotal(ByApplication(heads)) && i < |s| && j < |s|
    requires var l := Listing(ByApplication(heads), s);
      Contains(l[i], l[j]) && !Removing(heads, l[i]) && !Removing(heads, l[j])
    ensures i < j
  {
    var l := Listing(ByApplication(heads), s);
    ContainedIsDeeper(l[i], l[j]);
    assert !ByApplication(heads)(l[j], l[i]);
  }

  /** A directory is removed only after everything to be removed inside it. */
  lemma DescendantsRemovedFirst(heads: HeadMap, s: set<Path>, i: nat, j: nat)
    requires StrictTotal(ByApplication(heads)) && i < |s| && j < |s|
    requires var l := Listing(ByApplication(heads), s);
      Contains(l[i], l[j]) && Removing(heads, l[i]) && Removing(heads, l[j])
    ensures j < i
  {
    var l := Listing(ByApplication(heads), s);
    ContainedIsDeeper(l[i], l[j]);
    assert !ByApplication(heads)(l[i], l[j]);
  }

  /** Some head of the path is not a deletion. */
  predicate Stays(t: Tables, p: Path) {
    exists r :: r in VersionsAt(t, p) && r.content != Deleted
  }

  /** What stays before what goes; shallow before deep among what stays, deep before shallow among what goes; then by path. */
  predicate ComesBefore(t: Tables, a: Path, b: Path) {
    if Stays(t, a) != Stays(t, b) then Stays(t, a)
    else if Depth(a) != Depth(b) then (if Stays(t, a) then Depth(a) < Depth(b) else Depth(b) < Depth(a))
    else Less(a, b)
  }

  predicate InApplicationOrder(t: Tables, paths: seq<Path>) {
    forall i, j :: 0 <= i < j < |paths| ==> ComesBefore(t, paths[i], paths[j])
  }

  lemma RowsInOrder(t: Tables, s: set<Path>, paths: seq<Path>)
    requires StrictTotal(ByApplication(HeadsOf(t))) && s <= t.rows.Keys && paths <= Listing(ByApplication(HeadsOf(t)), s)
    ensures InApplicationOrder(t, paths)
  {
    var l := Listing(ByApplication(HeadsOf(t)), s);
    forall i, j | 0 <= i < j < |paths| ensures ComesBefore(t, paths[i], paths[j]) {
      assert paths[i] == l[i] && paths[j] == l[j] && l[i] in Elements(l) && l[j] in Elements(l);
      assert ByApplication(HeadsOf(t))(l[i], l[j]);
      RemovingGoes(t, l[i]);
      RemovingGoes(t, l[j]);
    }
  }

  lemma RemovingGoes(t: Tables, p: Path)
    requires p in t.rows
    ensures Removing(HeadsOf(t), p) <==> !Stays(t, p)
  {
  }
}
