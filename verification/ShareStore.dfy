/** A folder index with its paging loops (src/share.rs, src/sync.rs), proved against the tables of `Index`. */
module ShareStore {
  import opened Results
  import Clocks
  import opened Ordering
  import opened Paths
  import opened Register
  import opened Lattice
  import opened Index
  import opened Effects
  import opened Scans
  import opened Choices
  import opened ApplyOrder

  const PAGE := 256
  const METADATA_PAGE := 32
  const OBJECT_PAGE := 16

  // ---- Whole operations on tables: one path after another, in database order ----

  ghost function PathList(s: set<Path>): seq<Path> {
    ByPathIsStrictTotal();
    Listing(ByPath(), s)
  }

  ghost function ScanSeen(c: Codec, t: Tables, disk: map<Path, Content>, paths: seq<Path>): Result<Tables>
    requires Faithful(c)
    decreases |paths|
  {
    if paths == [] then Ok(t)
    else if paths[0] !in disk then Err(Unknown)
    else
      var next :- ScanPath(c, t, paths[0], Some(disk[paths[0]]), false);
      ScanSeen(c, next, disk, paths[1..])
  }

  ghost function ScanMissing(c: Codec, t: Tables, approve: bool, paths: seq<Path>): Result<Tables>
    requires Faithful(c)
    decreases |paths|
  {
    if paths == [] then Ok(t)
    else if paths[0] !in t.rows then Err(Unknown)
    else
      var next :- ScanPath(c, t, paths[0], None, approve);
      ScanMissing(c, next, approve, paths[1..])
  }

  function WithObjects(t: Tables, disk: map<Path, Content>): Tables {
    t.(objects := t.objects + set p | p in disk && disk[p].File? :: disk[p].hash)
  }

  /** `scan_inner`: everything on disk, then everything recorded that is not. */
  ghost function Scanned(c: Codec, t: Tables, disk: map<Path, Content>, approve: bool): Result<Tables>
    requires Faithful(c)
  {
    var seen :- ScanSeen(c, WithObjects(t, disk), disk, PathList(disk.Keys));
    ScanMissing(c, seen, approve, PathList(seen.rows.Keys - disk.Keys))
  }

  ghost function CommitEach(c: Codec, t: Tables, paths: seq<Path>): Result<Tables>
    requires Faithful(c)
    decreases |paths|
  {
    if paths == [] then Ok(t)
    else if paths[0] !in t.incoming then Err(Unknown)
    else
      var next :- CommitOne(c, t, paths[0]);
      CommitEach(c, next, paths[1..])
  }

  /** The merge transaction of `commit_incoming`. */
  ghost function Merged(c: Codec, t: Tables): Result<Tables>
    requires Faithful(c)
  {
    var merged :- CommitEach(c, t, PathList(t.incoming.Keys));
    Ok(merged.(incoming := map[]))
  }

  ghost function StageEach(c: Codec, t: Tables, records: seq<Record>): Result<Tables>
    requires Faithful(c)
    decreases |records|
  {
    if records == [] then Ok(t)
    else
      var next :- StageOne(c, t, records[0].path, records[0].versions);
      StageEach(c, next, records[1..])
  }

  ghost function AcknowledgeEach(c: Codec, t: Tables, paths: seq<Path>): Result<Tables>
    decreases |paths|
  {
    if paths == [] then Ok(t)
    else
      var next :- Acknowledge(c, t, paths[0]);
      AcknowledgeEach(c, next, paths[1..])
  }

  /** What remains of `s` after `after` in database order. */
  function Beyond(s: set<Path>, after: Path): set<Path> {
    set p | p in s && Less(after, p)
  }

  lemma EverythingIsBeyondTheEmptyPath(s: set<Path>)
    requires "" !in s
    ensures Beyond(s, "") == s
  {
    assert forall p :: p in s ==> Less("", p);
  }

  /** Only the handled paths may differ. */
  ghost predicate SameBut(disk: map<Path, Content>, disk': map<Path, Content>, handled: seq<Path>) {
    forall p :: p !in handled ==> (p in disk <==> p in disk') && (p in disk ==> disk'[p] == disk[p])
  }

  lemma SameButOneMore(disk: map<Path, Content>, disk': map<Path, Content>, disk'': map<Path, Content>, handled: seq<Path>, p: Path)
    requires SameBut(disk, disk', handled) && SameBut(disk', disk'', [p])
    ensures SameBut(disk, disk'', handled + [p])
  {
  }

  predicate NoneOf(handled: seq<Path>, pending: set<Path>) {
    forall p :: p in handled ==> p !in pending
  }

  lemma NoneOfOneMore(handled: seq<Path>, pending: set<Path>, p: Path)
    requires NoneOf(handled, pending) && p !in pending
    ensures NoneOf(handled + [p], pending)
  {
  }

  function ContentOn(disk: map<Path, Content>, p: Path): Content {
    if p in disk then disk[p] else Deleted
  }

  /** The folder shows at `p` what the preferred head says, and the row knows that it does. */
  predicate Shown(c: Codec, t: Tables, disk: map<Path, Content>, p: Path) {
    && p in t.rows && t.rows[p].observed == t.rows[p].versions
    && t.rows[p].materialized == Visible(ContentOn(disk, p))
    && Selected(c, t.rows[p].versions).Some? && ContentOn(disk, p) == Selected(c, t.rows[p].versions).value.content
  }

  predicate ShownEach(c: Codec, t: Tables, disk: map<Path, Content>, handled: seq<Path>) {
    forall p :: p in handled ==> Shown(c, t, disk, p)
  }

  /** No heads change, and only the rows of handled paths. */
  predicate RowsBut(t: Tables, t': Tables, handled: seq<Path>) {
    && t'.rows.Keys == t.rows.Keys
    && forall p :: p in t.rows ==>
         t'.rows[p].versions == t.rows[p].versions && (p !in handled ==> t'.rows[p] == t.rows[p])
  }

  lemma ShownOneMore(c: Codec, t: Tables, t': Tables, disk: map<Path, Content>, disk': map<Path, Content>, handled: seq<Path>, p: Path)
    requires ShownEach(c, t, disk, handled) && Shown(c, t', disk', p)
    requires RowsBut(t, t', [p]) && SameBut(disk, disk', [p])
    ensures ShownEach(c, t', disk', handled + [p])
  {
    forall q | q in handled + [p] ensures Shown(c, t', disk', q) {
      if q != p { assert q in handled && Shown(c, t, disk, q); }
    }
  }

  lemma RowsButOneMore(t: Tables, t': Tables, t'': Tables, handled: seq<Path>, p: Path)
    requires RowsBut(t, t', handled) && RowsBut(t', t'', [p])
    ensures RowsBut(t, t'', handled + [p])
  {
  }

  lemma ButTwice(t: Tables, t': Tables, t'': Tables, disk: map<Path, Content>, disk': map<Path, Content>, disk'': map<Path, Content>,
                 handled: seq<Path>, handled': seq<Path>)
    requires RowsBut(t, t', handled) && RowsBut(t', t'', handled') && handled <= handled'
    requires SameBut(disk, disk', handled) && SameBut(disk', disk'', handled')
    ensures RowsBut(t, t'', handled') && SameBut(disk, disk'', handled')
  {
    assert forall p :: p in handled ==> p in handled';
  }

  lemma AppliedInOrder(c: Codec, t0: Tables, t: Tables, handled: seq<Path>)
    requires Faithful(c) && Applied(c, t0, t, handled)
    ensures InApplicationOrder(t0, handled)
  {
    ByApplicationIsStrictTotal(HeadsOf(t0));
    assert handled <= ApplicationList(t0);
    RowsInOrder(t0, Candidates(t0), handled);
  }

  lemma NoCandidates(t: Tables)
    requires Candidates(t) == {}
    ensures AllApplied(t)
  {
    forall p | p in t.rows && p !in t.pending ensures t.rows[p].observed == t.rows[p].versions {
      assert p !in Candidates(t);
    }
  }

  /** Every row whose heads are not all taken note of is held back for review. */
  /** The folder never puts a directory in place of a file or the reverse, and removes a directory only when it is empty. */
  predicate Blocked(disk: map<Path, Content>, p: Path, after: Content) {
    p in disk &&
      (after == Directory || (disk[p] == Directory && (after != Deleted || exists q :: q in disk && Contains(p, q))))
  }

  /** The folder can be brought from `before` to `after`: it is there already, or shows `before` and nothing is in the way. */
  predicate Admits(disk: map<Path, Content>, p: Path, before: Option<Content>, after: Content) {
    var current := if p in disk then Some(disk[p]) else None;
    current == Visible(after) || (current == before && !Blocked(disk, p, after))
  }

  predicate Lands(c: Codec, t: Tables, disk: map<Path, Content>, p: Path) {
    p in t.rows && Selected(c, t.rows[p].versions).Some? &&
      Admits(disk, p, t.rows[p].materialized, Selected(c, t.rows[p].versions).value.content)
  }

  /** The next row to apply cannot be applied to the folder. */
  ghost predicate Stuck(c: Codec, t: Tables, disk: map<Path, Content>) {
    ApplicationList(t) != [] && !Lands(c, t, disk, ApplicationList(t)[0])
  }

  /** A revision that `choose` may be asked for. */
  predicate Eligible(c: Codec, t: Tables, p: Path, revision: nat, historical: bool, h: Revision) {
    p in t.rows && c.id(h) == revision && if historical then (p, h) in t.history else h in t.rows[p].versions
  }

  predicate AllApplied(t: Tables) {
    forall p :: p in t.rows ==> t.rows[p].observed == t.rows[p].versions || p in t.pending
  }

  /** Taking the first of a list at `i` leaves the list at `i + 1`. */
  lemma NextInList(page: seq<Path>, rest: seq<Path>, i: nat)
    requires page <= rest && i < |page|
    ensures rest[i..] != [] && page[i] == rest[i..][0] && rest[i..][1..] == rest[i + 1..]
  {
  }

  /** The next page starts where the last one stopped. */
  lemma PageResumes(s: set<Path>, after: Path, n: nat)
    requires 0 < n <= |Beyond(s, after)|
    ensures PathList(Beyond(s, PathList(Beyond(s, after))[n - 1])) == PathList(Beyond(s, after))[n..]
  {
    ByPathIsStrictTotal();
    var rest := Beyond(s, after);
    var last := PathList(rest)[n - 1];
    assert last in Elements(PathList(rest));
    forall p ensures p in Beyond(s, last) <==> p in rest && ByPath()(last, p) {
      if Less(last, p) { LessTransitive(after, last, p); }
    }
    ListingResumes(ByPath(), rest, n - 1, Beyond(s, last));
  }

  /** `SELECT ... WHERE path > after ORDER BY path LIMIT 256`. */
  method NextPage(keys: set<Path>, after: Path) returns (page: seq<Path>)
    ensures page <= PathList(Beyond(keys, after)) && forall p :: p in page ==> p in keys
    ensures page == [] ==> PathList(Beyond(keys, after)) == []
    ensures page != [] ==> |Beyond(keys, page[|page| - 1])| < |Beyond(keys, after)|
    ensures page != [] ==>
      PathList(Beyond(keys, page[|page| - 1])) == PathList(Beyond(keys, after))[|page|..]
  {
    ByPathIsStrictTotal();
    page := SelectFirst(ByPath(), Beyond(keys, after), PAGE);
    if page != [] { PageResumes(keys, after, |page|); }
    assert forall p :: p in page ==> p in Elements(PathList(Beyond(keys, after)));
  }

  lemma ScanOneSound(c: Codec, t: Tables, p: Path, content: Content)
    requires Faithful(c) && Sound(c, t) && OnDisk(Some(content)) && Stored(t, Some(content))
    requires ScanPath(c, t, p, Some(content), false).Ok?
    ensures var next := ScanPath(c, t, p, Some(content), false).value;
      && Sound(c, next) && next.rows.Keys == t.rows.Keys + {p} && t.objects <= next.objects
      && next.incoming == t.incoming && next.cursors == t.cursors && next.epoch == t.epoch
  {
    ScanKeepsSound(c, t, p, Some(content), false);
    ScanEffect(c, t, p, Some(content), false);
  }

  lemma MissOneSound(c: Codec, t: Tables, p: Path, approve: bool)
    requires Faithful(c) && Sound(c, t) && p in t.rows && ScanPath(c, t, p, None, approve).Ok?
    ensures var next := ScanPath(c, t, p, None, approve).value;
      && Sound(c, next) && next.rows.Keys == t.rows.Keys && t.objects <= next.objects
      && next.incoming == t.incoming && next.cursors == t.cursors && next.epoch == t.epoch
  {
    ScanKeepsSound(c, t, p, None, approve);
    ScanEffect(c, t, p, None, approve);
  }

  /** Scanning paths in turn keeps the index well-formed. */
  lemma {:induction false} ScanSeenSound(c: Codec, t: Tables, disk: map<Path, Content>, paths: seq<Path>)
    requires Faithful(c) && Sound(c, t) && ScanSeen(c, t, disk, paths).Ok?
    requires forall p :: p in disk ==> OnDisk(Some(disk[p])) && Stored(t, Some(disk[p]))
    ensures var after := ScanSeen(c, t, disk, paths).value;
      && Sound(c, after) && after.rows.Keys == t.rows.Keys + Elements(paths) && t.objects <= after.objects
      && after.incoming == t.incoming && after.cursors == t.cursors && after.epoch == t.epoch
    decreases |paths|
  {
    if paths == [] {
    } else {
      var p := paths[0];
      ScanOneSound(c, t, p, disk[p]);
      var next := ScanPath(c, t, p, Some(disk[p]), false).value;
      ScanSeenSound(c, next, disk, paths[1..]);
      assert Elements(paths) == {p} + Elements(paths[1..]);
    }
  }

  lemma {:induction false} ScanMissingSound(c: Codec, t: Tables, approve: bool, paths: seq<Path>)
    requires Faithful(c) && Sound(c, t) && ScanMissing(c, t, approve, paths).Ok?
    ensures var after := ScanMissing(c, t, approve, paths).value;
      && Sound(c, after) && after.rows.Keys == t.rows.Keys && t.objects <= after.objects
      && after.incoming == t.incoming && after.cursors == t.cursors && after.epoch == t.epoch
    decreases |paths|
  {
    if paths != [] {
      MissOneSound(c, t, paths[0], approve);
      ScanMissingSound(c, ScanPath(c, t, paths[0], None, approve).value, approve, paths[1..]);
    }
  }

  lemma WithObjectsSound(c: Codec, t: Tables, disk: map<Path, Content>)
    requires Faithful(c) && Sound(c, t)
    ensures Sound(c, WithObjects(t, disk))
    ensures forall p :: p in disk ==> Stored(WithObjects(t, disk), Some(disk[p]))
  {
    var after := WithObjects(t, disk);
    forall p | p in after.rows ensures RowSound(c, after, p) { assert RowSound(c, t, p); }
    forall p | p in after.incoming ensures IncomingSound(c, after, p) { assert IncomingSound(c, t, p); }
  }

  lemma ScannedSound(c: Codec, t: Tables, disk: map<Path, Content>, approve: bool)
    requires Faithful(c) && Sound(c, t) && (forall p :: p in disk ==> OnDisk(Some(disk[p])))
    requires Scanned(c, t, disk, approve).Ok?
    ensures var after := Scanned(c, t, disk, approve).value;
      && Sound(c, after) && after.rows.Keys == t.rows.Keys + disk.Keys && after.incoming == t.incoming
      && (forall p :: p in disk ==> Stored(after, Some(disk[p])))
  {
    ByPathIsStrictTotal();
    WithObjectsSound(c, t, disk);
    ScanSeenSound(c, WithObjects(t, disk), disk, PathList(disk.Keys));
    var seen := ScanSeen(c, WithObjects(t, disk), disk, PathList(disk.Keys)).value;
    ScanMissingSound(c, seen, approve, PathList(seen.rows.Keys - disk.Keys));
  }

  // ---- What a whole scan comes to ----

  predicate Distinct(paths: seq<Path>) {
    forall i, j :: 0 <= i < j < |paths| ==> paths[i] != paths[j]
  }

  lemma PathListIsDistinct(s: set<Path>)
    ensures Distinct(PathList(s)) && forall p :: p in PathList(s) <==> p in s
  {
    ByPathIsStrictTotal();
    var l := PathList(s);
    forall i, j | 0 <= i < j < |l| ensures l[i] != l[j] { assert ByPath()(l[i], l[j]); }
    assert forall p :: p in l <==> p in Elements(l);
  }

  lemma DistinctRest(paths: seq<Path>)
    requires Distinct(paths) && paths != []
    ensures Distinct(paths[1..]) && paths[0] !in paths[1..]
    ensures forall p :: p in paths <==> p == paths[0] || p in paths[1..]
  {
  }

  lemma {:induction false} SeenElsewhere(c: Codec, t: Tables, disk: map<Path, Content>, paths: seq<Path>, p: Path)
    requires Faithful(c) && ScanSeen(c, t, disk, paths).Ok? && p !in paths
    ensures SameAt(t, ScanSeen(c, t, disk, paths).value, p)
    decreases |paths|
  {
    if paths != [] {
      ScanElsewhere(c, t, paths[0], Some(disk[paths[0]]), false, p);
      SeenElsewhere(c, ScanPath(c, t, paths[0], Some(disk[paths[0]]), false).value, disk, paths[1..], p);
    }
  }

  lemma {:induction false} SeenBecomes(c: Codec, t: Tables, disk: map<Path, Content>, paths: seq<Path>, p: Path)
    requires Faithful(c) && ScanSeen(c, t, disk, paths).Ok? && Distinct(paths) && p in paths
    requires forall q :: q in disk ==> disk[q] != Deleted
    ensures p in disk && FoundBecomes(c, t, ScanSeen(c, t, disk, paths).value, p, disk[p])
    decreases |paths|
  {
    DistinctRest(paths);
    var x := paths[0];
    var next, after := ScanPath(c, t, x, Some(disk[x]), false).value, ScanSeen(c, t, disk, paths).value;
    if p == x {
      ScanBecomes(c, t, p, Some(disk[p]), false);
      SeenElsewhere(c, next, disk, paths[1..], p);
      BecomesOfSame(c, t, t, next, after, p);
    } else {
      ScanElsewhere(c, t, x, Some(disk[x]), false, p);
      SeenBecomes(c, next, disk, paths[1..], p);
      BecomesOfSame(c, next, t, after, after, p);
    }
  }

  lemma {:induction false} AbsentElsewhere(c: Codec, t: Tables, approve: bool, paths: seq<Path>, p: Path)
    requires Faithful(c) && ScanMissing(c, t, approve, paths).Ok? && p !in paths
    ensures SameAt(t, ScanMissing(c, t, approve, paths).value, p)
    decreases |paths|
  {
    if paths != [] {
      ScanElsewhere(c, t, paths[0], None, approve, p);
      AbsentElsewhere(c, ScanPath(c, t, paths[0], None, approve).value, approve, paths[1..], p);
    }
  }

  lemma {:induction false} AbsentBecomes(c: Codec, t: Tables, approve: bool, paths: seq<Path>, p: Path)
    requires Faithful(c) && ScanMissing(c, t, approve, paths).Ok? && Distinct(paths) && p in paths
    ensures MissingBecomes(c, t, ScanMissing(c, t, approve, paths).value, p, approve)
    decreases |paths|
  {
    DistinctRest(paths);
    var x := paths[0];
    var next, after := ScanPath(c, t, x, None, approve).value, ScanMissing(c, t, approve, paths).value;
    if p == x {
      ScanBecomes(c, t, p, None, approve);
      AbsentElsewhere(c, next, approve, paths[1..], p);
      BecomesOfSame(c, t, t, next, after, p);
    } else {
      ScanElsewhere(c, t, x, None, approve, p);
      AbsentBecomes(c, next, approve, paths[1..], p);
      BecomesOfSame(c, next, t, after, after, p);
    }
  }

  /** Every file on disk and every recorded path that is missing, each as its own row and the disk say. */
  ghost predicate ScanTaken(c: Codec, t: Tables, disk: map<Path, Content>, approve: bool, after: Tables) {
    && after.rows.Keys == t.rows.Keys + disk.Keys
    && (forall p :: p in disk ==> FoundBecomes(c, t, after, p, disk[p]))
    && (forall p :: p in t.rows && p !in disk ==> MissingBecomes(c, t, after, p, approve))
  }

  /** A whole scan does for every path what that path alone asks for, in whatever order the pages come. */
  lemma ScannedBecomes(c: Codec, t: Tables, disk: map<Path, Content>, approve: bool)
    requires Faithful(c) && Sound(c, t) && (forall p :: p in disk ==> OnDisk(Some(disk[p])))
    requires Scanned(c, t, disk, approve).Ok?
    ensures ScanTaken(c, t, disk, approve, Scanned(c, t, disk, approve).value)
  {
    ScannedSound(c, t, disk, approve);
    var t0, after := WithObjects(t, disk), Scanned(c, t, disk, approve).value;
    var seen := ScanSeen(c, t0, disk, PathList(disk.Keys)).value;
    PathListIsDistinct(disk.Keys);
    PathListIsDistinct(seen.rows.Keys - disk.Keys);
    forall p | p in disk ensures FoundBecomes(c, t, after, p, disk[p]) {
      SeenBecomes(c, t0, disk, PathList(disk.Keys), p);
      AbsentElsewhere(c, seen, approve, PathList(seen.rows.Keys - disk.Keys), p);
      BecomesOfSame(c, t0, t, seen, after, p);
    }
    forall p | p in t.rows && p !in disk ensures MissingBecomes(c, t, after, p, approve) {
      SeenElsewhere(c, t0, disk, PathList(disk.Keys), p);
      AbsentBecomes(c, seen, approve, PathList(seen.rows.Keys - disk.Keys), p);
      BecomesOfSame(c, seen, t, after, after, p);
    }
  }

  // ---- What a whole merge comes to ----

  /** The row holds the maximal revisions of its old heads and the staged ones; nothing else about it changes. */
  ghost predicate JoinedInto(t: Tables, after: Tables, p: Path)
    requires p in t.incoming
  {
    && p in after.rows
    && Elements(after.rows[p].versions) == Maximal(Elements(VersionsAt(t, p)) + Elements(t.incoming[p]))
    && after.rows[p].observed == ObservedAt(t, p)
    && after.rows[p].materialized == (if p in t.rows then t.rows[p].materialized else None)
  }

  lemma CommitJoins(c: Codec, t: Tables, p: Path)
    requires Faithful(c) && p in t.incoming && Normal(c, t.incoming[p]) && CommitOne(c, t, p).Ok?
    ensures JoinedInto(t, CommitOne(c, t, p).value, p) && CommitOne(c, t, p).value.incoming == t.incoming
  {
    if p in t.rows {
      JoinedHeads(c, t.rows[p].versions, t.incoming[p]);
    } else {
      NormalForm(c, t.incoming[p]);
      assert Elements<Revision>([]) + Elements(t.incoming[p]) == Elements(t.incoming[p]);
    }
  }

  lemma CommitElsewhere(c: Codec, t: Tables, x: Path, p: Path)
    requires Faithful(c) && x in t.incoming && CommitOne(c, t, x).Ok? && p != x
    ensures var after := CommitOne(c, t, x).value;
      after.incoming == t.incoming && after.pending == t.pending && RowAt(after, p) == RowAt(t, p)
  {
  }

  lemma {:induction false} CommitsElsewhere(c: Codec, t: Tables, paths: seq<Path>, p: Path)
    requires Faithful(c) && CommitEach(c, t, paths).Ok? && p !in paths
    ensures RowAt(CommitEach(c, t, paths).value, p) == RowAt(t, p)
    decreases |paths|
  {
    if paths != [] {
      CommitElsewhere(c, t, paths[0], p);
      CommitsElsewhere(c, CommitOne(c, t, paths[0]).value, paths[1..], p);
    }
  }

  lemma JoinedOfSame(t: Tables, t': Tables, after: Tables, after': Tables, p: Path)
    requires p in t.incoming && t'.incoming == t.incoming
    requires RowAt(t, p) == RowAt(t', p) && RowAt(after, p) == RowAt(after', p) && JoinedInto(t, after, p)
    ensures JoinedInto(t', after', p)
  {
    assert VersionsAt(t, p) == VersionsAt(t', p) && ObservedAt(t, p) == ObservedAt(t', p);
    assert p in t.rows ==> t.rows[p] == t'.rows[p];
    assert after'.rows[p] == after.rows[p];
  }

  lemma {:induction false} CommitsJoin(c: Codec, t: Tables, paths: seq<Path>, p: Path)
    requires Faithful(c) && CommitEach(c, t, paths).Ok? && Distinct(paths) && p in paths
    requires forall q :: q in t.incoming ==> Normal(c, t.incoming[q])
    ensures p in t.incoming && JoinedInto(t, CommitEach(c, t, paths).value, p)
    decreases |paths|
  {
    DistinctRest(paths);
    var next, after := CommitOne(c, t, paths[0]).value, CommitEach(c, t, paths).value;
    if p == paths[0] {
      CommitJoins(c, t, p);
      CommitsElsewhere(c, next, paths[1..], p);
      JoinedOfSame(t, t, next, after, p);
    } else {
      CommitElsewhere(c, t, paths[0], p);
      CommitsJoin(c, next, paths[1..], p);
      JoinedOfSame(next, t, after, after, p);
    }
  }

  /** Every staged path is joined into its row, every other row stays, and nothing is staged any more. */
  ghost predicate MergeTaken(t: Tables, after: Tables) {
    && after.rows.Keys == t.rows.Keys + t.incoming.Keys && after.incoming == map[]
    && (forall p :: p in t.incoming ==> JoinedInto(t, after, p))
    && (forall p :: p in t.rows && p !in t.incoming ==> after.rows[p] == t.rows[p])
  }

  lemma MergedJoins(c: Codec, t: Tables)
    requires Faithful(c) && Sound(c, t) && t.needed == {} && Merged(c, t).Ok?
    ensures MergeTaken(t, Merged(c, t).value)
  {
    var paths, after := PathList(t.incoming.Keys), Merged(c, t).value;
    MergedSound(c, t);
    PathListIsDistinct(t.incoming.Keys);
    forall q | q in t.incoming ensures Normal(c, t.incoming[q]) { assert IncomingSound(c, t, q); }
    var committed := CommitEach(c, t, paths).value;
    forall p | p in t.incoming ensures JoinedInto(t, after, p) {
      CommitsJoin(c, t, paths, p);
      JoinedOfSame(t, t, committed, after, p);
    }
    forall p | p in t.rows && p !in t.incoming ensures after.rows[p] == t.rows[p] {
      CommitsElsewhere(c, t, paths, p);
      assert RowAt(committed, p) == RowAt(t, p);
    }
  }

  // ---- What staging a page comes to ----

  /** The last record for a path, if there is one. */
  function LastFor(records: seq<Record>, p: Path): Option<Record> {
    if records == [] then None
    else if records[|records| - 1].path == p then Some(records[|records| - 1])
    else LastFor(records[..|records| - 1], p)
  }

  lemma {:induction false} LastForIsLast(records: seq<Record>, p: Path)
    ensures LastFor(records, p).None? <==> forall k :: 0 <= k < |records| ==> records[k].path != p
    ensures LastFor(records, p).Some? ==>
      exists k :: 0 <= k < |records| && LastFor(records, p).value == records[k] && records[k].path == p &&
        (forall j :: k < j < |records| ==> records[j].path != p)
  {
    if records == [] {
    } else {
      var n := |records| - 1;
      LastForIsLast(records[..n], p);
      if records[n].path == p {
        assert LastFor(records, p).value == records[n];
      } else {
        assert forall k :: 0 <= k < n ==> records[..n][k] == records[k];
      }
    }
  }

  /** Well-formed heads with the maximal revisions of what was sent. */
  ghost predicate Validates(c: Codec, heads: Heads, sent: Heads)
    requires Faithful(c)
  {
    Normal(c, heads) && heads != [] && Elements(heads) == Maximal(Elements(sent))
  }

  /** The files that a record's maximal heads name. */
  function NamedBy(record: Record): set<Hash> {
    set h | h in Maximal(Elements(record.versions)) && h.content.File? :: h.content.hash
  }

  function NamedByAll(records: seq<Record>): set<Hash> {
    set r, hash | r in records && hash in NamedBy(r) :: hash
  }

  ghost predicate StagedAt(c: Codec, t: Tables, records: seq<Record>, after: Tables, p: Path)
    requires Faithful(c)
  {
    match LastFor(records, p)
    case None => (p in after.incoming <==> p in t.incoming) && IncomingAt(after, p) == IncomingAt(t, p)
    case Some(record) => p in after.incoming && Validates(c, after.incoming[p], record.versions)
  }

  /** Every path of the page is staged as its last record says, and every file not at hand is asked for. */
  ghost predicate StageTaken(c: Codec, t: Tables, records: seq<Record>, after: Tables)
    requires Faithful(c)
  {
    && (forall p {:trigger StagedAt(c, t, records, after, p)} :: StagedAt(c, t, records, after, p))
    && after.needed == t.needed + (NamedByAll(records) - t.objects)
    && after == t.(incoming := after.incoming, needed := after.needed)
  }

  lemma StageOneTakes(c: Codec, t: Tables, record: Record)
    requires Faithful(c) && StageOne(c, t, record.path, record.versions).Ok?
    ensures var after := StageOne(c, t, record.path, record.versions).value;
      && record.path in after.incoming && Validates(c, after.incoming[record.path], record.versions)
      && after.incoming == t.incoming[record.path := after.incoming[record.path]]
      && after.needed == t.needed + (NamedBy(record) - t.objects)
      && after == t.(incoming := after.incoming, needed := after.needed)
  {
    var validated := Joined(c, [], record.versions).value;
    JoinedHeads(c, [], record.versions);
    JoinIsNormal(c, [], record.versions);
    assert Elements<Revision>([]) + Elements(record.versions) == Elements(record.versions);
    assert forall h :: h in validated <==> h in Elements(validated);
    assert Hashes(validated) == NamedBy(record);
  }

  lemma NamedByMore(records: seq<Record>, record: Record)
    ensures NamedByAll(records + [record]) == NamedByAll(records) + NamedBy(record)
  {
  }

  lemma StageTakesMore(c: Codec, t: Tables, records: seq<Record>, middle: Tables, record: Record)
    requires Faithful(c) && StageTaken(c, t, records, middle) && StageOne(c, middle, record.path, record.versions).Ok?
    ensures StageTaken(c, t, records + [record], StageOne(c, middle, record.path, record.versions).value)
  {
    var after := StageOne(c, middle, record.path, record.versions).value;
    StageOneTakes(c, middle, record);
    NamedByMore(records, record);
    assert (records + [record])[..|records|] == records;
    forall p ensures StagedAt(c, t, records + [record], after, p) {
      assert StagedAt(c, t, records, middle, p);
    }
  }

  lemma StageTakesNothing(c: Codec, t: Tables)
    requires Faithful(c)
    ensures StageTaken(c, t, [], t)
  {
    assert NamedByAll([]) == {};
  }

  lemma {:induction false} StageEachTakes(c: Codec, t: Tables, records: seq<Record>)
    requires Faithful(c) && StageEach(c, t, records).Ok?
    ensures StageTaken(c, t, records, StageEach(c, t, records).value)
    decreases |records|
  {
    if records == [] {
      StageTakesNothing(c, t);
    } else {
      var n := |records| - 1;
      assert records == records[..n] + [records[n]];
      StagedBefore(c, t, records[..n], [records[n]]);
      StageEachAppends(c, t, records[..n], [records[n]]);
      StageEachTakes(c, t, records[..n]);
      StageTakesMore(c, t, records[..n], StageEach(c, t, records[..n]).value, records[n]);
    }
  }

  /** The validator accepts the record, and it names a path's heads. */
  ghost predicate Stageable(c: Codec, record: Record)
    requires Faithful(c)
  {
    record.versions != [] && Joined(c, [], record.versions).Ok?
  }

  lemma StageOneAccepts(c: Codec, t: Tables, record: Record)
    requires Faithful(c)
    ensures StageOne(c, t, record.path, record.versions).Ok? <==> Stageable(c, record)
  {
    if Joined(c, [], record.versions).Ok? {
      JoinedHeads(c, [], record.versions);
      var j, sent := Joined(c, [], record.versions).value, Elements(record.versions);
      assert Elements<Revision>([]) + sent == sent;
      if record.versions != [] {
        var m := MaximalAbove(sent, record.versions[0]);
        assert m in Elements(j);
      } else {
        assert Elements(j) == {};
      }
    }
  }

  /** A page fails exactly when one of its records does. */
  lemma {:induction false} StageEachAccepts(c: Codec, t: Tables, records: seq<Record>)
    requires Faithful(c)
    ensures StageEach(c, t, records).Ok? <==> forall record :: record in records ==> Stageable(c, record)
    decreases |records|
  {
    if records != [] {
      StageOneAccepts(c, t, records[0]);
      if Stageable(c, records[0]) {
        StageEachAccepts(c, StageOne(c, t, records[0].path, records[0].versions).value, records[1..]);
        assert forall record :: record in records <==> record == records[0] || record in records[1..];
      }
    }
  }

  lemma {:induction false} StagedBefore(c: Codec, t: Tables, a: seq<Record>, b: seq<Record>)
    requires Faithful(c) && StageEach(c, t, a + b).Ok?
    ensures StageEach(c, t, a).Ok?
    decreases |a|
  {
    if a != [] {
      assert (a + b)[0] == a[0] && (a + b)[1..] == a[1..] + b;
      StagedBefore(c, StageOne(c, t, a[0].path, a[0].versions).value, a[1..], b);
    }
  }

  lemma {:induction false} CommitEachSound(c: Codec, t: Tables, paths: seq<Path>)
    requires Faithful(c) && Sound(c, t) && t.needed == {} && CommitEach(c, t, paths).Ok?
    ensures var after := CommitEach(c, t, paths).value;
      && Sound(c, after) && after.rows.Keys == t.rows.Keys + Elements(paths)
      && after.incoming == t.incoming && after.cursors == t.cursors && after.epoch == t.epoch && after.needed == {}
    decreases |paths|
  {
    if paths == [] {
    } else {
      CommitKeepsSound(c, t, paths[0]);
      CommitMoves(c, t, paths[0]);
      CommitEachSound(c, CommitOne(c, t, paths[0]).value, paths[1..]);
      assert Elements(paths) == {paths[0]} + Elements(paths[1..]);
    }
  }

  ghost function Flattened(pages: seq<seq<Record>>): seq<Record> {
    if pages == [] then [] else Flattened(pages[..|pages| - 1]) + pages[|pages| - 1]
  }

  lemma {:induction false} StageEachAppends(c: Codec, t: Tables, a: seq<Record>, b: seq<Record>)
    requires Faithful(c) && StageEach(c, t, a).Ok?
    ensures StageEach(c, t, a + b) == StageEach(c, StageEach(c, t, a).value, b)
    decreases |a|
  {
    if a == [] {
      assert a + b == b;
    } else {
      assert (a + b)[1..] == a[1..] + b;
      StageEachAppends(c, StageOne(c, t, a[0].path, a[0].versions).value, a[1..], b);
    }
  }

  lemma WithoutIncomingSound(c: Codec, t: Tables)
    requires Faithful(c) && Sound(c, t)
    ensures Sound(c, t.(incoming := map[]))
  {
    var after := t.(incoming := map[]);
    forall p | p in after.rows ensures RowSound(c, after, p) { assert RowSound(c, t, p); }
  }

  lemma WithFlagSound(c: Codec, t: Tables)
    requires Faithful(c) && Sound(c, t)
    ensures Sound(c, t.(recovering := false))
  {
    var after := t.(recovering := false);
    forall p | p in after.rows ensures RowSound(c, after, p) { assert RowSound(c, t, p); }
    forall p | p in after.incoming ensures IncomingSound(c, after, p) { assert IncomingSound(c, t, p); }
  }

  lemma {:induction false} ScanSeenKeepsNeeded(c: Codec, t: Tables, disk: map<Path, Content>, paths: seq<Path>)
    requires Faithful(c) && ScanSeen(c, t, disk, paths).Ok? && forall p :: p in disk ==> disk[p] != Deleted
    ensures ScanSeen(c, t, disk, paths).value.needed == t.needed
    decreases |paths|
  {
    if paths != [] {
      ScanEffect(c, t, paths[0], Some(disk[paths[0]]), false);
      ScanSeenKeepsNeeded(c, ScanPath(c, t, paths[0], Some(disk[paths[0]]), false).value, disk, paths[1..]);
    }
  }

  lemma {:induction false} ScanMissingKeepsNeeded(c: Codec, t: Tables, approve: bool, paths: seq<Path>)
    requires Faithful(c) && ScanMissing(c, t, approve, paths).Ok?
    ensures ScanMissing(c, t, approve, paths).value.needed == t.needed
    decreases |paths|
  {
    if paths != [] {
      ScanEffect(c, t, paths[0], None, approve);
      ScanMissingKeepsNeeded(c, ScanPath(c, t, paths[0], None, approve).value, approve, paths[1..]);
    }
  }

  lemma ScannedKeepsNeeded(c: Codec, t: Tables, disk: map<Path, Content>, approve: bool)
    requires Faithful(c) && Scanned(c, t, disk, approve).Ok? && forall p :: p in disk ==> disk[p] != Deleted
    ensures Scanned(c, t, disk, approve).value.needed == t.needed
  {
    ScanSeenKeepsNeeded(c, WithObjects(t, disk), disk, PathList(disk.Keys));
    var seen := ScanSeen(c, WithObjects(t, disk), disk, PathList(disk.Keys)).value;
    ScanMissingKeepsNeeded(c, seen, approve, PathList(seen.rows.Keys - disk.Keys));
  }

  // ---- Applying rows in order ----

  ghost function ApplicationList(t: Tables): seq<Path> {
    ByApplicationIsStrictTotal(HeadsOf(t));
    Listing(ByApplication(HeadsOf(t)), Candidates(t))
  }

  /** From `t0`, exactly the first paths of the application order have been acknowledged. */
  ghost predicate Applied(c: Codec, t0: Tables, t: Tables, handled: seq<Path>)
    requires Faithful(c)
  {
    && Sound(c, t) && HeadsOf(t) == HeadsOf(t0)
    && handled + ApplicationList(t) == ApplicationList(t0)
    && AcknowledgeEach(c, t0, handled) == Ok(t)
  }

  lemma AcknowledgedLeaves(c: Codec, t: Tables, p: Path)
    requires Faithful(c) && Sound(c, t) && Acknowledge(c, t, p).Ok?
    ensures var after := Acknowledge(c, t, p).value;
      Sound(c, after) && HeadsOf(after) == HeadsOf(t) && Candidates(after) == Candidates(t) - {p} && after.pending == t.pending
  {
    AcknowledgeKeepsSound(c, t, p);
    AcknowledgedIsNoCandidate(c, t, p);
  }

  lemma AcknowledgedIsNoCandidate(c: Codec, t: Tables, p: Path)
    requires Acknowledge(c, t, p).Ok?
    ensures var after := Acknowledge(c, t, p).value;
      HeadsOf(after) == HeadsOf(t) && Candidates(after) == Candidates(t) - {p} && after.pending == t.pending
  {
  }

  lemma {:induction false} AcknowledgeOneMore(c: Codec, t: Tables, paths: seq<Path>, p: Path)
    requires AcknowledgeEach(c, t, paths).Ok?
    ensures AcknowledgeEach(c, t, paths + [p]) == Acknowledge(c, AcknowledgeEach(c, t, paths).value, p)
    decreases |paths|
  {
    if paths == [] {
      assert [p][1..] == [];
      assert [] + [p] == [p];
    } else {
      assert (paths + [p])[1..] == paths[1..] + [p];
      AcknowledgeOneMore(c, Acknowledge(c, t, paths[0]).value, paths[1..], p);
    }
  }

  lemma FirstIsLeast(t: Tables)
    requires Candidates(t) != {}
    ensures StrictTotal(ByApplication(HeadsOf(t)))
    ensures ApplicationList(t) != [] && IsLeast(ByApplication(HeadsOf(t)), Candidates(t), ApplicationList(t)[0])
  {
    ByApplicationIsStrictTotal(HeadsOf(t));
    var l := ApplicationList(t);
    NoElements(l);
    assert l[0] in Elements(l);
    forall p | p in Candidates(t) && p != l[0] ensures ByApplication(HeadsOf(t))(l[0], p) {
      assert p in Elements(l);
    }
  }

  lemma ListWithoutFirst(t: Tables, after: Tables)
    requires Candidates(t) != {} && ApplicationList(t) != []
    requires HeadsOf(after) == HeadsOf(t) && Candidates(after) == Candidates(t) - {ApplicationList(t)[0]}
    ensures ApplicationList(t) == [ApplicationList(t)[0]] + ApplicationList(after)
  {
    FirstIsLeast(t);
    ListingBegins(ByApplication(HeadsOf(t)), Candidates(t), ApplicationList(t)[0]);
  }

  /** Every handled row leaves the candidates, and the rest keep their order. */
  lemma AppliedExtends(c: Codec, t0: Tables, t: Tables, handled: seq<Path>)
    requires Faithful(c) && Applied(c, t0, t, handled) && Candidates(t) != {}
    ensures ApplicationList(t) != []
    ensures var p := ApplicationList(t)[0];
      && p in Candidates(t) && t.rows[p].versions != []
      && Acknowledge(c, t, p).Ok?
      && var after := Acknowledge(c, t, p).value;
      && Applied(c, t0, after, handled + [p]) && ApplicationList(after) == ApplicationList(t)[1..] && after.pending == t.pending
  {
    FirstIsLeast(t);
    var p := ApplicationList(t)[0];
    assert RowSound(c, t, p);
    AcknowledgedLeaves(c, t, p);
    AcknowledgeOneMore(c, t0, handled, p);
    AppliedOne(c, t0, t, Acknowledge(c, t, p).value, handled);
  }

  lemma AppliedOne(c: Codec, t0: Tables, t: Tables, after: Tables, handled: seq<Path>)
    requires Faithful(c) && Applied(c, t0, t, handled) && Candidates(t) != {} && ApplicationList(t) != []
    requires Sound(c, after) && HeadsOf(after) == HeadsOf(t)
    requires Candidates(after) == Candidates(t) - {ApplicationList(t)[0]}
    requires AcknowledgeEach(c, t0, handled + [ApplicationList(t)[0]]) == Ok(after)
    ensures Applied(c, t0, after, handled + [ApplicationList(t)[0]])
    ensures ApplicationList(after) == ApplicationList(t)[1..]
  {
    ListWithoutFirst(t, after);
    Shifted(handled, ApplicationList(t)[0], ApplicationList(after), ApplicationList(t));
  }

  lemma Shifted(handled: seq<Path>, p: Path, rest: seq<Path>, list: seq<Path>)
    requires list == [p] + rest
    ensures (handled + [p]) + rest == handled + list && list[1..] == rest
  {}

  lemma AcknowledgedContent(c: Codec, t: Tables, p: Path)
    requires Faithful(c) && Sound(c, t) && p in t.rows
    ensures t.rows[p].versions != [] && Selected(c, t.rows[p].versions).Some? && Acknowledge(c, t, p).Ok?
    ensures OnDisk(Visible(Selected(c, t.rows[p].versions).value.content))
    ensures Sound(c, Acknowledge(c, t, p).value)
  {
    assert RowSound(c, t, p);
    NormalForm(c, t.rows[p].versions);
    assert Defect(Selected(c, t.rows[p].versions).value).None?;
    AcknowledgeKeepsSound(c, t, p);
  }

  lemma MergedSound(c: Codec, t: Tables)
    requires Faithful(c) && Sound(c, t) && t.needed == {} && Merged(c, t).Ok?
    ensures Sound(c, Merged(c, t).value) && Merged(c, t).value.rows.Keys == t.rows.Keys + t.incoming.Keys
    ensures Merged(c, t).value.incoming == map[]
  {
    ByPathIsStrictTotal();
    var paths := PathList(t.incoming.Keys);
    CommitEachSound(c, t, paths);
    WithoutIncomingSound(c, CommitEach(c, t, paths).value);
  }

  // ---- Pages ----

  /** Every record names a path: `validate_path` refuses the empty one. */
  predicate Named(records: seq<Record>) {
    forall record :: record in records ==> record.path != ""
  }

  /** The order check of `read_metadata`: sequences rise from `last` and stay within `ceiling`. */
  predicate Rising(records: seq<Record>, last: nat, ceiling: nat) {
    && (forall k :: 0 <= k < |records| ==> last < records[k].sequence <= ceiling)
    && (forall k, l :: 0 <= k < l < |records| ==> records[k].sequence < records[l].sequence)
  }

  lemma RisingAppends(a: seq<Record>, b: seq<Record>, last: nat, middle: nat, ceiling: nat)
    requires Rising(a, last, middle) && Rising(b, middle, ceiling) && last <= middle <= ceiling
    ensures Rising(a + b, last, ceiling)
  {}

  /** The records of a page stand in the whole list, after those of the earlier pages. */
  lemma {:induction false} PageWithin(pages: seq<seq<Record>>, i: nat)
    requires i < |pages|
    ensures var all, before := Flattened(pages), Flattened(pages[..i]);
      && |before| + |pages[i]| <= |all| && before == all[..|before|]
      && pages[i] == all[|before|..|before| + |pages[i]|]
    decreases |pages|
  {
    var n := |pages| - 1;
    if i == n {
      assert pages[..n] == pages[..i];
    } else {
      PageWithin(pages[..n], i);
      assert pages[..n][..i] == pages[..i];
    }
  }

  lemma RisingFurther(staged: seq<Record>, first: nat, last: nat, ceiling: nat)
    requires Rising(staged, first, last) && last <= ceiling
    ensures Rising(staged, first, ceiling)
  {
  }

  lemma RisingSlice(all: seq<Record>, i: nat, j: nat, ceiling: nat)
    requires Rising(all, 0, ceiling) && i <= j <= |all|
    ensures Rising(all[i..j], if i == 0 then 0 else all[i - 1].sequence, ceiling)
  {
    var part := all[i..j];
    forall k | 0 <= k < |part| ensures part[k] == all[i + k] {}
  }

  /** What `read_metadata` accepts of one page. */
  ghost predicate FinePage(c: Codec, page: seq<Record>, last: nat, ceiling: nat)
    requires Faithful(c)
  {
    0 < |page| <= METADATA_PAGE && Rising(page, last, ceiling) && forall record :: record in page ==> Stageable(c, record)
  }

  /** What it accepts of a whole session. */
  ghost predicate FinePages(c: Codec, pages: seq<seq<Record>>, ceiling: nat)
    requires Faithful(c)
  {
    && (forall page :: page in pages ==> 0 < |page| <= METADATA_PAGE)
    && Rising(Flattened(pages), 0, ceiling)
    && (forall record :: record in Flattened(pages) ==> Stageable(c, record))
  }

  function LastOf(staged: seq<Record>): nat {
    if staged == [] then 0 else staged[|staged| - 1].sequence
  }

  lemma FinePagesAreFine(c: Codec, pages: seq<seq<Record>>, i: nat, ceiling: nat)
    requires Faithful(c) && i < |pages| && FinePages(c, pages, ceiling)
    ensures FinePage(c, pages[i], LastOf(Flattened(pages[..i])), ceiling)
  {
    PageWithin(pages, i);
    var all, n := Flattened(pages), |Flattened(pages[..i])|;
    RisingSlice(all, n, n + |pages[i]|, ceiling);
    assert pages[i] in pages;
    forall record | record in pages[i] ensures Stageable(c, record) {
      assert record in all[n..n + |pages[i]|];
    }
  }

  /** One more page, up to its own last number. */
  lemma FineSoFar(c: Codec, pages: seq<seq<Record>>, i: nat, last: nat, seen: nat)
    requires Faithful(c) && i < |pages| && FinePages(c, pages[..i], last) && FinePage(c, pages[i], last, seen) && last <= seen
    ensures FinePages(c, pages[..i + 1], seen) && Flattened(pages[..i + 1]) == Flattened(pages[..i]) + pages[i]
  {
    assert pages[..i + 1][..i] == pages[..i];
    RisingAppends(Flattened(pages[..i]), pages[i], 0, last, seen);
  }

  /** After `i` pages: what was staged, and up to which number. */
  ghost predicate ReadSoFar(c: Codec, t0: Tables, t: Tables, pages: seq<seq<Record>>, i: nat, staged: seq<Record>, last: nat)
    requires Faithful(c) && i <= |pages|
  {
    && StageEach(c, t0, staged) == Ok(t) && staged == Flattened(pages[..i])
    && last == LastOf(staged) && FinePages(c, pages[..i], last)
  }

  lemma ReadsOn(c: Codec, t0: Tables, t: Tables, t': Tables, pages: seq<seq<Record>>, i: nat, staged: seq<Record>, last: nat)
    requires Faithful(c) && i < |pages| && pages[i] != [] && ReadSoFar(c, t0, t, pages, i, staged, last)
    requires var seen := pages[i][|pages[i]| - 1].sequence; FinePage(c, pages[i], last, seen) && last <= seen
    requires StageEach(c, t, pages[i]) == Ok(t')
    ensures ReadSoFar(c, t0, t', pages, i + 1, staged + pages[i], pages[i][|pages[i]| - 1].sequence)
  {
    StageEachAppends(c, t0, staged, pages[i]);
    FineSoFar(c, pages, i, last, pages[i][|pages[i]| - 1].sequence);
  }

  method CheckPage(page: seq<Record>, last: nat, ceiling: nat) returns (ok: bool, seen: nat)
    requires last <= ceiling
    ensures ok <==> Rising(page, last, ceiling)
    ensures ok ==> last <= seen <= ceiling && Rising(page, last, seen)
    ensures ok ==> seen == if page == [] then last else page[|page| - 1].sequence
  {
    seen := last;
    for j := 0 to |page|
      invariant last <= seen <= ceiling && (seen == if j == 0 then last else page[j - 1].sequence)
      invariant Rising(page[..j], last, seen)
    {
      if !(page[j].sequence > seen && page[j].sequence <= ceiling) {
        return false, seen;
      }
      assert page[..j + 1] == page[..j] + [page[j]];
      seen := page[j].sequence;
    }
    assert page[..|page|] == page;
    ok := true;
  }

  lemma InterruptedSelects(c: Codec, before: Tables, t: Tables, p: Path, content: Content, actual: Option<Content>)
    requires Faithful(c) && Interrupted(c, before, t, p, content, actual)
    ensures p in t.rows && Selects(c, t.rows[p].versions, content)
  {
    InterruptedRow(c, before, t, p, content, actual);
    assert t.rows[p].versions[..0] == [];
  }

  /** One head with the chosen content, later than every former head; not yet observed, and shown is what was found. */
  ghost predicate ResolvedTo(t: Tables, after: Tables, p: Path, content: Content, actual: Option<Content>) {
    && p in t.rows && p in after.rows && p !in after.pending && RowsElsewhere(t, after, p)
    && |after.rows[p].versions| == 1 && after.rows[p].versions[0].content == content
    && (forall h :: h in t.rows[p].versions ==> Clocks.Compare(h.clock, after.rows[p].versions[0].clock) == Clocks.Before)
    && after.rows[p].observed == t.rows[p].observed && after.rows[p].materialized == actual
  }

  lemma ResolvedRow(c: Codec, t: Tables, p: Path, content: Content, actual: Option<Content>)
    requires Faithful(c) && Resolve(c, t, p, content, actual).Ok?
    ensures ResolvedTo(t, Resolve(c, t, p, content, actual).value, p, content, actual)
  {
    EditedHeads(c, t.rows[p].versions, t.epoch, content);
    EditIsAfter(t.rows[p].versions, t.epoch, content);
  }

  lemma Smaller<T>(a: set<T>, b: set<T>)
    requires a < b
    ensures |a| < |b|
  {
    assert |b| == |a| + |b - a| by { assert b == a + (b - a); }
    assert b - a != {};
  }

  predicate RowsElsewhere(t: Tables, t': Tables, p: Path) {
    t'.rows.Keys == t.rows.Keys && forall q :: q in t.rows && q != p ==> t'.rows[q] == t.rows[q]
  }

  // ---- Rows in sequence order ----

  type RowKey = (nat, Path)

  function BySequence(): (RowKey, RowKey) -> bool {
    (a: RowKey, b: RowKey) => a.0 < b.0 || (a.0 == b.0 && Less(a.1, b.1))
  }

  lemma BySequenceIsStrictTotal()
    ensures StrictTotal(BySequence())
  {
    forall a: RowKey, b: RowKey, d: RowKey
      ensures !BySequence()(a, a)
      ensures a != b ==> BySequence()(a, b) || BySequence()(b, a)
      ensures BySequence()(a, b) && BySequence()(b, d) ==> BySequence()(a, d)
    {
      LessIrreflexive(a.1);
      if a.1 != b.1 { LessConnected(a.1, b.1); }
      if Less(a.1, b.1) && Less(b.1, d.1) { LessTransitive(a.1, b.1, d.1); }
    }
  }

  function RowKeys(t: Tables, since: nat, ceiling: nat): set<RowKey> {
    set p | p in t.rows && since < t.rows[p].sequence <= ceiling :: (t.rows[p].sequence, p)
  }

  function RecordOf(t: Tables, key: RowKey): Record {
    Record(key.1, VersionsAt(t, key.1), key.0)
  }

  function RecordsOf(t: Tables, keys: seq<RowKey>): seq<Record> {
    seq(|keys|, i requires 0 <= i < |keys| => RecordOf(t, keys[i]))
  }

  /** The rows numbered past `since`, in sequence order: what a whole session sends. */
  ghost function RowList(t: Tables, since: nat, ceiling: nat): seq<RowKey> {
    BySequenceIsStrictTotal();
    Listing(BySequence(), RowKeys(t, since, ceiling))
  }

  /** Resuming after the last sequence sent loses no row and repeats none, because sequences are unique. */
  lemma SequencePageResumes(c: Codec, t: Tables, since: nat, ceiling: nat, n: nat)
    requires Faithful(c) && Sound(c, t) && 0 < n <= |RowKeys(t, since, ceiling)|
    ensures var list := RowList(t, since, ceiling); var last := list[n - 1];
      since < last.0 <= ceiling && RowList(t, last.0, ceiling) == list[n..]
  {
    BySequenceIsStrictTotal();
    var keys, list := RowKeys(t, since, ceiling), RowList(t, since, ceiling);
    var last := list[n - 1];
    assert last in Elements(list);
    forall k ensures k in RowKeys(t, last.0, ceiling) <==> k in keys && BySequence()(last, k) {
      if k in keys && k.0 == last.0 { assert k.1 == last.1; }
    }
    ListingResumes(BySequence(), keys, n - 1, RowKeys(t, last.0, ceiling));
  }

  /** What is sent always passes the receiver's order check. */
  lemma SentRecordsRise(c: Codec, t: Tables, since: nat, ceiling: nat)
    requires Faithful(c) && Sound(c, t)
    ensures Rising(RecordsOf(t, RowList(t, since, ceiling)), since, ceiling)
  {
    BySequenceIsStrictTotal();
    var list := RowList(t, since, ceiling);
    forall k | 0 <= k < |list| ensures since < list[k].0 <= ceiling && list[k] in RowKeys(t, since, ceiling) {
      assert list[k] in Elements(list);
    }
    forall k, l | 0 <= k < l < |list| ensures list[k].0 < list[l].0 {
      assert BySequence()(list[k], list[l]);
    }
  }

  /** A record is the row of its path as it stands. */
  predicate IsRow(t: Tables, record: Record) {
    && record.path in t.rows
    && record.versions == t.rows[record.path].versions && record.sequence == t.rows[record.path].sequence
  }

  /** What is sent are the rows numbered past `since` up to `ceiling` as they stand, each once, in the order of their numbers. */
  predicate SendsRows(t: Tables, sent: seq<Record>, since: nat, ceiling: nat) {
    && Rising(sent, since, ceiling)
    && (forall k :: 0 <= k < |sent| ==> IsRow(t, sent[k]))
    && (forall p :: p in t.rows && since < t.rows[p].sequence <= ceiling ==> exists k :: 0 <= k < |sent| && sent[k].path == p)
    && (forall j, k :: 0 <= j < k < |sent| ==> sent[j].path != sent[k].path)
  }

  lemma SentAreTheRows(c: Codec, t: Tables, since: nat, ceiling: nat)
    requires Faithful(c) && Sound(c, t)
    ensures SendsRows(t, RecordsOf(t, RowList(t, since, ceiling)), since, ceiling)
  {
    BySequenceIsStrictTotal();
    var list := RowList(t, since, ceiling);
    var sent := RecordsOf(t, list);
    SentRecordsRise(c, t, since, ceiling);
    forall k | 0 <= k < |sent| ensures IsRow(t, sent[k]) {
      assert list[k] in Elements(list);
    }
    forall p | p in t.rows && since < t.rows[p].sequence <= ceiling
      ensures exists k :: 0 <= k < |sent| && sent[k].path == p
    {
      var key := (t.rows[p].sequence, p);
      assert key in RowKeys(t, since, ceiling) && key in Elements(list);
      var k :| 0 <= k < |list| && list[k] == key;
      assert sent[k].path == p;
    }
    forall j, k | 0 <= j < k < |sent| ensures sent[j].path != sent[k].path {
      assert sent[j].sequence < sent[k].sequence && IsRow(t, sent[j]) && IsRow(t, sent[k]);
    }
  }

  lemma SentPage(t: Tables, pages: seq<seq<Record>>, page: seq<Record>, list: seq<RowKey>, sent: nat)
    requires sent + |page| <= |list| && page == RecordsOf(t, list[sent..][..|page|])
    requires Flattened(pages) == RecordsOf(t, list[..sent])
    ensures Flattened(pages + [page]) == RecordsOf(t, list[..sent + |page|])
    ensures list[sent..][|page|..] == list[sent + |page|..]
  {
    assert (pages + [page])[..|pages|] == pages;
    assert list[..sent + |page|] == list[..sent] + list[sent..][..|page|];
  }

  /** `pages` hold the records of the first `sent` rows of `list`, and the sender goes on after `since`. */
  ghost predicate Sending(t: Tables, pages: seq<seq<Record>>, list: seq<RowKey>, sent: nat, since: nat, ceiling: nat) {
    sent <= |list| && RowList(t, since, ceiling) == list[sent..] && Flattened(pages) == RecordsOf(t, list[..sent])
  }

  lemma SendingContinues(c: Codec, t: Tables, pages: seq<seq<Record>>, page: seq<Record>, list: seq<RowKey>, sent: nat,
                         since: nat, ceiling: nat)
    requires Faithful(c) && Sound(c, t) && Sending(t, pages, list, sent, since, ceiling)
    requires 0 < |page| <= |list| - sent && page == RecordsOf(t, RowList(t, since, ceiling)[..|page|])
    ensures since < page[|page| - 1].sequence <= ceiling
    ensures Sending(t, pages + [page], list, sent + |page|, page[|page| - 1].sequence, ceiling)
  {
    SequencePageResumes(c, t, since, ceiling, |page|);
    SentPage(t, pages, page, list, sent);
  }

  class Share {
    const codec: Codec
    const mode: Mode
    /** Whether the folder's calls succeed where they can, and objects that are asked for arrive. */
    const reliable: bool
    var entries: map<Path, Row>
    var pending: set<Path>
    var incoming: map<Path, Heads>
    var needed: set<Hash>
    var history: set<(Path, Revision)>
    var cursors: map<Peer, Cursor>
    var sequence: nat
    var epoch: Epoch
    var recovering: bool
    var objects: set<Hash>
    /** The visible files of the folder. */
    var disk: map<Path, Content>

    function Value(): Tables
      reads this
    {
      Tables(entries, pending, incoming, needed, history, cursors, sequence, epoch, recovering, objects)
    }

    ghost predicate Valid()
      reads this
    {
      && Faithful(codec) && Sound(codec, Value())
      && (forall p :: p in disk ==> OnDisk(Some(disk[p])))
      && "" !in disk && "" !in entries && "" !in incoming
    }

    method Retain(p: Path, heads: Heads)
      modifies `history
      ensures history == old(history) + Revisions(p, heads)
    {
      for i := 0 to |heads|
        invariant history == old(history) + Revisions(p, heads[..i])
      {
        assert heads[..i + 1] == heads[..i] + [heads[i]];
        history := history + {(p, heads[i])};
      }
      assert heads[..|heads|] == heads;
    }

    method SaveRow(p: Path, versions: Heads, materialized: Option<Content>, observed: Heads) returns (r: Result<()>)
      modifies this
      ensures unchanged(`disk)
      ensures r.Ok? ==> Save(old(Value()), p, versions, materialized, observed) == Ok(Value())
      ensures r.Err? ==> Save(old(Value()), p, versions, materialized, observed) == Err(r.error) && Value() == old(Value())
    {
      var changed := p !in entries || entries[p].versions != versions;
      var number := if changed then sequence + 1 else entries[p].sequence;
      if changed && number > SEQUENCE_LIMIT {
        return Err(SequenceExhausted);
      }
      if p in entries {
        Retain(p, entries[p].versions);
      }
      Retain(p, versions);
      assert p !in entries ==> Revisions(p, VersionsAt(old(Value()), p)) == {};
      assert history == old(history) + Revisions(p, VersionsAt(old(Value()), p)) + Revisions(p, versions);
      if changed {
        sequence := number;
      }
      entries := entries[p := Row(versions, materialized, observed, number)];
      r := Ok(());
    }

    method IssueRevision(p: Path, content: Content, found: Option<Content>) returns (r: Result<()>)
      requires Faithful(codec)
      modifies this
      ensures unchanged(`disk)
      ensures r.Ok? ==> IssueAt(codec, old(Value()), p, content, found) == Ok(Value())
      ensures r.Err? ==> IssueAt(codec, old(Value()), p, content, found) == Err(r.error) && Value() == old(Value())
    {
      var observed := if p in entries then entries[p].observed else [];
      var local := Edit(codec, observed, epoch, content);
      if local.Err? {
        return Err(local.error);
      }
      var combined := local;
      if p in entries {
        combined := Join(codec, entries[p].versions, local.value);
        if combined.Err? {
          return Err(combined.error);
        }
      }
      r := SaveRow(p, combined.value, found, local.value);
      if r.Ok? {
        pending := pending - {p};
      }
    }

    method ScanRow(p: Path, found: Option<Content>, approve: bool) returns (r: Result<()>)
      requires Faithful(codec) && (found.Some? || p in entries)
      modifies this
      ensures unchanged(`disk)
      ensures r.Ok? ==> ScanPath(codec, old(Value()), p, found, approve) == Ok(Value())
      ensures r.Err? ==> ScanPath(codec, old(Value()), p, found, approve) == Err(r.error) && Value() == old(Value())
    {
      match Decide(codec, Value(), p, found, approve)
      case Keep =>
        if found.Some? {
          pending := pending - {p};
        }
        r := Ok(());
      case Adopt(observed) =>
        r := SaveRow(p, entries[p].versions, found, observed);
        if r.Ok? {
          pending := pending - {p};
        }
      case Issue(content) =>
        r := IssueRevision(p, content, found);
      case Review =>
        pending := pending + {p};
        r := Ok(());
    }

    /** The first loop of `scan_inner`, page by page. */
    method ScanPresent() returns (r: Result<()>)
      requires Faithful(codec) && "" !in disk
      modifies this
      ensures unchanged(`disk)
      ensures r.Ok? ==> ScanSeen(codec, old(Value()), disk, PathList(disk.Keys)) == Ok(Value())
      ensures r.Err? ==> ScanSeen(codec, old(Value()), disk, PathList(disk.Keys)) == Err(r.error)
    {
      EverythingIsBeyondTheEmptyPath(disk.Keys);
      ghost var start := ScanSeen(codec, Value(), disk, PathList(disk.Keys));
      var after := "";
      while true
        invariant disk == old(disk)
        invariant ScanSeen(codec, Value(), disk, PathList(Beyond(disk.Keys, after))) == start
        decreases |Beyond(disk.Keys, after)|
      {
        var page := NextPage(disk.Keys, after);
        if page == [] {
          break;
        }
        r := ScanPresentPage(page, PathList(Beyond(disk.Keys, after)));
        if r.Err? {
          return;
        }
        after := page[|page| - 1];
      }
      r := Ok(());
    }

    method ScanPresentPage(page: seq<Path>, ghost rest: seq<Path>) returns (r: Result<()>)
      requires Faithful(codec) && page <= rest && forall p :: p in page ==> p in disk
      modifies this
      ensures unchanged(`disk)
      ensures r.Ok? ==> ScanSeen(codec, old(Value()), disk, rest) == ScanSeen(codec, Value(), disk, rest[|page|..])
      ensures r.Err? ==> ScanSeen(codec, old(Value()), disk, rest) == Err(r.error)
    {
      ghost var start := ScanSeen(codec, Value(), disk, rest);
      for i := 0 to |page|
        invariant disk == old(disk)
        invariant ScanSeen(codec, Value(), disk, rest[i..]) == start
      {
        assert page[i] == rest[i] && rest[i..][1..] == rest[i + 1..];
        r := ScanRow(page[i], Some(disk[page[i]]), false);
        if r.Err? {
          return;
        }
      }
      r := Ok(());
    }

    /** The second loop of `scan_inner`: recorded paths that are not on disk. */
    method ScanAbsent(approve: bool) returns (r: Result<()>)
      requires Faithful(codec) && "" !in entries
      modifies this
      ensures unchanged(`disk)
      ensures r.Ok? ==> ScanMissing(codec, old(Value()), approve, PathList(old(entries).Keys - disk.Keys)) == Ok(Value())
      ensures r.Err? ==> ScanMissing(codec, old(Value()), approve, PathList(old(entries).Keys - disk.Keys)) == Err(r.error)
    {
      ghost var missing := entries.Keys - disk.Keys;
      EverythingIsBeyondTheEmptyPath(missing);
      ghost var start := ScanMissing(codec, Value(), approve, PathList(missing));
      var after := "";
      while true
        invariant disk == old(disk) && entries.Keys - disk.Keys == missing
        invariant ScanMissing(codec, Value(), approve, PathList(Beyond(missing, after))) == start
        decreases |Beyond(missing, after)|
      {
        var page := NextPage(entries.Keys - disk.Keys, after);
        if page == [] {
          break;
        }
        r := ScanAbsentPage(page, approve, PathList(Beyond(missing, after)));
        if r.Err? {
          return;
        }
        after := page[|page| - 1];
      }
      r := Ok(());
    }

    method ScanAbsentPage(page: seq<Path>, approve: bool, ghost rest: seq<Path>) returns (r: Result<()>)
      requires Faithful(codec) && page <= rest && forall p :: p in page ==> p in entries
      modifies this
      ensures unchanged(`disk) && (r.Ok? ==> entries.Keys == old(entries).Keys)
      ensures r.Ok? ==>
        ScanMissing(codec, old(Value()), approve, rest) == ScanMissing(codec, Value(), approve, rest[|page|..])
      ensures r.Err? ==> ScanMissing(codec, old(Value()), approve, rest) == Err(r.error)
    {
      ghost var start := ScanMissing(codec, Value(), approve, rest);
      for i := 0 to |page|
        invariant disk == old(disk) && entries.Keys == old(entries).Keys
        invariant ScanMissing(codec, Value(), approve, rest[i..]) == start
      {
        assert page[i] == rest[i] && rest[i..][1..] == rest[i + 1..];
        ghost var before := Value();
        r := ScanRow(page[i], None, approve);
        if r.Err? {
          return;
        }
        ScanEffect(codec, before, page[i], None, approve);
      }
      r := Ok(());
    }

    /** What an aborted transaction leaves: the tables as they were. */
    method Restore(t: Tables)
      modifies this
      ensures Value() == t && unchanged(`disk)
    {
      entries, pending, incoming, needed, history := t.rows, t.pending, t.incoming, t.needed, t.history;
      cursors, sequence, epoch, recovering, objects := t.cursors, t.sequence, t.epoch, t.recovering, t.objects;
    }

    /** `visit` with `capture`: every file's bytes are in the object cache before its row is written. */
    method CaptureAll()
      modifies `objects
      ensures Value() == WithObjects(old(Value()), disk)
    {
      var todo := disk.Keys;
      while todo != {}
        invariant todo <= disk.Keys
        invariant objects == old(objects) + set p | p in disk.Keys - todo && disk[p].File? :: disk[p].hash
        decreases todo
      {
        var p :| p in todo;
        ghost var done := disk.Keys - todo;
        todo := todo - {p};
        assert disk.Keys - todo == done + {p};
        if disk[p].File? {
          objects := objects + {disk[p].hash};
        }
      }
    }

    method ScanInner(approve: bool) returns (r: Result<()>)
      requires Valid()
      modifies this
      ensures Valid() && unchanged(`disk) && (r.Ok? ==> forall p :: p in disk ==> Stored(Value(), Some(disk[p])))
      ensures r.Ok? ==> Scanned(codec, old(Value()), disk, approve) == Ok(Value())
      ensures r.Ok? ==> ScanTaken(codec, old(Value()), disk, approve, Value())
      ensures r.Err? ==> Scanned(codec, old(Value()), disk, approve) == Err(r.error) && Value() == WithObjects(old(Value()), disk)
    {
      CaptureAll();
      WithObjectsSound(codec, old(Value()), disk);
      var before := Value();
      r := ScanPresent();
      if r.Ok? {
        ScanSeenSound(codec, before, disk, PathList(disk.Keys));
        r := ScanAbsent(approve);
      }
      if r.Err? {
        Restore(before);
      } else {
        ScannedSound(codec, old(Value()), disk, approve);
        ScannedBecomes(codec, old(Value()), disk, approve);
      }
    }

    /** `scan`: refused while a restored index awaits reconciliation. */
    method Scan(approve: bool) returns (r: Result<()>)
      requires Valid()
      modifies this
      ensures Valid() && unchanged(`disk) && (r.Ok? ==> forall p :: p in disk ==> Stored(Value(), Some(disk[p])))
      ensures old(recovering) ==> r == Err(RecoveryPending) && Value() == old(Value())
      ensures !old(recovering) && r.Ok? ==> Scanned(codec, old(Value()), disk, approve) == Ok(Value())
      ensures r.Ok? ==> ScanTaken(codec, old(Value()), disk, approve, Value())
      ensures !old(recovering) && r.Err? ==>
        Scanned(codec, old(Value()), disk, approve) == Err(r.error) && Value() == WithObjects(old(Value()), disk)
    {
      if recovering {
        return Err(RecoveryPending);
      }
      r := ScanInner(approve);
    }

    // ---- Receiving ----

    method StageRecord(p: Path, remote: Heads) returns (r: Result<()>)
      requires Faithful(codec)
      modifies this
      ensures unchanged(`disk)
      ensures r.Ok? ==> StageOne(codec, old(Value()), p, remote) == Ok(Value())
      ensures r.Err? ==> StageOne(codec, old(Value()), p, remote) == Err(r.error) && Value() == old(Value())
    {
      var validated := Join(codec, [], remote);
      if validated.Err? {
        return Err(validated.error);
      }
      if validated.value == [] {
        return Err(EmptyVersions);
      }
      incoming := incoming[p := validated.value];
      Request(validated.value);
      r := Ok(());
    }

    method Request(heads: Heads)
      modifies `needed
      ensures needed == old(needed) + (Hashes(heads) - objects)
    {
      for i := 0 to |heads|
        invariant needed == old(needed) + (Hashes(heads[..i]) - objects)
      {
        assert heads[..i + 1] == heads[..i] + [heads[i]];
        if heads[i].content.File? && heads[i].content.hash !in objects {
          needed := needed + {heads[i].content.hash};
        }
      }
      assert heads[..|heads|] == heads;
    }

    /** One received page is staged in one transaction. */
    method Stage(records: seq<Record>) returns (r: Result<()>)
      requires Valid() && Named(records)
      modifies this
      ensures Valid() && unchanged(`disk)
      ensures |records| > 256 ==> r == Err(InvalidPage)
      ensures r.Ok? ==> StageEach(codec, old(Value()), records) == Ok(Value()) && StageTaken(codec, old(Value()), records, Value())
      ensures r.Ok? <==> |records| <= 256 && forall record :: record in records ==> Stageable(codec, record)
      ensures r.Err? ==> Value() == old(Value())
    {
      StageEachAccepts(codec, Value(), records);
      if StageEach(codec, Value(), records).Ok? { StageEachTakes(codec, Value(), records); }
      if |records| > 256 {
        return Err(InvalidPage);
      }
      var before := Value();
      for i := 0 to |records|
        invariant Valid() && disk == old(disk)
        invariant StageEach(codec, before, records) == StageEach(codec, Value(), records[i..])
      {
        assert records[i..][1..] == records[i + 1..] && records[i] in records;
        ghost var staged := Value();
        r := StageRecord(records[i].path, records[i].versions);
        if r.Err? {
          Restore(before);
          return;
        }
        StageKeepsSound(codec, staged, records[i].path, records[i].versions);
      }
      r := Ok(());
    }

    /** The loop of `read_metadata`: pages must be nonempty, bounded, and strictly increasing in sequence. */
    method ReadMetadata(pages: seq<seq<Record>>, ceiling: nat) returns (r: Result<()>, ghost staged: seq<Record>)
      requires Valid() && forall page :: page in pages ==> Named(page)
      modifies this
      ensures Valid() && unchanged(`disk)
      ensures StageEach(codec, old(Value()), staged) == Ok(Value()) && StageTaken(codec, old(Value()), staged, Value())
      ensures Rising(staged, 0, ceiling)
      ensures forall k :: 0 <= k < |staged| ==>
        0 < staged[k].sequence <= ceiling && forall l :: 0 <= l < k ==> staged[l].sequence < staged[k].sequence
      ensures r.Ok? ==> staged == Flattened(pages)
      ensures r.Ok? <==> FinePages(codec, pages, ceiling)
    {
      r, staged := ReadPages(pages, ceiling);
      StageEachTakes(codec, old(Value()), staged);
    }

    method ReadPages(pages: seq<seq<Record>>, ceiling: nat) returns (r: Result<()>, ghost staged: seq<Record>)
      requires Valid() && forall page :: page in pages ==> Named(page)
      modifies this
      ensures Valid() && unchanged(`disk)
      ensures StageEach(codec, old(Value()), staged) == Ok(Value())
      ensures Rising(staged, 0, ceiling)
      ensures r.Ok? ==> staged == Flattened(pages)
      ensures r.Ok? <==> FinePages(codec, pages, ceiling)
    {
      staged := [];
      var last: nat := 0;
      for i := 0 to |pages|
        invariant Valid() && disk == old(disk)
        invariant last <= ceiling && ReadSoFar(codec, old(Value()), Value(), pages, i, staged, last)
      {
        var page := pages[i];
        assert page in pages;
        if FinePages(codec, pages, ceiling) { FinePagesAreFine(codec, pages, i, ceiling); }
        ghost var before := Value();
        r := ReadPage(page, last, ceiling);
        if r.Err? {
          return;
        }
        ReadsOn(codec, old(Value()), before, Value(), pages, i, staged, last);
        staged := staged + page;
        last := page[|page| - 1].sequence;
      }
      assert pages[..|pages|] == pages;
      RisingFurther(staged, 0, last, ceiling);
      r := Ok(());
    }

    /** One page: checked, then staged. */
    method ReadPage(page: seq<Record>, last: nat, ceiling: nat) returns (r: Result<()>)
      requires Valid() && Named(page) && last <= ceiling
      modifies this
      ensures Valid() && unchanged(`disk)
      ensures r.Ok? <==> FinePage(codec, page, last, ceiling)
      ensures r.Ok? ==> StageEach(codec, old(Value()), page) == Ok(Value())
      ensures r.Ok? ==> last <= page[|page| - 1].sequence <= ceiling && Rising(page, last, page[|page| - 1].sequence)
      ensures r.Err? ==> Value() == old(Value())
    {
      if page == [] || |page| > METADATA_PAGE {
        return Err(InvalidPage);
      }
      var ok, seen := CheckPage(page, last, ceiling);
      if !ok {
        return Err(InvalidPage);
      }
      r := Stage(page);
    }

    method CommitRow(p: Path) returns (r: Result<()>)
      requires Faithful(codec) && p in incoming
      modifies this
      ensures unchanged(`disk)
      ensures r.Ok? ==> CommitOne(codec, old(Value()), p) == Ok(Value())
      ensures r.Err? ==> CommitOne(codec, old(Value()), p) == Err(r.error) && Value() == old(Value())
    {
      var versions := Ok(incoming[p]);
      if p in entries {
        versions := Join(codec, entries[p].versions, incoming[p]);
        if versions.Err? {
          return Err(versions.error);
        }
      }
      r := SaveRow(p, versions.value, if p in entries then entries[p].materialized else None,
        if p in entries then entries[p].observed else []);
    }

    method CommitPage(page: seq<Path>, ghost rest: seq<Path>) returns (r: Result<()>)
      requires Faithful(codec) && page <= rest && forall p :: p in page ==> p in incoming
      modifies this
      ensures unchanged(`disk) && incoming == old(incoming)
      ensures r.Ok? ==> CommitEach(codec, old(Value()), rest) == CommitEach(codec, Value(), rest[|page|..])
      ensures r.Err? ==> CommitEach(codec, old(Value()), rest) == Err(r.error)
    {
      ghost var start := CommitEach(codec, Value(), rest);
      for i := 0 to |page|
        invariant disk == old(disk) && incoming == old(incoming)
        invariant CommitEach(codec, Value(), rest[i..]) == start
      {
        assert page[i] == rest[i] && rest[i..][1..] == rest[i + 1..];
        r := CommitRow(page[i]);
        if r.Err? {
          return;
        }
      }
      r := Ok(());
    }

    /** The merge transaction of `commit_incoming`. */
    method MergeIncoming() returns (r: Result<()>)
      requires Valid() && needed == {}
      modifies this
      ensures Valid() && unchanged(`disk)
      ensures r.Ok? ==> Merged(codec, old(Value())) == Ok(Value()) && MergeTaken(old(Value()), Value())
      ensures r.Err? ==> Merged(codec, old(Value())) == Err(r.error) && Value() == old(Value())
    {
      var before := Value();
      if Merged(codec, before).Ok? {
        MergedSound(codec, before);
        MergedJoins(codec, before);
      }
      r := MergePages();
      if r.Err? {
        Restore(before);
      }
    }

    method MergePages() returns (r: Result<()>)
      requires Faithful(codec) && "" !in incoming
      modifies this
      ensures unchanged(`disk)
      ensures r.Ok? ==> Merged(codec, old(Value())) == Ok(Value())
      ensures r.Err? ==> Merged(codec, old(Value())) == Err(r.error)
    {
      ghost var keys := incoming.Keys;
      EverythingIsBeyondTheEmptyPath(keys);
      ghost var start := CommitEach(codec, Value(), PathList(keys));
      var after := "";
      while true
        invariant disk == old(disk) && incoming == old(incoming)
        invariant CommitEach(codec, Value(), PathList(Beyond(keys, after))) == start
        decreases |Beyond(keys, after)|
      {
        var page := NextPage(incoming.Keys, after);
        if page == [] {
          break;
        }
        r := CommitPage(page, PathList(Beyond(keys, after)));
        if r.Err? {
          return;
        }
        after := page[|page| - 1];
      }
      assert CommitEach(codec, Value(), []) == Ok(Value());
      ghost var merged := Value();
      incoming := map[];
      assert Value() == merged.(incoming := map[]);
      r := Ok(());
    }

    // ---- Applying ----

    /** `Root::apply` as the index sees it: it may fail, and it only replaces what it was told to expect. */
    method RootApply(p: Path, before: Option<Content>, after: Content) returns (ok: bool)
      modifies `disk
      ensures !ok ==> disk == old(disk)
      ensures ok ==> disk == if after == Deleted then old(disk) - {p} else old(disk)[p := after]
      ensures (ok ==> Admits(old(disk), p, before, after)) && (reliable && Admits(old(disk), p, before, after) ==> ok)
    {
      var current := if p in disk then Some(disk[p]) else None;
      if current == Visible(after) {
        assert after == Deleted ==> disk == disk - {p};
        assert after != Deleted ==> disk == disk[p := after];
        return true;
      }
      var fails: bool := *;
      if current != before || Blocked(disk, p, after) || (fails && !reliable) {
        return false;
      }
      if after == Deleted {
        disk := disk - {p};
      } else {
        disk := disk[p := after];
      }
      ok := true;
    }

    method ApplyLocal(p: Path) returns (r: Result<()>)
      requires Valid() && p in entries && p != ""
      modifies this
      ensures Valid() && SameBut(old(disk), disk, [p])
      ensures r.Ok? ==> Acknowledge(codec, old(Value()), p) == Ok(Value())
      ensures r.Ok? ==> Shown(codec, Value(), disk, p) && RowsBut(old(Value()), Value(), [p])
      ensures r.Err? ==> r == Err(ApplyFailed) && Value() == old(Value()) && disk == old(disk)
      ensures (r.Ok? ==> Lands(codec, old(Value()), old(disk), p)) && (reliable && Lands(codec, old(Value()), old(disk), p) ==> r.Ok?)
    {
      AcknowledgedContent(codec, Value(), p);
      var selected := Select(codec, entries[p].versions);
      var content := selected.value.content;
      var applied := RootApply(p, entries[p].materialized, content);
      if !applied {
        return Err(ApplyFailed);
      }
      r := SaveRow(p, entries[p].versions, Visible(content), entries[p].versions);
    }

    /** The two nested loops of `apply_pending` visit every candidate once, in one global order. */
    method ApplyPending() returns (r: Result<()>, ghost handled: seq<Path>)
      requires Valid()
      modifies this
      ensures Valid() && Applied(codec, old(Value()), Value(), handled)
      ensures r.Ok? ==> handled == ApplicationList(old(Value())) && Candidates(Value()) == {}
      ensures InApplicationOrder(old(Value()), handled)
      ensures pending == old(pending) && NoneOf(handled, pending)
      ensures SameBut(old(disk), disk, handled) && RowsBut(old(Value()), Value(), handled)
      ensures ShownEach(codec, Value(), disk, handled)
      ensures r.Ok? ==> AllApplied(Value())
      ensures r.Err? ==> r == Err(ApplyFailed) && (reliable ==> Stuck(codec, Value(), disk))
    {
      handled := [];
      ghost var t0 := Value();
      while true
        invariant Valid() && Applied(codec, t0, Value(), handled) && pending == old(pending)
        invariant NoneOf(handled, pending)
        invariant SameBut(old(disk), disk, handled) && RowsBut(t0, Value(), handled)
        invariant ShownEach(codec, Value(), disk, handled)
        decreases |ApplicationList(Value())|
      {
        ByApplicationIsStrictTotal(HeadsOf(Value()));
        var page := SelectFirst(ByApplication(HeadsOf(Value())), Candidates(Value()), PAGE);
        if page == [] {
          NoElements(ApplicationList(Value()));
          NoCandidates(Value());
          break;
        }
        ghost var done, before, disk' := handled, Value(), disk;
        r, handled := ApplyPage(page, t0, handled);
        ButTwice(t0, before, Value(), old(disk), disk', disk, done, handled);
        if r.Err? {
          AppliedInOrder(codec, t0, Value(), handled);
          return;
        }
      }
      AppliedInOrder(codec, t0, Value(), handled);
      r := Ok(());
    }

    method ApplyPage(page: seq<Path>, ghost t0: Tables, ghost before: seq<Path>) returns (r: Result<()>, ghost handled: seq<Path>)
      requires Valid() && Applied(codec, t0, Value(), before)
      requires page <= ApplicationList(Value()) && page != []
      requires NoneOf(before, pending) && ShownEach(codec, Value(), disk, before)
      modifies this
      ensures Valid() && Applied(codec, t0, Value(), handled)
      ensures RowsBut(old(Value()), Value(), handled) && ShownEach(codec, Value(), disk, handled)
      ensures r.Err? ==> r == Err(ApplyFailed) && (reliable ==> Stuck(codec, Value(), disk))
      ensures r.Ok? ==> |ApplicationList(Value())| < |ApplicationList(old(Value()))|
      ensures before <= handled && pending == old(pending) && NoneOf(handled, pending)
      ensures SameBut(old(disk), disk, handled)
    {
      handled := before;
      ghost var rest := ApplicationList(Value());
      for i := 0 to |page|
        invariant Valid() && Applied(codec, t0, Value(), handled)
        invariant ApplicationList(Value()) == rest[i..]
        invariant before <= handled && pending == old(pending) && NoneOf(handled, pending)
        invariant SameBut(old(disk), disk, handled) && RowsBut(old(Value()), Value(), handled)
        invariant ShownEach(codec, Value(), disk, handled)
      {
        ghost var t', disk' := Value(), disk;
        r := ApplyAt(page, i, rest, t0, handled);
        if r.Err? {
          return;
        }
        SameButOneMore(old(disk), disk', disk, handled, page[i]);
        NoneOfOneMore(handled, pending, page[i]);
        RowsButOneMore(old(Value()), t', Value(), handled, page[i]);
        ShownOneMore(codec, t', Value(), disk', disk, handled, page[i]);
        handled := handled + [page[i]];
      }
      r := Ok(());
    }

    /** One turn of the loop over a page. */
    method ApplyAt(page: seq<Path>, i: nat, ghost rest: seq<Path>, ghost t0: Tables, ghost handled: seq<Path>) returns (r: Result<()>)
      requires Valid() && Applied(codec, t0, Value(), handled)
      requires page <= rest && i < |page| && ApplicationList(Value()) == rest[i..]
      modifies this
      ensures Valid() && pending == old(pending) && page[i] !in pending
      ensures r.Err? ==> r == Err(ApplyFailed) && Value() == old(Value()) && disk == old(disk)
      ensures r.Ok? ==> Applied(codec, t0, Value(), handled + [page[i]]) && ApplicationList(Value()) == rest[i + 1..]
      ensures r.Ok? ==> Shown(codec, Value(), disk, page[i]) && RowsBut(old(Value()), Value(), [page[i]])
      ensures SameBut(old(disk), disk, [page[i]]) && (reliable && r.Err? ==> Stuck(codec, Value(), disk))
    {
      NextInList(page, rest, i);
      r := ApplyNext(page[i], t0, handled);
    }

    /** The next candidate: it is applied, acknowledged and leaves the list, or nothing changes. */
    method ApplyNext(p: Path, ghost t0: Tables, ghost handled: seq<Path>) returns (r: Result<()>)
      requires Valid() && Applied(codec, t0, Value(), handled)
      requires ApplicationList(Value()) != [] && p == ApplicationList(Value())[0]
      modifies this
      ensures Valid() && pending == old(pending) && p !in pending
      ensures r.Err? ==> r == Err(ApplyFailed) && Value() == old(Value()) && disk == old(disk)
      ensures r.Ok? ==> Applied(codec, t0, Value(), handled + [p]) && ApplicationList(Value()) == ApplicationList(old(Value()))[1..]
      ensures r.Ok? ==> Shown(codec, Value(), disk, p) && RowsBut(old(Value()), Value(), [p])
      ensures SameBut(old(disk), disk, [p]) && (reliable && r.Err? ==> Stuck(codec, Value(), disk))
    {
      NoElements(ApplicationList(Value()));
      ByApplicationIsStrictTotal(HeadsOf(Value()));
      AppliedExtends(codec, t0, Value(), handled);
      r := ApplyLocal(p);
    }

    /** `commit_incoming`: scan then merge, or, after a rollback, merge then scan; then apply. */
    method CommitIncoming() returns (r: Result<()>, ghost merged: Tables, ghost handled: seq<Path>)
      requires Valid()
      modifies this
      ensures Valid()
      ensures old(needed) != {} ==> r == Err(ObjectsMissing) && Value() == old(Value())
      ensures ShownEach(codec, Value(), disk, handled) && SameBut(old(disk), disk, handled)
      ensures r.Ok? ==> AllApplied(Value()) && RowsBut(merged, Value(), handled) && InApplicationOrder(merged, handled)
      ensures r.Ok? && !old(recovering) ==>
        && Scanned(codec, old(Value()), old(disk), false).Ok?
        && ScanTaken(codec, old(Value()), old(disk), false, Scanned(codec, old(Value()), old(disk), false).value)
        && Merged(codec, Scanned(codec, old(Value()), old(disk), false).value) == Ok(merged)
        && MergeTaken(Scanned(codec, old(Value()), old(disk), false).value, merged)
        && AcknowledgeEach(codec, merged, handled) == Ok(Value()) && handled == ApplicationList(merged)
      ensures r.Ok? && old(recovering) ==>
        && Merged(codec, old(Value())).Ok? && MergeTaken(old(Value()), Merged(codec, old(Value())).value)
        && Scanned(codec, Merged(codec, old(Value())).value, old(disk), false) == Ok(merged)
        && ScanTaken(codec, Merged(codec, old(Value())).value, old(disk), false, merged)
        && AcknowledgeEach(codec, merged, handled).Ok? && handled == ApplicationList(merged)
        && Value() == AcknowledgeEach(codec, merged, handled).value.(recovering := false)
      ensures r.Err? && reliable && old(needed) == {} && !old(recovering) ==>
        || Scanned(codec, old(Value()), old(disk), false).Err?
        || Merged(codec, Scanned(codec, old(Value()), old(disk), false).value).Err?
        || Stuck(codec, Value(), disk)
      ensures r.Err? && reliable && old(needed) == {} && old(recovering) ==>
        || Merged(codec, old(Value())).Err?
        || Scanned(codec, Merged(codec, old(Value())).value, old(disk), false).Err?
        || Stuck(codec, Value(), disk)
    {
      merged, handled := Value(), [];
      if needed != {} {
        return Err(ObjectsMissing), merged, handled;
      }
      var recovery := recovering;
      if !recovery {
        r := Scan(false);
        if r.Err? {
          return;
        }
        ScannedKeepsNeeded(codec, old(Value()), disk, false);
      }
      r := MergeIncoming();
      if r.Err? {
        return;
      }
      if recovery {
        r := ScanInner(false);
        if r.Err? {
          return;
        }
      }
      merged := Value();
      ghost var done;
      r, done := ApplyPending();
      handled := done;
      if r.Ok? && recovery {
        recovering := false;
        WithFlagSound(codec, AcknowledgeEach(codec, merged, handled).value);
      }
    }

    // ---- Sending ----

    method Records(since: nat, ceiling: nat, limit: nat) returns (page: seq<Record>)
      ensures |page| <= limit && |page| <= |RowList(Value(), since, ceiling)|
      ensures page == RecordsOf(Value(), RowList(Value(), since, ceiling)[..|page|])
      ensures |page| < limit ==> |page| == |RowList(Value(), since, ceiling)|
      ensures forall record :: record in page ==> IsRow(Value(), record) && since < record.sequence <= ceiling
    {
      BySequenceIsStrictTotal();
      var t := Value();
      var keys := SelectFirst(BySequence(), RowKeys(t, since, ceiling), limit);
      page := seq(|keys|, i requires 0 <= i < |keys| => RecordOf(t, keys[i]));
      assert page == RecordsOf(t, keys);
      forall i | 0 <= i < |keys| ensures IsRow(t, page[i]) && since < page[i].sequence <= ceiling {
        assert keys[i] in Elements(RowList(t, since, ceiling));
      }
    }

    /** The loop of `send_metadata`: bounded nonempty pages that together are the rows past `from`. */
    method SendMetadata(from: nat, ceiling: nat) returns (r: Result<seq<seq<Record>>>)
      requires Valid()
      ensures r.Err? <==> from > ceiling
      ensures r.Ok? ==> Flattened(r.value) == RecordsOf(Value(), RowList(Value(), from, ceiling))
      ensures r.Ok? ==> SendsRows(Value(), Flattened(r.value), from, ceiling)
      ensures r.Ok? ==> forall page :: page in r.value ==> 0 < |page| <= METADATA_PAGE
    {
      if from > ceiling {
        return Err(CursorBeyondSequence);
      }
      var since := from;
      var pages: seq<seq<Record>> := [];
      ghost var list := RowList(Value(), from, ceiling);
      ghost var sent: nat := 0;
      while true
        invariant from <= since <= ceiling && Sending(Value(), pages, list, sent, since, ceiling)
        invariant forall page :: page in pages ==> 0 < |page| <= METADATA_PAGE
        decreases ceiling - since
      {
        var page := Records(since, ceiling, METADATA_PAGE);
        if page == [] {
          break;
        }
        SendingContinues(codec, Value(), pages, page, list, sent, since, ceiling);
        pages := pages + [page];
        since := page[|page| - 1].sequence;
        sent := sent + |page|;
      }
      assert list[..sent] == list;
      SentAreTheRows(codec, Value(), from, ceiling);
      r := Ok(pages);
    }

    /** The loop of `pull_objects`: every round receives what it asked for, so the requests run out. */
    method PullObjects() returns (complete: bool)
      requires Valid()
      modifies `objects, `needed
      ensures Valid()
      ensures needed <= old(needed) && objects == old(objects) + (old(needed) - needed)
      ensures (complete ==> needed == {}) && (reliable ==> complete)
    {
      ByPathIsStrictTotal();
      while true
        invariant Valid() && needed <= old(needed) && objects == old(objects) + (old(needed) - needed)
        invariant Value() == old(Value()).(objects := objects, needed := needed)
        decreases |needed|
      {
        var missing := SelectFirst(ByPath(), needed, OBJECT_PAGE);
        if missing == [] {
          NoElements(Listing(ByPath(), needed));
          return true;
        }
        ghost var before := needed;
        complete := ReceiveObjects(missing);
        if !complete {
          return;
        }
        assert missing[0] in before && missing[0] !in needed;
        Smaller(needed, before);
      }
    }

    /** One round: the requested objects arrive one by one, or the connection ends. */
    method ReceiveObjects(missing: seq<Hash>) returns (complete: bool)
      requires Valid() && (forall h :: h in missing ==> h in needed) && forall j, k :: 0 <= j < k < |missing| ==> missing[j] != missing[k]
      modifies `objects, `needed
      ensures Valid() && needed <= old(needed) && objects == old(objects) + (old(needed) - needed)
      ensures Value() == old(Value()).(objects := objects, needed := needed)
      ensures (complete ==> forall h :: h in missing ==> h !in needed) && (reliable ==> complete)
    {
      for i := 0 to |missing|
        invariant Valid() && needed <= old(needed) && objects == old(objects) + (old(needed) - needed)
        invariant Value() == old(Value()).(objects := objects, needed := needed)
        invariant forall j :: i <= j < |missing| ==> missing[j] in needed
        invariant forall j :: 0 <= j < i ==> missing[j] !in needed
      {
        var arrives: bool := *;
        if !arrives && !reliable {
          return false;
        }
        ReceivedKeepsSound(codec, Value(), missing[i]);
        objects := objects + {missing[i]};
        needed := needed - {missing[i]};
      }
      complete := true;
    }

    // ---- Reviewed deletions and choices ----

    function DiskAt(p: Path): Option<Content>
      reads this
    {
      if p in disk then Some(disk[p]) else None
    }

    method ApproveDeletion(p: Path, expected: Heads) returns (r: Result<()>, ghost t: Tables)
      requires Valid()
      modifies this
      ensures Valid() && unchanged(`disk)
      ensures !old(recovering) && Scanned(codec, old(Value()), disk, false).Ok? ==>
        Scanned(codec, old(Value()), disk, false) == Ok(t) && Approved(t, p, expected, r) && ReviewTaken(t, p, expected, r)
      ensures old(recovering) || Scanned(codec, old(Value()), disk, false).Err? ==> r.Err?
    {
      r := Scan(false);
      t := Value();
      if r.Ok? {
        r := ApproveScanned(p, expected);
      }
    }

    /** How `approve_deletion` leaves the index, from the scanned tables `t`. */
    ghost predicate Approved(t: Tables, p: Path, expected: Heads, r: Result<()>)
      requires Faithful(codec)
      reads this
    {
      match ApproveReviewed(codec, t, p, expected, DiskAt(p))
      case Ok(after) => r.Ok? && Value() == after
      case Err(e) => r == Err(e) && Value() == t
    }

    /** The same in terms of the row: a deletion exactly of what was reviewed, still pending and still absent. */
    ghost predicate ReviewTaken(t: Tables, p: Path, expected: Heads, r: Result<()>)
      reads this
    {
      && (r.Ok? ==>
            && p in t.pending && VersionsAt(t, p) == expected && p !in disk
            && EditedTo(t, Value(), p, Deleted) && entries[p].materialized == None && RowsElsewhere(t, Value(), p))
      && (r.Err? ==> Value() == t)
      && (p in t.rows && (p !in t.pending || t.rows[p].versions != expected || p in disk) ==> r == Err(StaleReview))
    }

    method ApproveScanned(p: Path, expected: Heads) returns (r: Result<()>)
      requires Valid()
      modifies this
      ensures Valid() && unchanged(`disk)
      ensures Approved(old(Value()), p, expected, r) && ReviewTaken(old(Value()), p, expected, r)
    {
      if p !in entries {
        return Err(Unknown);
      }
      if p !in pending || entries[p].versions != expected || p in disk {
        return Err(StaleReview);
      }
      r := IssueRevision(p, Deleted, None);
      if r.Ok? {
        IssueKeepsSound(codec, old(Value()), p, Deleted, None);
        IssueEffect(codec, old(Value()), p, Deleted, None);
        IssueEdits(codec, old(Value()), p, Deleted, None);
      }
    }

    /**
     `choose`, of a current head or of a retained older revision, by identifier. When the folder change
     fails after the choice was recorded, the choice stays recorded but unobserved.
     */
    method ChooseRevision(p: Path, revision: nat, historical: bool)
      returns (r: Result<()>, ghost t: Tables, ghost chosen: Option<Revision>)
      requires Valid() && p != ""
      modifies this
      ensures Valid()
      ensures chosen.None? ==> r.Err? && disk == old(disk)
      ensures chosen.None? && !old(recovering) && Scanned(codec, old(Value()), old(disk), false).Ok? ==>
        Scanned(codec, old(Value()), old(disk), false) == Ok(t) &&
        forall h :: Eligible(codec, t, p, revision, historical, h) ==> Resolve(codec, t, p, h.content, old(DiskAt(p))).Err?
      ensures chosen.Some? && reliable ==> (r.Ok? <==> Admits(old(disk), p, old(DiskAt(p)), chosen.value.content))
      ensures chosen.Some? ==>
        && Scanned(codec, old(Value()), old(disk), false) == Ok(t)
        && (p, chosen.value) in t.history && codec.id(chosen.value) == revision
        && (!historical ==> chosen.value in VersionsAt(t, p))
        && Chosen(t, p, chosen.value.content, if p in old(disk) then Some(old(disk)[p]) else None, r)
        && ChoiceTaken(t, p, chosen.value.content, if p in old(disk) then Some(old(disk)[p]) else None, r)
        && (r.Err? ==> disk == old(disk))
    {
      t, chosen := Value(), None;
      r := Scan(false);
      if r.Err? {
        return;
      }
      t := Value();
      if p !in entries {
        return Err(Unknown), t, chosen;
      }
      var found := FindRevision(p, revision, historical);
      if found.None? {
        return Err(Unknown), t, chosen;
      }
      var resolved;
      r, resolved := ResolveAndApply(p, found.value);
      if resolved {
        chosen := found;
      }
    }

    /** How `choose` leaves the index, from the scanned tables `t`. */
    ghost predicate Chosen(t: Tables, p: Path, content: Content, actual: Option<Content>, r: Result<()>)
      requires Faithful(codec)
      reads this
    {
      if r.Ok? then Choose(codec, t, p, content, actual) == Ok(Value()) && (if p in disk then disk[p] else Deleted) == content
      else Resolve(codec, t, p, content, actual) == Ok(Value())
    }

    /**
     The same in terms of the row: one head with the chosen content that supersedes every former head; observed and
     shown if the folder took it, and otherwise beside what was observed and shown before.
     */
    ghost predicate ChoiceTaken(t: Tables, p: Path, content: Content, actual: Option<Content>, r: Result<()>)
      reads this
    {
      && p in t.rows && p in entries && RowsElsewhere(t, Value(), p) && p !in pending
      && |entries[p].versions| == 1 && entries[p].versions[0].content == content
      && (forall h :: h in t.rows[p].versions ==> Clocks.Compare(h.clock, entries[p].versions[0].clock) == Clocks.Before)
      && (if r.Ok? then Shown(codec, Value(), disk, p)
          else entries[p].observed == t.rows[p].observed && entries[p].materialized == actual)
    }

    method ResolveAndApply(p: Path, chosen: Revision) returns (r: Result<()>, resolved: bool)
      requires Valid() && p in entries && p != "" && (p, chosen) in history
      requires Stored(Value(), DiskAt(p))
      modifies this
      ensures Valid() && (r.Err? ==> disk == old(disk))
      ensures !resolved ==> r.Err? && Value() == old(Value()) && Resolve(codec, old(Value()), p, chosen.content, old(DiskAt(p))).Err?
      ensures resolved && reliable ==> (r.Ok? <==> Admits(old(disk), p, old(DiskAt(p)), chosen.content))
      ensures resolved ==> Chosen(old(Value()), p, chosen.content, old(DiskAt(p)), r)
      ensures resolved ==> ChoiceTaken(old(Value()), p, chosen.content, old(DiskAt(p)), r)
    {
      r := ResolveKept(p, chosen);
      resolved := r.Ok?;
      if resolved {
        r := ApplyLocal(p);
      }
    }

    /** The same with what it means for the index. */
    method ResolveKept(p: Path, chosen: Revision) returns (r: Result<()>)
      requires Valid() && p in entries && (p, chosen) in history && Stored(Value(), DiskAt(p))
      modifies this
      ensures Valid() && unchanged(`disk) && (r.Err? ==> Value() == old(Value()))
      ensures r.Err? ==> Resolve(codec, old(Value()), p, chosen.content, DiskAt(p)).Err?
      ensures r.Ok? ==> Resolve(codec, old(Value()), p, chosen.content, DiskAt(p)) == Ok(Value())
      ensures r.Ok? ==> p in entries && Selects(codec, entries[p].versions, chosen.content)
      ensures r.Ok? ==> ResolvedTo(old(Value()), Value(), p, chosen.content, DiskAt(p))
    {
      assert Stored(Value(), Some((p, chosen).1.content));
      r := ResolveRow(p, chosen.content);
      if r.Ok? {
        ResolveKeepsSound(codec, old(Value()), p, chosen.content, DiskAt(p));
        InterruptedSelects(codec, old(Value()), Value(), p, chosen.content, DiskAt(p));
        ResolvedRow(codec, old(Value()), p, chosen.content, DiskAt(p));
      }
    }

    method FindRevision(p: Path, revision: nat, historical: bool) returns (found: Option<Revision>)
      requires Valid() && p in entries
      ensures found.Some? ==> (p, found.value) in history && codec.id(found.value) == revision
      ensures found.Some? && !historical ==> found.value in entries[p].versions
      ensures found.None? && historical ==> forall h :: h in history && h.0 == p ==> codec.id(h.1) != revision
      ensures found.None? && !historical ==> forall h :: h in entries[p].versions ==> codec.id(h) != revision
    {
      if historical {
        found := FindRetained(p, revision);
      } else {
        found := FindHead(entries[p].versions, revision);
        assert RowSound(codec, Value(), p);
        assert found.Some? ==> (p, found.value) in Revisions(p, entries[p].versions);
      }
    }

    method FindRetained(p: Path, revision: nat) returns (found: Option<Revision>)
      ensures found.Some? ==> (p, found.value) in history && codec.id(found.value) == revision
      ensures found.None? ==> forall h :: h in history && h.0 == p ==> codec.id(h.1) != revision
    {
      if exists h :: h in history && h.0 == p && codec.id(h.1) == revision {
        var h :| h in history && h.0 == p && codec.id(h.1) == revision;
        return Some(h.1);
      }
      found := None;
    }

    method FindHead(heads: Heads, revision: nat) returns (found: Option<Revision>)
      ensures found.Some? ==> found.value in heads && codec.id(found.value) == revision
      ensures found.None? ==> forall h :: h in heads ==> codec.id(h) != revision
    {
      for i := 0 to |heads|
        invariant forall j :: 0 <= j < i ==> codec.id(heads[j]) != revision
      {
        if codec.id(heads[i]) == revision {
          return Some(heads[i]);
        }
      }
      found := None;
    }

    /** The first transaction of `choose`. */
    method ResolveRow(p: Path, content: Content) returns (r: Result<()>)
      requires Faithful(codec) && p in entries
      modifies this
      ensures unchanged(`disk)
      ensures r.Ok? ==> Resolve(codec, old(Value()), p, content, DiskAt(p)) == Ok(Value())
      ensures r.Err? ==> Resolve(codec, old(Value()), p, content, DiskAt(p)) == Err(r.error) && Value() == old(Value())
    {
      var versions := Edit(codec, entries[p].versions, epoch, content);
      if versions.Err? {
        return Err(versions.error);
      }
      r := SaveRow(p, versions.value, DiskAt(p), entries[p].observed);
      if r.Ok? {
        pending := pending - {p};
      }
    }
  }
}
