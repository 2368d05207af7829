/** What scanning does to a path beyond one step: rescans, the publication gap, recovery, interrupted choices. */
module Scans {
  import opened Results
  import opened Clocks
  import opened Ordering
  import opened Paths
  import opened Register
  import opened Lattice
  import opened Causality
  import opened Index
  import opened Effects

  // ---- What a scan of one path comes to, in terms of its row ----

  /** One new revision of `content`, causally after everything observed, beside every head it does not supersede. */
  ghost predicate EditedTo(t: Tables, after: Tables, p: Path, content: Content) {
    && p in after.rows && |after.rows[p].observed| == 1
    && var n := after.rows[p].observed[0];
    && n.content == content
    && (forall h :: h in ObservedAt(t, p) ==> Compare(h.clock, n.clock) == Before)
    && Elements(after.rows[p].versions) == Maximal(Elements(VersionsAt(t, p)) + {n})
    && p !in after.pending
  }

  /** The row is the old one but for what it shows on disk and what it has observed. */
  predicate Settled(t: Tables, after: Tables, p: Path, materialized: Option<Content>, observed: Heads) {
    && p in t.rows && p in after.rows && p !in after.pending
    && after.rows[p] == t.rows[p].(materialized := materialized, observed := observed)
  }

  predicate Undisturbed(t: Tables, after: Tables, p: Path) {
    p in t.rows && p in after.rows && after.rows[p] == t.rows[p]
  }

  /** The row has heads that were not shown or taken note of yet. */
  predicate Unacknowledged(t: Tables, p: Path) {
    p in t.rows && t.rows[p].versions != t.rows[p].observed
  }

  /** A file or directory was found. */
  ghost predicate FoundBecomes(c: Codec, t: Tables, after: Tables, p: Path, content: Content) {
    if Unacknowledged(t, p) && exists h :: h in t.rows[p].versions && h.content == content then
      var shown := Selected(c, t.rows[p].versions);
      Settled(t, after, p, Some(content),
        if shown.Some? && shown.value.content == content then t.rows[p].versions else t.rows[p].observed)
    else if p in t.rows && t.rows[p].materialized == Some(content) then
      Undisturbed(t, after, p) && p !in after.pending
    else
      EditedTo(t, after, p, content) && after.rows[p].materialized == Some(content)
  }

  /** A recorded path was found missing. */
  ghost predicate MissingBecomes(c: Codec, t: Tables, after: Tables, p: Path, approve: bool) {
    if Unacknowledged(t, p) && Selected(c, t.rows[p].versions).Some? && Selected(c, t.rows[p].versions).value.content == Deleted then
      Settled(t, after, p, None, t.rows[p].versions)
    else if p in t.rows && t.rows[p].materialized.None? then
      Undisturbed(t, after, p) && (p in after.pending <==> p in t.pending)
    else if approve then
      EditedTo(t, after, p, Deleted) && after.rows[p].materialized == None
    else
      Undisturbed(t, after, p) && p in after.pending
  }

  /**
   Every case of a scan: a content that the row neither shows nor awaits becomes one new revision on top of what was
   observed; a missing path becomes a deletion only if that was approved, and waits for review otherwise; in every
   other case the heads stay.
   */
  lemma ScanBecomes(c: Codec, t: Tables, p: Path, found: Option<Content>, approve: bool)
    requires Faithful(c) && (found.Some? || p in t.rows) && found != Some(Deleted)
    requires ScanPath(c, t, p, found, approve).Ok?
    ensures var after := ScanPath(c, t, p, found, approve).value;
      match found
      case Some(content) => FoundBecomes(c, t, after, p, content)
      case None => MissingBecomes(c, t, after, p, approve)
  {
    match Decide(c, t, p, found, approve)
    case Keep =>
    case Adopt(_) =>
    case Issue(content) => IssueEdits(c, t, p, content, found);
    case Review =>
  }

  lemma IssueEdits(c: Codec, t: Tables, p: Path, content: Content, found: Option<Content>)
    requires Faithful(c) && IssueAt(c, t, p, content, found).Ok?
    ensures var after := IssueAt(c, t, p, content, found).value;
      EditedTo(t, after, p, content) && after.rows[p].materialized == found
  {
    IssueEffect(c, t, p, content, found);
    EditIsAfter(ObservedAt(t, p), t.epoch, content);
  }

  lemma EditIsAfter(base: Heads, replica: Device, content: Content)
    requires NextRevision(base, replica, content).Ok?
    ensures var n := NextRevision(base, replica, content).value;
      n.content == content && forall h :: h in base ==> Compare(h.clock, n.clock) == Before
  {
    var n := NextRevision(base, replica, content).value;
    AdvanceIsLater(Knowledge(base), replica);
    KnowledgeIsLeast(base, n.clock);
    forall h | h in base ensures Compare(h.clock, n.clock) == Before {
      if Leq(n.clock, h.clock) { LeqTransitive(n.clock, h.clock, Knowledge(base)); }
    }
  }

  /** What is on disk is news to the row, and, if the path is missing, the deletion was approved. */
  predicate NeedsRevision(c: Codec, t: Tables, p: Path, found: Option<Content>, approve: bool) {
    match found
    case Some(content) =>
      && !(Unacknowledged(t, p) && exists h :: h in t.rows[p].versions && h.content == content)
      && !(p in t.rows && t.rows[p].materialized == found)
    case None =>
      && approve && p in t.rows && t.rows[p].materialized.Some?
      && !(Unacknowledged(t, p) && Selected(c, t.rows[p].versions).Some? && Selected(c, t.rows[p].versions).value.content == Deleted)
  }

  lemma RevisionIssued(c: Codec, t: Tables, p: Path, found: Option<Content>, approve: bool)
    requires Faithful(c) && (found.Some? || p in t.rows)
    ensures NeedsRevision(c, t, p, found, approve) ==>
      Decide(c, t, p, found, approve) == Issue(if found.Some? then found.value else Deleted)
    ensures !NeedsRevision(c, t, p, found, approve) ==> !Decide(c, t, p, found, approve).Issue?
  {
  }

  /** Only the row at the path and its review flag matter. */
  predicate SameAt(t: Tables, t': Tables, p: Path) {
    RowAt(t, p) == RowAt(t', p) && (p in t.pending <==> p in t'.pending)
  }

  lemma BecomesOfSame(c: Codec, t: Tables, t': Tables, after: Tables, after': Tables, p: Path)
    requires SameAt(t, t', p) && SameAt(after, after', p)
    ensures forall content {:trigger FoundBecomes(c, t, after, p, content)} :: FoundBecomes(c, t, after, p, content) <==> FoundBecomes(c, t', after', p, content)
    ensures forall approve :: MissingBecomes(c, t, after, p, approve) <==> MissingBecomes(c, t', after', p, approve)
  {
    assert p in t.rows ==> t.rows[p] == t'.rows[p];
    assert p in after.rows ==> after.rows[p] == after'.rows[p];
    assert ObservedAt(t, p) == ObservedAt(t', p) && VersionsAt(t, p) == VersionsAt(t', p);
  }

  lemma ScanElsewhere(c: Codec, t: Tables, x: Path, found: Option<Content>, approve: bool, p: Path)
    requires Faithful(c) && (found.Some? || x in t.rows) && ScanPath(c, t, x, found, approve).Ok? && p != x
    ensures SameAt(t, ScanPath(c, t, x, found, approve).value, p)
  {
    match Decide(c, t, x, found, approve)
    case Keep =>
    case Adopt(observed) => SaveElsewhere(t, x, VersionsAt(t, x), found, observed, p);
    case Issue(content) => IssueElsewhere(c, t, x, content, found, p);
    case Review =>
  }

  lemma IssueElsewhere(c: Codec, t: Tables, x: Path, content: Content, found: Option<Content>, p: Path)
    requires Faithful(c) && IssueAt(c, t, x, content, found).Ok? && p != x
    ensures SameAt(t, IssueAt(c, t, x, content, found).value, p)
  {
    var local := Edited(c, ObservedAt(t, x), t.epoch, content).value;
    SaveElsewhere(t, x, if x in t.rows then Joined(c, t.rows[x].versions, local).value else local, found, local, p);
  }

  lemma SaveElsewhere(t: Tables, x: Path, versions: Heads, found: Option<Content>, observed: Heads, p: Path)
    requires Save(t, x, versions, found, observed).Ok? && p != x
    ensures SameAt(t, Save(t, x, versions, found, observed).value, p)
  {
  }

  // ---- Repeated scans, the publication gap, recovery ----

  lemma ScanSettles(c: Codec, t: Tables, p: Path, found: Option<Content>, approve: bool)
    requires Faithful(c) && (found.Some? || p in t.rows) && ScanPath(c, t, p, found, approve).Ok?
    ensures var after := ScanPath(c, t, p, found, approve).value;
      p in after.rows && (after.rows[p].materialized == found || (found.None? && !approve))
  {
    var decision := Decide(c, t, p, found, approve);
    if decision.Issue? {
      IssueEffect(c, t, p, decision.content, found);
    } else {
      QuietScanSettles(c, t, p, found, approve);
    }
  }

  lemma QuietScanSettles(c: Codec, t: Tables, p: Path, found: Option<Content>, approve: bool)
    requires Faithful(c) && (found.Some? || p in t.rows) && ScanPath(c, t, p, found, approve).Ok?
    requires !Decide(c, t, p, found, approve).Issue?
    ensures var after := ScanPath(c, t, p, found, approve).value;
      p in after.rows && (after.rows[p].materialized == found || (found.None? && !approve))
  {}

  lemma QuietScanSucceeds(c: Codec, t: Tables, p: Path, found: Option<Content>, approve: bool)
    requires Faithful(c) && (found.Some? || p in t.rows) && !Decide(c, t, p, found, approve).Issue?
    ensures ScanPath(c, t, p, found, approve).Ok?
    ensures var after := ScanPath(c, t, p, found, approve).value;
      VersionsAt(after, p) == VersionsAt(t, p) && after.sequence == t.sequence
  {}

  /** Scanning the same disk again issues nothing, whatever the first scan did. */
  lemma RescanIssuesNothing(c: Codec, t: Tables, p: Path, found: Option<Content>, approve: bool)
    requires Faithful(c) && (found.Some? || p in t.rows) && ScanPath(c, t, p, found, approve).Ok?
    ensures var first := ScanPath(c, t, p, found, approve).value;
      && (found.Some? || p in first.rows)
      && ScanPath(c, first, p, found, approve).Ok?
      && !Decide(c, first, p, found, approve).Issue?
      && VersionsAt(ScanPath(c, first, p, found, approve).value, p) == VersionsAt(first, p)
      && ScanPath(c, first, p, found, approve).value.sequence == first.sequence
  {
    ScanSettles(c, t, p, found, approve);
    SettledStaysQuiet(c, ScanPath(c, t, p, found, approve).value, p, found, approve);
  }

  lemma SettledStaysQuiet(c: Codec, t: Tables, p: Path, found: Option<Content>, approve: bool)
    requires Faithful(c) && p in t.rows && (t.rows[p].materialized == found || (found.None? && !approve))
    ensures !Decide(c, t, p, found, approve).Issue?
    ensures ScanPath(c, t, p, found, approve).Ok?
    ensures var after := ScanPath(c, t, p, found, approve).value;
      VersionsAt(after, p) == VersionsAt(t, p) && after.sequence == t.sequence
  {
    QuietScanSucceeds(c, t, p, found, approve);
  }

  /**
   Between a folder change and its acknowledgement in the index, a scan sees the old or the new
   content. Either way it issues nothing and leaves the heads alone; seeing the new content completes
   the acknowledgement.
   */
  lemma PublicationGapInventsNothing(c: Codec, t: Tables, p: Path, found: Option<Content>, approve: bool)
    requires Faithful(c) && p in t.rows && t.rows[p].versions != t.rows[p].observed && t.rows[p].versions != []
    requires found == t.rows[p].materialized || found == Visible(Selected(c, t.rows[p].versions).value.content)
    requires approve ==> found.Some? || t.rows[p].materialized.None? || Selects(c, t.rows[p].versions, Deleted)
    requires found.Some? ==> found.value != Deleted
    ensures ScanPath(c, t, p, found, approve).Ok?
    ensures var after := ScanPath(c, t, p, found, approve).value;
      && after.rows[p].versions == t.rows[p].versions && after.sequence == t.sequence
      && (found == Visible(Selected(c, t.rows[p].versions).value.content) ==>
            after.rows[p].observed == t.rows[p].versions && after.rows[p].materialized == found)
  {
    var content := Selected(c, t.rows[p].versions).value.content;
    assert HasContent(t.rows[p].versions, content);
  }

  /**
   Recovery: once remote heads are merged in, bytes that equal some head or the old materialization
   issue nothing; any other bytes issue exactly one revision, beside every head not yet observed.
   */
  lemma RecoveryIssuesOnlyUnknownBytes(c: Codec, log: Log, t: Tables, p: Path, content: Content)
    requires Faithful(c) && p in t.rows && t.rows[p].versions != t.rows[p].observed && content != Deleted
    requires Closed(log) && Known(log, t.rows[p].versions) && Known(log, t.rows[p].observed)
    requires KnowsOwn(log, t.epoch, t.rows[p].observed) && Normal(c, t.rows[p].versions)
    requires ScanPath(c, t, p, Some(content), false).Ok?
    ensures var after := ScanPath(c, t, p, Some(content), false).value; var row := t.rows[p];
      if HasContent(row.versions, content) || row.materialized == Some(content) then
        VersionsAt(after, p) == row.versions
      else
        && NextRevision(row.observed, t.epoch, content).Ok?
        && var next := NextRevision(row.observed, t.epoch, content).value;
        && next !in log && ObservedAt(after, p) == [next]
        && Elements(VersionsAt(after, p)) == {next} + Unobserved(t, p)
  {
    var row := t.rows[p];
    ScanEffect(c, t, p, Some(content), false);
    if !HasContent(row.versions, content) && row.materialized != Some(content) {
      assert Decide(c, t, p, Some(content), false) == Issue(content);
      SupersessionShape(c, log, t, ScanPath(c, t, p, Some(content), false).value, p, content);
      NextIsNew(log, row.observed, t.epoch, content);
    }
  }

  /** The heads that are not covered by what was observed. */
  ghost function Unobserved(t: Tables, p: Path): set<Revision> {
    set h | h in Elements(VersionsAt(t, p)) && !Covered(h, Elements(ObservedAt(t, p)))
  }

  lemma SupersessionShape(c: Codec, log: Log, t: Tables, after: Tables, p: Path, content: Content)
    requires Faithful(c) && Closed(log) && Normal(c, VersionsAt(t, p)) && Known(log, VersionsAt(t, p))
    requires Known(log, ObservedAt(t, p)) && KnowsOwn(log, t.epoch, ObservedAt(t, p))
    requires IssuedRow(c, t, after, p, ObservedAt(t, p), content)
    ensures var next := NextRevision(ObservedAt(t, p), t.epoch, content).value;
      && next !in VersionsAt(t, p)
      && Elements(VersionsAt(after, p)) == {next} + Unobserved(t, p)
  {
    NormalForm(c, VersionsAt(t, p));
    EditKeepsUnseenHeads(log, Elements(VersionsAt(t, p)), ObservedAt(t, p), t.epoch, content);
  }
}
