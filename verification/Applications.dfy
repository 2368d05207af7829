/** Index and folder together: an application that is cut off anywhere never makes a scan invent a revision. */
module Applications {
  import opened Results
  import opened Paths
  import opened Register
  import opened Index
  import opened Scans
  import opened Causality
  import opened Choices
  import opened FolderHistory
  import opened RootJournal

  /**
   One application of the selected head, cut off anywhere, any number of cut-off recoveries, and the recovery
   that every scan begins with. The index still says that the application is outstanding.
   */
  method ApplyCutOff(c: Codec, t: Tables, root: Root, p: Path, crashes: nat) returns (outcome: Outcome)
    requires Faithful(c) && root.Valid() && SettledIn(root.View(), p)
    requires p in t.rows && t.rows[p].versions != [] && t.rows[p].versions != t.rows[p].observed
    requires root.ContentAt(p) == t.rows[p].materialized
    modifies root
    ensures root.Valid() && JournalGrows(old(root.journal), root.journal)
    ensures root.quiet && outcome == Done ==>
      && ScanPath(c, t, p, root.ContentAt(p), false).Ok?
      && var after := ScanPath(c, t, p, root.ContentAt(p), false).value;
      && VersionsAt(after, p) == VersionsAt(t, p) && after.sequence == t.sequence
      && (root.ContentAt(p) == Visible(Selected(c, t.rows[p].versions).value.content) ==>
            after.rows[p].observed == t.rows[p].versions && after.rows[p].materialized == root.ContentAt(p))
  {
    var selected := Selected(c, t.rows[p].versions).value.content;
    outcome := root.ApplyThroughCrashes(p, t.rows[p].materialized, selected, crashes);
    if root.quiet && outcome == Done {
      PublicationGapInventsNothing(c, t, p, root.ContentAt(p), false);
    }
  }

  /**
   No crash is needed to leave a choice half done: the folder refuses a directory in place of a file and a file in
   place of a directory, every time, and scanning what is still there leaves the hazard for the next edit.
   */
  method ChooseOtherKind(c: Codec, t: Tables, root: Root, p: Path, chosen: Content, ghost log: Log, ghost choice: Revision)
    returns (outcome: Outcome)
    requires Faithful(c) && root.Valid() && Hazard(log, t, p, choice) && choice.content == chosen
    requires root.ContentAt(p) == t.rows[p].materialized && KindsClash(root.ContentAt(p), chosen)
    modifies root
    ensures root.Valid() && NothingLost(old(root.trace), root.trace, root.names, root.journal, root.objects)
    ensures root.quiet ==> outcome in {Failed, Crashed} && root.ContentAt(p) == old(root.ContentAt(p))
    ensures root.quiet ==> forall approve :: var after := ScanPath(c, t, p, root.ContentAt(p), approve);
      after.Ok? && Hazard(log, after.value, p, choice)
  {
    ghost var own;
    outcome, own := root.Apply(p, t.rows[p].materialized, chosen);
    if root.quiet {
      assert root.ContentAt(p) == ContentIn(root.View(), p);
      forall approve
        ensures ScanPath(c, t, p, root.ContentAt(p), approve).Ok?
        ensures Hazard(log, ScanPath(c, t, p, root.ContentAt(p), approve).value, p, choice)
      {
        ScanOfHazardDecides(c, log, t, p, choice, root.ContentAt(p), approve);
        QuietScanKeepsHazard(c, log, t, p, choice, root.ContentAt(p), approve);
      }
    }
  }
}
