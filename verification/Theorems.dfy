/** The guarantees of the synchroniser, over every run of the network. */
module Theorems {
  import opened Results
  import opened Clocks
  import opened Ordering
  import opened Paths
  import opened Register
  import opened Lattice
  import opened Causality
  import opened Index
  import opened Effects
  import opened Scans
  import opened Network
  import opened CausalSafety
  import opened ExchangeSafety

  /** A run: states linked by the steps taken between them. */
  ghost predicate Run(c: Codec, states: seq<System>, steps: seq<Step>)
    requires Faithful(c)
  {
    && |states| == |steps| + 1 && Initial(states[0])
    && forall i :: 0 <= i < |steps| ==> Next(c, states[i], steps[i], states[i + 1])
  }

  ghost predicate Reachable(c: Codec, s: System)
    requires Faithful(c)
  {
    exists states, steps :: Run(c, states, steps) && states[|steps|] == s
  }

  lemma {:induction false} RunsAreSafe(c: Codec, states: seq<System>, steps: seq<Step>)
    requires Faithful(c) && Run(c, states, steps)
    ensures CausalInv(c, states[|steps|]) && ExchangeInv(states[|steps|])
    decreases |steps|
  {
    if steps == [] {
      assert forall p :: LogAt(states[0].logs, p) == map[];
    } else {
      var n := |steps| - 1;
      RunsAreSafe(c, states[..n + 1], steps[..n]);
      assert Next(c, states[n], steps[n], states[n + 1]);
      NextKeepsCausalInv(c, states[n], steps[n], states[n + 1]);
      NextKeepsExchangeInv(c, states[n], steps[n], states[n + 1]);
    }
  }

  lemma ReachableIsSafe(c: Codec, s: System)
    requires Faithful(c) && Reachable(c, s)
    ensures CausalInv(c, s) && ExchangeInv(s)
  {
    var states, steps :| Run(c, states, steps) && states[|steps|] == s;
    RunsAreSafe(c, states, steps);
  }

  // ---- Causality ----

  /** In every reachable state, and on every path, clocks compare exactly as the issued revisions' true history. */
  lemma VersionVectorsDecideCausality(c: Codec, s: System, p: Path, e: Revision, f: Revision)
    requires Faithful(c) && Reachable(c, s) && e in LogAt(s.logs, p) && f in LogAt(s.logs, p)
    ensures Compare(f.clock, e.clock) == Before <==> f in LogAt(s.logs, p)[e].past
    ensures Compare(f.clock, e.clock) == Equal <==> f == e
    ensures Compare(f.clock, e.clock) == Concurrent <==>
      f != e && f !in LogAt(s.logs, p)[e].past && e !in LogAt(s.logs, p)[f].past
  {
    ReachableIsSafe(c, s);
    assert LogOk(s, p);
    ClocksDecideCausality(LogAt(s.logs, p), e, f);
  }

  /** Everything a device may join at `p`: its heads, what it observed, what it staged and what is under way. */
  ghost predicate HeldAt(s: System, p: Path, heads: Heads) {
    exists d :: d in s.nodes &&
      (heads == VersionsAt(s.nodes[d].t, p) || heads == ObservedAt(s.nodes[d].t, p) || heads == IncomingAt(s.nodes[d].t, p))
  }

  lemma NodeFacts(c: Codec, s: System, d: Peer, p: Path)
    requires Faithful(c) && CausalInv(c, s) && d in s.nodes
    ensures var t := s.nodes[d].t; var log := LogAt(s.logs, p);
      && Closed(log) && KnowsOwn(log, t.epoch, ObservedAt(t, p))
      && Known(log, VersionsAt(t, p)) && Known(log, ObservedAt(t, p))
      && Normal(c, VersionsAt(t, p)) && Normal(c, ObservedAt(t, p))
  {
    var t := s.nodes[d].t;
    assert NodeOk(c, s, d) && LogOk(s, p) && OwnAt(s.logs, t, p);
    NormalForm(c, []);
    if p in t.rows { assert RowKnown(s.logs, t, p) && RowSound(c, t, p); }
  }

  lemma StagedFacts(c: Codec, s: System, d: Peer, p: Path)
    requires Faithful(c) && CausalInv(c, s) && d in s.nodes
    ensures Known(LogAt(s.logs, p), IncomingAt(s.nodes[d].t, p)) && Normal(c, IncomingAt(s.nodes[d].t, p))
  {
    var t := s.nodes[d].t;
    assert NodeOk(c, s, d);
    NormalForm(c, []);
    if p in t.incoming { assert IncomingSound(c, t, p); }
  }

  lemma HeldIsKnown(c: Codec, s: System, p: Path, heads: Heads)
    requires Faithful(c) && Reachable(c, s) && HeldAt(s, p, heads)
    ensures Known(LogAt(s.logs, p), heads) && Normal(c, heads) && Closed(LogAt(s.logs, p))
  {
    ReachableIsSafe(c, s);
    var d :| d in s.nodes &&
      (heads == VersionsAt(s.nodes[d].t, p) || heads == ObservedAt(s.nodes[d].t, p) || heads == IncomingAt(s.nodes[d].t, p));
    NodeFacts(c, s, d, p);
    StagedFacts(c, s, d, p);
  }

  /** The "equal clock with different content" rejection never fires between devices' version sets. */
  lemma JoinsNeverConflict(c: Codec, s: System, p: Path, a: Heads, b: Heads)
    requires Faithful(c) && Reachable(c, s) && HeldAt(s, p, a) && HeldAt(s, p, b)
    ensures Consistent(Elements(a) + Elements(b))
    ensures Joined(c, a, b).Ok? || Joined(c, a, b).error in {TooManyHeads, MetadataTooLarge}
  {
    HeldIsKnown(c, s, p, a);
    HeldIsKnown(c, s, p, b);
    IssuedRevisionsAreConsistent(LogAt(s.logs, p), Elements(a) + Elements(b));
    JoinSucceedsUnlessTooLarge(c, a, b);
  }

  /** A local edit's clock is new on its path, over all devices and all rollbacks. */
  lemma EditsAreFresh(c: Codec, s: System, d: Peer, p: Path, content: Content, e: Revision)
    requires Faithful(c) && Reachable(c, s) && d in s.nodes && e in LogAt(s.logs, p)
    requires NextRevision(ObservedAt(s.nodes[d].t, p), s.nodes[d].t.epoch, content).Ok?
    ensures Compare(NextRevision(ObservedAt(s.nodes[d].t, p), s.nodes[d].t.epoch, content).value.clock, e.clock) in {After, Concurrent}
  {
    ReachableIsSafe(c, s);
    var t := s.nodes[d].t;
    NodeFacts(c, s, d, p);
    var next := NextRevision(ObservedAt(t, p), t.epoch, content).value;
    SupersededIsObserved(LogAt(s.logs, p), ObservedAt(t, p), t.epoch, content, e);
    AdvanceIsLater(Knowledge(ObservedAt(t, p)), t.epoch);
    OwnCountersAreKnown(LogAt(s.logs, p), ObservedAt(t, p), t.epoch, e);
    assert t.epoch in next.clock;
  }

  /** After an edit or an approved deletion: the new revision, and precisely the heads not below what was observed. */
  lemma EditSupersedesExactlyWhatWasObserved(c: Codec, s: System, d: Peer, p: Path, content: Content, found: Option<Content>)
    requires Faithful(c) && Reachable(c, s) && d in s.nodes
    requires IssueAt(c, s.nodes[d].t, p, content, found).Ok?
    ensures var t := s.nodes[d].t; var after := IssueAt(c, t, p, content, found).value;
      && NextRevision(ObservedAt(t, p), t.epoch, content).Ok?
      && var next := NextRevision(ObservedAt(t, p), t.epoch, content).value;
      && next !in VersionsAt(t, p)
      && Elements(VersionsAt(after, p)) == {next} + Unobserved(t, p)
      && ObservedAt(after, p) == [next]
  {
    ReachableIsSafe(c, s);
    var t := s.nodes[d].t;
    NodeFacts(c, s, d, p);
    IssueEffect(c, t, p, content, found);
    SupersessionShape(c, LogAt(s.logs, p), t, IssueAt(c, t, p, content, found).value, p, content);
  }

  /** One revision of `content`, never issued before and after all that was observed, beside every head not observed. */
  ghost predicate IssuedBeside(log: Log, t: Tables, after: Tables, p: Path, content: Content) {
    && |ObservedAt(after, p)| == 1
    && var n := ObservedAt(after, p)[0];
    && n.content == content && n !in log && n !in VersionsAt(t, p) && n in VersionsAt(after, p)
    && (forall h :: h in ObservedAt(t, p) ==> Compare(h.clock, n.clock) == Before)
    && Elements(VersionsAt(after, p)) == {n} + Unobserved(t, p)
  }

  /**
   In every reachable state a scan changes the heads of a path exactly when what it finds is news to the row (and a
   missing path only with approval), and then to the one new revision beside every head not yet observed.
   */
  lemma ScansIssueExactlyEdits(c: Codec, s: System, d: Peer, p: Path, found: Option<Content>, approve: bool)
    requires Faithful(c) && Reachable(c, s) && d in s.nodes && found != Some(Deleted)
    requires (found.Some? || p in s.nodes[d].t.rows) && ScanPath(c, s.nodes[d].t, p, found, approve).Ok?
    ensures var t := s.nodes[d].t; var after := ScanPath(c, t, p, found, approve).value;
      && (NeedsRevision(c, t, p, found, approve) <==> VersionsAt(after, p) != VersionsAt(t, p))
      && (NeedsRevision(c, t, p, found, approve) ==>
            IssuedBeside(LogAt(s.logs, p), t, after, p, if found.Some? then found.value else Deleted))
  {
    var t := s.nodes[d].t;
    RevisionIssued(c, t, p, found, approve);
    if NeedsRevision(c, t, p, found, approve) {
      NeededRevision(c, s, d, p, if found.Some? then found.value else Deleted, found);
    } else {
      QuietScanSucceeds(c, t, p, found, approve);
    }
  }

  lemma NeededRevision(c: Codec, s: System, d: Peer, p: Path, content: Content, found: Option<Content>)
    requires Faithful(c) && Reachable(c, s) && d in s.nodes && IssueAt(c, s.nodes[d].t, p, content, found).Ok?
    ensures var t := s.nodes[d].t; var after := IssueAt(c, t, p, content, found).value;
      IssuedBeside(LogAt(s.logs, p), t, after, p, content) && VersionsAt(after, p) != VersionsAt(t, p)
  {
    var t := s.nodes[d].t;
    ReachableIsSafe(c, s);
    EditSupersedesExactlyWhatWasObserved(c, s, d, p, content, found);
    EditIsAfter(ObservedAt(t, p), t.epoch, content);
    ObservedIsFresh(c, s, d, p, content);
    Beside(LogAt(s.logs, p), t, IssueAt(c, t, p, content, found).value, p, content, NextRevision(ObservedAt(t, p), t.epoch, content).value);
  }

  lemma Beside(log: Log, t: Tables, after: Tables, p: Path, content: Content, n: Revision)
    requires ObservedAt(after, p) == [n] && n.content == content && n !in log && n !in VersionsAt(t, p)
    requires forall h :: h in ObservedAt(t, p) ==> Compare(h.clock, n.clock) == Before
    requires Elements(VersionsAt(after, p)) == {n} + Unobserved(t, p)
    ensures IssuedBeside(log, t, after, p, content) && VersionsAt(after, p) != VersionsAt(t, p)
  {
    InElements(VersionsAt(after, p), n);
  }

  lemma InElements(heads: Heads, n: Revision)
    ensures n in Elements(heads) <==> n in heads
  {
  }

  /**
   Recovery in any reachable state: once remote heads are merged into a restored index, bytes of some head or of the
   old materialization issue nothing; any other bytes issue one new revision beside every head not yet observed.
   */
  lemma RecoveredScansIssueOnlyUnknownBytes(c: Codec, s: System, d: Peer, p: Path, content: Content)
    requires Faithful(c) && Reachable(c, s) && d in s.nodes && p in s.nodes[d].t.rows && content != Deleted
    requires s.nodes[d].t.rows[p].versions != s.nodes[d].t.rows[p].observed
    requires ScanPath(c, s.nodes[d].t, p, Some(content), false).Ok?
    ensures var t := s.nodes[d].t; var after := ScanPath(c, t, p, Some(content), false).value; var row := t.rows[p];
      if HasContent(row.versions, content) || row.materialized == Some(content) then
        VersionsAt(after, p) == row.versions
      else
        && NextRevision(row.observed, t.epoch, content).Ok?
        && var next := NextRevision(row.observed, t.epoch, content).value;
        && next !in LogAt(s.logs, p) && ObservedAt(after, p) == [next]
        && Elements(VersionsAt(after, p)) == {next} + Unobserved(t, p)
  {
    ReachableIsSafe(c, s);
    NodeFacts(c, s, d, p);
    RecoveryIssuesOnlyUnknownBytes(c, LogAt(s.logs, p), s.nodes[d].t, p, content);
  }

  // ---- Delta exchange ----

  /** What a session from cursor position `since` would join into the receiver at `p`. */
  ghost predicate Travels(sender: Tables, since: nat, p: Path) {
    p in sender.rows && sender.rows[p].sequence > since
  }

  ghost function AfterSession(c: Codec, receiver: Tables, sender: Tables, since: nat, p: Path): Result<Heads>
    requires Faithful(c)
  {
    if Travels(sender, since, p) then Joined(c, VersionsAt(receiver, p), sender.rows[p].versions)
    else Ok(VersionsAt(receiver, p))
  }

  /** A session from the cursor leaves the same heads as a session from the beginning. */
  lemma DeltaRefinesFull(c: Codec, s: System, d: Peer, q: Peer, p: Path)
    requires Faithful(c) && Reachable(c, s) && d in s.nodes && q in s.nodes
    requires Flows(s.nodes[q].mode, s.nodes[d].mode)
    ensures var since := Since(s.nodes[d].t, q, s.nodes[q].t);
      && since <= s.nodes[q].t.sequence
      && AfterSession(c, s.nodes[d].t, s.nodes[q].t, since, p) == AfterSession(c, s.nodes[d].t, s.nodes[q].t, 0, p)
  {
    ReachableIsSafe(c, s);
    var t, sender := s.nodes[d].t, s.nodes[q].t;
    var since := Since(t, q, sender);
    assert NodeOk(c, s, d) && NodeOk(c, s, q);
    if q in t.cursors { assert CursorOk(s, d, q); }
    if p in sender.rows && sender.rows[p].sequence <= since {
      assert RowSound(c, sender, p);
      assert HeldAt(s, p, VersionsAt(t, p)) && HeldAt(s, p, VersionsAt(sender, p));
      HeldIsKnown(c, s, p, VersionsAt(t, p));
      JoinsNeverConflict(c, s, p, VersionsAt(t, p), VersionsAt(sender, p));
      assert RowsBelow(sender, since, t);
      assert Below(Elements(sender.rows[p].versions), Elements(VersionsAt(t, p)));
      JoinAbsorbs(c, VersionsAt(t, p), sender.rows[p].versions);
    }
  }

  /** The "peer cursor exceeds local sequence" refusal never fires while epochs are fresh. */
  lemma CursorsNeverOverrun(c: Codec, s: System, d: Peer, q: Peer)
    requires Faithful(c) && Reachable(c, s) && d in s.nodes && q in s.nodes
    ensures Since(s.nodes[d].t, q, s.nodes[q].t) <= s.nodes[q].t.sequence
  {
    ReachableIsSafe(c, s);
    if q in s.nodes[d].t.cursors { assert CursorOk(s, d, q); }
  }

  /** The receiver's order check never fires, and it never asks for an object its sender lacks. */
  lemma SessionsAreServable(c: Codec, s: System, d: Peer)
    requires Faithful(c) && Reachable(c, s) && d in s.nodes && s.nodes[d].session.Some?
    ensures var session := s.nodes[d].session.value;
      && (session.wire != [] ==> session.staged < session.wire[0].sequence <= session.ceiling)
      && session.peer in s.nodes && s.nodes[d].t.needed <= s.nodes[session.peer].t.objects
  {
    ReachableIsSafe(c, s);
    assert SessionOk(s, d);
  }

  /** When both peers exchange and commit, both hold the join of what they held, though only new rows travelled. */
  lemma SessionConverges(c: Codec, s: System, d: Peer, q: Peer, p: Path)
    requires Faithful(c) && Reachable(c, s) && d in s.nodes && q in s.nodes && d != q
    requires s.nodes[d].mode == Bidirectional && s.nodes[q].mode == Bidirectional
    ensures var a, b := s.nodes[d].t, s.nodes[q].t;
      var atA := AfterSession(c, a, b, Since(a, q, b), p);
      var atB := AfterSession(c, b, a, Since(b, d, a), p);
      var both := Joined(c, VersionsAt(a, p), VersionsAt(b, p));
      && atA == both && atB == both
      // If only one side committed, a second session still ends at the same heads.
      && (both.Ok? ==>
            && Joined(c, VersionsAt(b, p), both.value) == both
            && Joined(c, both.value, VersionsAt(b, p)) == both)
  {
    var a, b := s.nodes[d].t, s.nodes[q].t;
    var va, vb := VersionsAt(a, p), VersionsAt(b, p);
    DeltaRefinesFull(c, s, d, q, p);
    DeltaRefinesFull(c, s, q, d, p);
    assert HeldAt(s, p, va) && HeldAt(s, p, vb);
    HeldIsKnown(c, s, p, va);
    HeldIsKnown(c, s, p, vb);
    JoinsNeverConflict(c, s, p, va, vb);
    JoinCommutesWholly(c, va, vb);
    ReachableIsSafe(c, s);
    assert NodeOk(c, s, d) && NodeOk(c, s, q);
    if p in a.rows { assert RowSound(c, a, p); }
    if p in b.rows { assert RowSound(c, b, p); }
    JoinWithNothing(c, va);
    JoinWithNothing(c, vb);
    if Joined(c, va, vb).Ok? {
      RejoiningIsStable(c, LogAt(s.logs, p), va, vb);
    }
  }

  lemma JoinCommutesWholly(c: Codec, a: Heads, b: Heads)
    requires Faithful(c) && Normal(c, a) && Normal(c, b) && Consistent(Elements(a) + Elements(b))
    ensures Joined(c, a, b) == Joined(c, b, a)
  {
    assert Elements(b) + Elements(a) == Elements(a) + Elements(b);
    JoinSucceedsUnlessTooLarge(c, a, b);
    JoinSucceedsUnlessTooLarge(c, b, a);
  }

  lemma JoinWithNothing(c: Codec, a: Heads)
    requires Faithful(c) && Normal(c, a)
    ensures Joined(c, a, []) == Ok(a) && Joined(c, [], a) == Ok(a)
  {
    NormalForm(c, a);
    NormalForm(c, []);
    assert Elements(a) + Elements<Revision>([]) == Elements(a);
    JoinCommutesWholly(c, a, []);
  }

  lemma RejoiningIsStable(c: Codec, log: Log, a: Heads, b: Heads)
    requires Faithful(c) && Normal(c, a) && Normal(c, b) && Closed(log) && Known(log, a) && Known(log, b)
    requires Joined(c, a, b).Ok?
    ensures Joined(c, b, Joined(c, a, b).value) == Joined(c, a, b)
    ensures Joined(c, Joined(c, a, b).value, b) == Joined(c, a, b)
  {
    JoinDominates(c, log, a, b);
    var j := Joined(c, a, b).value;
    JoinAbsorbs(c, j, b);
    JoinCommutesWholly(c, j, b);
  }

  lemma JoinDominates(c: Codec, log: Log, a: Heads, b: Heads)
    requires Faithful(c) && Closed(log) && Known(log, a) && Known(log, b) && Joined(c, a, b).Ok?
    ensures var j := Joined(c, a, b).value;
      Normal(c, j) && Below(Elements(b), Elements(j)) && Consistent(Elements(j) + Elements(b))
  {
    var j := Joined(c, a, b).value;
    JoinIsNormal(c, a, b);
    JoinIsLeastUpperBound(c, a, b, []);
    JoinInventsNothing(c, a, b);
    IssuedRevisionsAreConsistent(log, Elements(j) + Elements(b));
  }

  lemma JoinInventsNothing(c: Codec, a: Heads, b: Heads)
    requires Faithful(c) && Joined(c, a, b).Ok?
    ensures Elements(Joined(c, a, b).value) <= Elements(a) + Elements(b)
  {
    JoinedHeads(c, a, b);
  }

  // ---- Deletions ----

  /** A revision that a step adds to the log at `p`. */
  ghost predicate IssuedBy(s: System, s': System, p: Path, e: Revision) {
    e in LogAt(s'.logs, p) && e !in LogAt(s.logs, p)
  }

  /** An approving scan that misses the path, a review of a pending path as it stands, or a choice of a deletion. */
  predicate AsksDeletion(s: System, step: Step, p: Path) {
    || (step.Scan? && step.p == p && step.approve && step.found.None?)
    || (step.Approve? && step.p == p && step.d in s.nodes && p in s.nodes[step.d].t.pending
        && step.expected == VersionsAt(s.nodes[step.d].t, p))
    || (step.Resolving? && step.p == p && step.content == Deleted)
  }

  /** Only an approved scan, an approved review or a choice of a deletion issues one. */
  lemma DeletionsAreExplicit(c: Codec, s: System, step: Step, s': System, p: Path, e: Revision)
    requires Faithful(c) && CausalInv(c, s) && Next(c, s, step, s')
    requires IssuedBy(s, s', p, e) && e.content == Deleted
    ensures AsksDeletion(s, step, p)
  {
    if step.Scan? {
      ScannedDeletion(c, s, step, s', p, e);
    } else if step.Approve? || step.Resolving? {
      assert step.p == p;
    } else {
      OthersIssueNothing(c, s, step, s', p, e);
    }
  }

  lemma ScannedDeletion(c: Codec, s: System, step: Step, s': System, p: Path, e: Revision)
    requires Faithful(c) && CausalInv(c, s) && Next(c, s, step, s') && step.Scan?
    requires IssuedBy(s, s', p, e) && e.content == Deleted
    ensures step.p == p && step.approve && step.found.None?
  {
    var t := Captured(s.nodes[step.d].t, step.found);
    ScanEffect(c, t, step.p, step.found, step.approve);
    assert step.p == p;
  }

  /** No other step writes a log. */
  lemma OthersIssueNothing(c: Codec, s: System, step: Step, s': System, p: Path, e: Revision)
    requires Faithful(c) && Next(c, s, step, s') && !step.Scan? && !step.Approve? && !step.Resolving?
    ensures !IssuedBy(s, s', p, e)
  {
    assert s'.logs == s.logs;
  }

  /** Over a whole run: every deletion in any log was issued at a step that asks for it. */
  lemma {:induction false} DeletionsStemFromRequests(c: Codec, states: seq<System>, steps: seq<Step>, p: Path, e: Revision)
    returns (k: nat)
    requires Faithful(c) && Run(c, states, steps)
    requires e in LogAt(states[|steps|].logs, p) && e.content == Deleted
    ensures k < |steps| && IssuedBy(states[k], states[k + 1], p, e) && AsksDeletion(states[k], steps[k], p)
    decreases |steps|
  {
    var n := |steps| - 1;
    if e in LogAt(states[n].logs, p) {
      k := DeletionsStemFromRequests(c, states[..n + 1], steps[..n], p, e);
    } else {
      RunsAreSafe(c, states[..n + 1], steps[..n]);
      DeletionsAreExplicit(c, states[n], steps[n], states[n + 1], p, e);
      k := n;
    }
  }

  /** And its log entry says which. */
  lemma DeletionsHaveExplicitCauses(c: Codec, s: System, p: Path, e: Revision)
    requires Faithful(c) && Reachable(c, s) && e in LogAt(s.logs, p) && e.content == Deleted
    ensures Explicit(LogAt(s.logs, p)[e].cause)
  {
    ReachableIsSafe(c, s);
    assert LogOk(s, p);
  }

  // ---- The validator ----

  /** Every index and every checkpoint of every run passes the relational checks of the checkpoint validator. */
  lemma ReachableTablesValidate(c: Codec, s: System)
    requires Faithful(c) && Reachable(c, s)
    ensures forall d :: d in s.nodes ==> Sound(c, s.nodes[d].t)
    ensures forall saved :: saved in s.checkpoints ==> Sound(c, saved)
  {
    ReachableIsSafe(c, s);
    forall d | d in s.nodes ensures Sound(c, s.nodes[d].t) { assert NodeOk(c, s, d); }
    forall saved | saved in s.checkpoints ensures Sound(c, saved) { assert CheckpointOk(c, s, saved); }
  }

  // ---- Nothing is forgotten ----

  /** Everything `t` knew is still known: heads are covered, history, objects and numbering only grow. */
  ghost predicate Remembers(t': Tables, t: Tables) {
    && t.history <= t'.history && t.objects <= t'.objects && t.sequence <= t'.sequence
    && forall p {:trigger VersionsAt(t', p)} :: Below(Elements(VersionsAt(t, p)), Elements(VersionsAt(t', p)))
  }

  lemma RemembersItself(t: Tables)
    ensures Remembers(t, t)
  {
    forall p ensures Below(Elements(VersionsAt(t, p)), Elements(VersionsAt(t, p))) {
      BelowReflexive(Elements(VersionsAt(t, p)));
    }
  }

  lemma RemembersTransitively(t: Tables, t': Tables, t'': Tables)
    requires Remembers(t', t) && Remembers(t'', t')
    ensures Remembers(t'', t)
  {
    forall p ensures Below(Elements(VersionsAt(t, p)), Elements(VersionsAt(t'', p))) {
      assert Below(Elements(VersionsAt(t, p)), Elements(VersionsAt(t', p)));
      assert Below(Elements(VersionsAt(t', p)), Elements(VersionsAt(t'', p)));
      BelowTransitive(Elements(VersionsAt(t, p)), Elements(VersionsAt(t', p)), Elements(VersionsAt(t'', p)));
    }
  }

  lemma MovedRowRemembers(t: Tables, t': Tables, p: Path)
    requires Moves(t, t', p)
    ensures Remembers(t', t)
  {
    forall q ensures Below(Elements(VersionsAt(t, q)), Elements(VersionsAt(t', q))) {
      if q != p {
        assert VersionsAt(t', q) == VersionsAt(t, q);
        BelowReflexive(Elements(VersionsAt(t, q)));
      }
    }
  }

  lemma SameRowsRemember(t: Tables, t': Tables)
    requires t'.rows == t.rows && t'.history == t.history && t.objects <= t'.objects && t'.sequence == t.sequence
    ensures Remembers(t', t)
  {
    forall q ensures Below(Elements(VersionsAt(t, q)), Elements(VersionsAt(t', q))) {
      assert VersionsAt(t', q) == VersionsAt(t, q);
      BelowReflexive(Elements(VersionsAt(t, q)));
    }
  }

  /** Only a rollback of its own index makes a device forget. */
  lemma StepsRemember(c: Codec, s: System, step: Step, s': System, d: Peer)
    requires Faithful(c) && Next(c, s, step, s') && d in s.nodes && !(step.Rollback? && step.d == d)
    ensures d in s'.nodes && Remembers(s'.nodes[d].t, s.nodes[d].t)
  {
    RemembersItself(s.nodes[d].t);
    if IsRowStep(step) {
      RowStepMoves(c, s, step, s');
      if step.d == d { MovedRowRemembers(s.nodes[d].t, s'.nodes[d].t, step.p); }
    } else if IsExchange(step) {
      if IsSessionStart(step) { SessionStartsOnlySession(c, s, step, s'); } else { SessionEndsOnlySession(c, s, step, s'); }
      if step.d == d { SameRowsRemember(s.nodes[d].t, s'.nodes[d].t); }
    }
  }

  lemma RunStepRemembers(c: Codec, states: seq<System>, steps: seq<Step>, i: nat, d: Peer)
    requires Faithful(c) && Run(c, states, steps) && i < |steps| && d in states[i].nodes
    requires !(steps[i].Rollback? && steps[i].d == d)
    ensures d in states[i + 1].nodes && Remembers(states[i + 1].nodes[d].t, states[i].nodes[d].t)
  {
    StepsRemember(c, states[i], steps[i], states[i + 1], d);
  }

  /** From any state of a run to any later one, as long as the device was not rolled back in between. */
  lemma {:induction false} RunsRemember(c: Codec, states: seq<System>, steps: seq<Step>, i: nat, j: nat, d: Peer)
    requires Faithful(c) && Run(c, states, steps) && i <= j < |states| && d in states[i].nodes
    requires forall k :: i <= k < j ==> !(steps[k].Rollback? && steps[k].d == d)
    ensures d in states[j].nodes && Remembers(states[j].nodes[d].t, states[i].nodes[d].t)
    decreases j
  {
    if i == j {
      RemembersItself(states[i].nodes[d].t);
    } else {
      RunsRemember(c, states, steps, i, j - 1, d);
      RunStepRemembers(c, states, steps, j - 1, d);
      RemembersTransitively(states[i].nodes[d].t, states[j - 1].nodes[d].t, states[j].nodes[d].t);
    }
  }

  /** Whatever was ever a head stays in the device's history, with its bytes in the object cache. */
  lemma HeadsStayInHistory(c: Codec, states: seq<System>, steps: seq<Step>, i: nat, j: nat, d: Peer, p: Path, r: Revision)
    requires Faithful(c) && Run(c, states, steps) && i <= j < |states| && d in states[i].nodes
    requires forall k :: i <= k < j ==> !(steps[k].Rollback? && steps[k].d == d)
    requires r in VersionsAt(states[i].nodes[d].t, p)
    ensures d in states[j].nodes && (p, r) in states[j].nodes[d].t.history && Stored(states[j].nodes[d].t, Some(r.content))
  {
    RunsRemember(c, states, steps, i, j, d);
    assert Run(c, states[..i + 1], steps[..i]);
    RunsAreSafe(c, states[..i + 1], steps[..i]);
    var t := states[i].nodes[d].t;
    assert NodeOk(c, states[i], d);
    assert RowSound(c, t, p);
    assert (p, r) in Revisions(p, VersionsAt(t, p));
    if r.content.File? { assert r.content.hash in Hashes(VersionsAt(t, p)); }
  }
}
