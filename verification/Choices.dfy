/**
 A choice whose second half is missing: `choose` has recorded its revision but nothing has acknowledged it, because
 the process died in between or because the folder refused the application (src/share.rs:806-816). The row then
 issues from heads that miss an own revision until a scan finds the chosen content.
 */
module Choices {
  import opened Results
  import opened Clocks
  import opened Ordering
  import opened Paths
  import opened Register
  import opened Lattice
  import opened Causality
  import opened Index
  import opened Effects
  import opened Network
  import opened CausalSafety
  import opened Theorems
  import opened ApplyOrder

  /** The row between the two transactions of `choose`: the choice is the only head, but not yet observed. */
  ghost predicate Interrupted(c: Codec, before: Tables, t: Tables, p: Path, chosen: Content, actual: Option<Content>)
    requires Faithful(c)
  {
    p in before.rows && Resolve(c, before, p, chosen, actual) == Ok(t)
  }

  function ChoiceRevision(before: Tables, p: Path, chosen: Content): Result<Revision> {
    NextRevision(VersionsAt(before, p), before.epoch, chosen)
  }

  lemma InterruptedRow(c: Codec, before: Tables, t: Tables, p: Path, chosen: Content, actual: Option<Content>)
    requires Faithful(c) && Interrupted(c, before, t, p, chosen, actual)
    ensures ChoiceRevision(before, p, chosen).Ok? && Defect(ChoiceRevision(before, p, chosen).value).None?
    ensures p in t.rows && t.epoch == before.epoch && Normal(c, t.rows[p].versions)
    ensures t.rows[p].versions == [ChoiceRevision(before, p, chosen).value]
    ensures t.rows[p].observed == before.rows[p].observed && t.rows[p].materialized == actual
  {
    EditedHeads(c, before.rows[p].versions, before.epoch, chosen);
    assert Normal(c, [ChoiceRevision(before, p, chosen).value]);
  }

  // ---- The hazard ----

  /**
   The only head is an own revision that the row has not observed: its own counter is the very one that the next
   local edit would use.
   */
  ghost predicate Hazard(log: Log, t: Tables, p: Path, choice: Revision) {
    && p in t.rows && t.rows[p].versions == [choice]
    && choice in log && log[choice].issuer == t.epoch
    && Closed(log) && Known(log, t.rows[p].observed)
    && Below(Elements(t.rows[p].observed), {choice})
    && Count(choice.clock, t.epoch) == Count(Knowledge(t.rows[p].observed), t.epoch) + 1
    && (forall e :: e in log && log[e].issuer == t.epoch && e != choice ==> Covered(e, Elements(t.rows[p].observed)))
  }

  /** The heads know as much of the replica's own revisions as what it has observed. */
  lemma OwnCountersAgree(log: Log, observed: Heads, versions: Heads, replica: Device)
    requires Closed(log) && Known(log, versions) && Known(log, observed) && KnowsOwn(log, replica, observed)
    requires Below(Elements(observed), Elements(versions))
    ensures Count(Knowledge(versions), replica) == Count(Knowledge(observed), replica)
  {
    if Count(Knowledge(versions), replica) > 0 {
      var h := KnowledgeHasSource(versions, replica);
      OwnCountersAreKnown(log, observed, replica, h);
    }
    KnowledgeBelow(observed, versions);
  }

  lemma KnowledgeBelow(a: Heads, b: Heads)
    requires Below(Elements(a), Elements(b))
    ensures Leq(Knowledge(a), Knowledge(b))
  {
    forall h | h in a ensures Leq(h.clock, Knowledge(b)) {
      assert h in Elements(a) && Covered(h, Elements(b));
      CoveredIsKnown(b, h);
    }
    KnowledgeIsLeast(a, Knowledge(b));
  }

  /** In any run, an interrupted choice that the history has recorded leaves the hazard. */
  lemma InterruptedIsHazard(c: Codec, s: System, d: Peer, t: Tables, p: Path, chosen: Content, actual: Option<Content>)
    requires Faithful(c) && CausalInv(c, s) && d in s.nodes
    requires Interrupted(c, Captured(s.nodes[d].t, actual), t, p, chosen, actual)
    ensures ChoiceRevision(s.nodes[d].t, p, chosen).Ok?
    ensures var choice := ChoiceRevision(s.nodes[d].t, p, chosen).value;
      var log := Recorded(LogAt(s.logs, p), choice, t.epoch, VersionsAt(s.nodes[d].t, p), Choice);
      Hazard(log, t, p, choice) && choice.content == chosen && t.rows[p].materialized == actual
  {
    var t0, before := s.nodes[d].t, Captured(s.nodes[d].t, actual);
    var log0, versions, observed := LogAt(s.logs, p), t0.rows[p].versions, t0.rows[p].observed;
    InterruptedRow(c, before, t, p, chosen, actual);
    var choice := ChoiceRevision(t0, p, chosen).value;
    assert NodeOk(c, s, d) && LogOk(s, p) && OwnAt(s.logs, t0, p) && RowKnown(s.logs, t0, p);
    RecordedIsHazard(log0, t, p, observed, versions, chosen);
  }

  lemma RecordedIsHazard(log: Log, t: Tables, p: Path, observed: Heads, versions: Heads, chosen: Content)
    requires Closed(log) && Known(log, versions) && Known(log, observed) && KnowsOwn(log, t.epoch, observed)
    requires Below(Elements(observed), Elements(versions))
    requires NextRevision(versions, t.epoch, chosen).Ok? && Defect(NextRevision(versions, t.epoch, chosen).value).None?
    requires p in t.rows && t.rows[p].observed == observed
    requires t.rows[p].versions == [NextRevision(versions, t.epoch, chosen).value]
    ensures var choice := NextRevision(versions, t.epoch, chosen).value;
      Hazard(Recorded(log, choice, t.epoch, versions, Choice), t, p, choice)
  {
    var choice := NextRevision(versions, t.epoch, chosen).value;
    OwnCarriesOver(log, t.epoch, observed, versions);
    IssueKeepsClosed(log, versions, t.epoch, chosen, Choice);
    OwnCountersAgree(log, observed, versions, t.epoch);
    AdvanceIsLater(Knowledge(versions), t.epoch);
    ChoiceCoversObserved(observed, versions, choice);
  }

  lemma ChoiceCoversObserved(observed: Heads, versions: Heads, choice: Revision)
    requires Below(Elements(observed), Elements(versions)) && Leq(Knowledge(versions), choice.clock)
    ensures Below(Elements(observed), {choice})
  {
    forall h | h in Elements(observed) ensures Covered(h, {choice}) {
      assert Covered(h, Elements(versions));
      CoveredIsKnown(versions, h);
      LeqTransitive(h.clock, Knowledge(versions), choice.clock);
    }
  }

  /** What was observed does not include the choice. */
  lemma ChoiceIsUnobserved(log: Log, t: Tables, p: Path, choice: Revision)
    requires Hazard(log, t, p, choice)
    ensures !Covered(choice, Elements(t.rows[p].observed)) && t.rows[p].observed != [choice]
    ensures !KnowsOwn(log, t.epoch, t.rows[p].observed)
  {
    var observed := t.rows[p].observed;
    assert WellIssued(log, choice);
    if Covered(choice, Elements(observed)) {
      CoveredIsKnown(observed, choice);
      assert false;
    }
    assert choice in Elements([choice]) && Leq(choice.clock, choice.clock);
    assert Covered(choice, Elements([choice]));
  }

  /**
   The revision that an edit would now issue repeats the choice's own counter, never covers the choice, and clashes
   with it when their clocks are equal.
   */
  lemma ReissueCollides(log: Log, t: Tables, p: Path, choice: Revision, content: Content)
    requires Hazard(log, t, p, choice) && content != choice.content
    requires NextRevision(t.rows[p].observed, t.epoch, content).Ok?
    ensures var next := NextRevision(t.rows[p].observed, t.epoch, content).value;
      && Count(next.clock, t.epoch) == Count(choice.clock, t.epoch)
      && next != choice && next !in log
      && Leq(next.clock, choice.clock)
  {
    var observed := t.rows[p].observed;
    var next := NextRevision(observed, t.epoch, content).value;
    AdvanceIsLater(Knowledge(observed), t.epoch);
    assert Elements([choice]) == {choice};
    KnowledgeBelow(observed, [choice]);
    KnowledgeOfOne(choice);
    assert Leq(next.clock, choice.clock);
    if next in log {
      assert Counts(log, next, choice);
      LeqMeansReaches(log, next, choice);
      ClocksDecideCausality(log, next, choice);
    }
  }

  lemma KnowledgeOfOne(r: Revision)
    ensures Leq(Knowledge([r]), r.clock)
  {
    KnowledgeIsLeast([r], r.clock);
    assert Leq(r.clock, r.clock);
  }

  lemma EqualClocksClash(choice: Revision, next: Revision)
    requires Leq(choice.clock, next.clock) && Leq(next.clock, choice.clock) && choice.content != next.content
    ensures !Consistent(Elements([choice] + [next]))
  {
    assert Compare(choice.clock, next.clock) == Equal;
    assert choice in [choice] + [next] && next in [choice] + [next];
    assert choice in Elements([choice] + [next]) && next in Elements([choice] + [next]);
  }

  /** The join that a scan would make is refused. */
  lemma EqualClocksBlock(c: Codec, choice: Revision, next: Revision)
    requires Faithful(c) && Leq(choice.clock, next.clock) && Leq(next.clock, choice.clock)
    requires choice.content != next.content
    ensures Joined(c, [choice], [next]).Err?
    ensures Normal(c, [choice]) && Normal(c, [next]) ==> Joined(c, [choice], [next]) == Err(EqualClock)
  {
    EqualClocksClash(choice, next);
    if Normal(c, [choice]) && Normal(c, [next]) {
      BothWellFormed(c, [choice], [next]);
    }
  }

  lemma BothWellFormed(c: Codec, a: Heads, b: Heads)
    requires Faithful(c) && Normal(c, a) && Normal(c, b)
    ensures c.length(a) <= METADATA_LIMIT && c.length(b) <= METADATA_LIMIT && |a| <= HEAD_LIMIT && |b| <= HEAD_LIMIT
    ensures FirstDefect(a + b).None?
  {
    NormalForm(c, a);
    NormalForm(c, b);
  }

  // ---- The next scan ----

  /** What a scan decides about an interrupted row, for whatever it finds, with or without approval. */
  lemma ScanOfHazardDecides(c: Codec, log: Log, t: Tables, p: Path, choice: Revision, found: Option<Content>, approve: bool)
    requires Faithful(c) && Hazard(log, t, p, choice) && found != Some(Deleted)
    ensures match Decide(c, t, p, found, approve)
      case Adopt(observed) => found == Visible(choice.content) && observed == [choice]
      case Keep => found != Visible(choice.content) && found == t.rows[p].materialized
      case Review => found != Visible(choice.content) && found == None && !approve
      case Issue(content) =>
        && found != Visible(choice.content) && found != t.rows[p].materialized && content != choice.content
        && content == (if found.Some? then found.value else Deleted) && (found.None? ==> approve)
  {
    ChoiceIsUnobserved(log, t, p, choice);
    var versions := t.rows[p].versions;
    assert versions[..0] == [] && versions[0] == choice;
    assert Selected(c, versions) == Some(choice);
    assert forall content :: HasContent(versions, content) <==> content == choice.content;
  }

  lemma AdoptedKnowsOwn(log: Log, t: Tables, p: Path, choice: Revision)
    requires Hazard(log, t, p, choice)
    ensures KnowsOwn(log, t.epoch, [choice])
  {
    assert Elements([choice]) == {choice};
    forall e | e in log && log[e].issuer == t.epoch ensures Covered(e, Elements([choice])) {
      if e == choice {
        assert Leq(choice.clock, choice.clock);
      } else {
        CoveredThrough(e, Elements(t.rows[p].observed), {choice});
      }
    }
  }

  lemma IssuedMissesChoice(c: Codec, log: Log, t: Tables, p: Path, choice: Revision, content: Content, found: Option<Content>)
    requires Faithful(c) && Hazard(log, t, p, choice) && content != choice.content
    requires IssueAt(c, t, p, content, found).Ok?
    ensures !KnowsOwn(log, t.epoch, ObservedAt(IssueAt(c, t, p, content, found).value, p))
  {
    IssueEffect(c, t, p, content, found);
    EditedHeads(c, t.rows[p].observed, t.epoch, content);
    var next := NextRevision(t.rows[p].observed, t.epoch, content).value;
    ReissueCollides(log, t, p, choice, content);
    if Leq(choice.clock, next.clock) {
      EqualClocksBlock(c, choice, next);
    }
    OneHeadMisses(choice, next);
  }

  lemma OneHeadMisses(r: Revision, h: Revision)
    requires !Leq(r.clock, h.clock)
    ensures !Covered(r, Elements([h]))
  {
    assert Elements([h]) == {h};
  }

  /**
   The replica knows its own past again after the next scan exactly when that scan finds what was chosen: the chosen
   content, or nothing if a deletion was chosen. This holds for whatever else is found, with and without approval.
   */
  lemma ScanRestoresExactlyTheChosen(c: Codec, log: Log, t: Tables, p: Path, choice: Revision, found: Option<Content>, approve: bool)
    requires Faithful(c) && Hazard(log, t, p, choice) && found != Some(Deleted)
    requires ScanPath(c, t, p, found, approve).Ok?
    ensures KnowsOwn(log, t.epoch, ObservedAt(ScanPath(c, t, p, found, approve).value, p)) <==> found == Visible(choice.content)
  {
    ScanOfHazardDecides(c, log, t, p, choice, found, approve);
    ChoiceIsUnobserved(log, t, p, choice);
    match Decide(c, t, p, found, approve) {
      case Adopt(_) => AdoptedKnowsOwn(log, t, p, choice);
      case Keep =>
      case Review =>
      case Issue(content) => IssuedMissesChoice(c, log, t, p, choice, content, found);
    }
  }

  /** A scan that keeps or reviews the row leaves the hazard in place for the next edit. */
  lemma QuietScanKeepsHazard(c: Codec, log: Log, t: Tables, p: Path, choice: Revision, found: Option<Content>, approve: bool)
    requires Faithful(c) && Hazard(log, t, p, choice) && found != Some(Deleted)
    requires Decide(c, t, p, found, approve).Keep? || Decide(c, t, p, found, approve).Review?
    ensures ScanPath(c, t, p, found, approve).Ok?
    ensures Hazard(log, ScanPath(c, t, p, found, approve).value, p, choice)
    ensures ScanPath(c, t, p, found, approve).value.rows == t.rows
  {
  }

  /** A scan that issues reuses the choice's own counter, and the history it leaves no longer has clocks that decide. */
  lemma IssuingScanReusesTheCounter(c: Codec, log: Log, t: Tables, p: Path, choice: Revision, found: Option<Content>, approve: bool)
    requires Faithful(c) && Hazard(log, t, p, choice) && found != Some(Deleted)
    requires Decide(c, t, p, found, approve).Issue?
    requires NextRevision(t.rows[p].observed, t.epoch, Decide(c, t, p, found, approve).content).Ok?
    ensures var next := NextRevision(t.rows[p].observed, t.epoch, Decide(c, t, p, found, approve).content).value;
      && next != choice && Count(next.clock, t.epoch) == Count(choice.clock, t.epoch)
      && !Closed(Recorded(log, next, t.epoch, t.rows[p].observed, ScanCause(found, approve)))
  {
    var content := Decide(c, t, p, found, approve).content;
    ScanOfHazardDecides(c, log, t, p, choice, found, approve);
    ReissueCollides(log, t, p, choice, content);
    ChoiceIsUnobserved(log, t, p, choice);
    StaleBaseBreaksClosure(log, t.rows[p].observed, t.epoch, content, ScanCause(found, approve), choice);
  }

  /** If the choice added nothing but its own counter, such a scan is refused outright. */
  lemma HazardCanBlockScans(c: Codec, log: Log, t: Tables, p: Path, choice: Revision, content: Content)
    requires Faithful(c) && Hazard(log, t, p, choice) && content != Deleted
    requires content != choice.content && t.rows[p].materialized != Some(content)
    requires forall q :: q != t.epoch ==> Count(choice.clock, q) == Count(Knowledge(t.rows[p].observed), q)
    ensures ScanPath(c, t, p, Some(content), false).Err?
    ensures Normal(c, [choice]) && Edited(c, t.rows[p].observed, t.epoch, content).Ok? ==>
      ScanPath(c, t, p, Some(content), false) == Err(EqualClock)
  {
    ScanOfHazardDecides(c, log, t, p, choice, Some(content), false);
    var observed := t.rows[p].observed;
    if Edited(c, observed, t.epoch, content).Ok? {
      EditedHeads(c, observed, t.epoch, content);
      var next := NextRevision(observed, t.epoch, content).value;
      ReissueCollides(log, t, p, choice, content);
      AdvanceIsLater(Knowledge(observed), t.epoch);
      EqualClocksBlock(c, choice, next);
    }
  }

  // ---- The other ways out ----

  /** Applying the row, as the apply pass of any later commit does, repairs it. */
  lemma ApplyingRepairs(c: Codec, log: Log, t: Tables, p: Path, choice: Revision)
    requires Hazard(log, t, p, choice)
    ensures p in Candidates(t) <==> p !in t.pending
    ensures Acknowledge(c, t, p).Ok?
    ensures KnowsOwn(log, t.epoch, ObservedAt(Acknowledge(c, t, p).value, p))
  {
    ChoiceIsUnobserved(log, t, p, choice);
    AcknowledgeMoves(c, t, p);
    AdoptedKnowsOwn(log, t, p, choice);
  }

  /** Merging remote heads does not repair it, whatever they are; applying the merged row does. */
  lemma CommittingThenApplyingRepairs(c: Codec, log: Log, t: Tables, p: Path, choice: Revision)
    requires Faithful(c) && Hazard(log, t, p, choice) && p in t.incoming && CommitOne(c, t, p).Ok?
    ensures var merged := CommitOne(c, t, p).value;
      && !KnowsOwn(log, t.epoch, ObservedAt(merged, p))
      && (Acknowledge(c, merged, p).Ok? ==> KnowsOwn(log, t.epoch, ObservedAt(Acknowledge(c, merged, p).value, p)))
  {
    var merged := CommitOne(c, t, p).value;
    ChoiceIsUnobserved(log, t, p, choice);
    CommitMoves(c, t, p);
    AdoptedKnowsOwn(log, t, p, choice);
    OwnCarriesOver(log, t.epoch, [choice], VersionsAt(merged, p));
    if Acknowledge(c, merged, p).Ok? { AcknowledgeMoves(c, merged, p); }
  }

  /** A further choice that is carried through repairs it. */
  lemma ChoosingAgainRepairs(c: Codec, log: Log, t: Tables, p: Path, choice: Revision, content: Content, actual: Option<Content>)
    requires Faithful(c) && Hazard(log, t, p, choice) && Index.Choose(c, t, p, content, actual).Ok?
    ensures KnowsOwn(log, t.epoch, ObservedAt(Index.Choose(c, t, p, content, actual).value, p))
  {
    ChooseEffect(c, t, p, content, actual);
    var next := NextRevision([choice], t.epoch, content).value;
    KnowledgeBelowNext([choice], t.epoch, content);
    AdoptedKnowsOwn(log, t, p, choice);
    KnowledgeIsLeast([choice], next.clock);
    assert Elements([choice]) == {choice} && Elements([next]) == {next};
    assert Covered(choice, {next});
    OwnCarriesOver(log, t.epoch, [choice], [next]);
  }

  /** A deletion approved after the review issues the choice's own counter a second time and still misses the choice. */
  lemma ApprovingReusesTheCounter(c: Codec, log: Log, t: Tables, p: Path, choice: Revision)
    requires Faithful(c) && Hazard(log, t, p, choice) && choice.content != Deleted
    requires ApproveReviewed(c, t, p, t.rows[p].versions, None).Ok?
    ensures NextRevision(t.rows[p].observed, t.epoch, Deleted).Ok?
    ensures var next := NextRevision(t.rows[p].observed, t.epoch, Deleted).value;
      && next != choice && Count(next.clock, t.epoch) == Count(choice.clock, t.epoch)
      && !Closed(Recorded(log, next, t.epoch, t.rows[p].observed, ReviewedDeletion))
    ensures !KnowsOwn(log, t.epoch, ObservedAt(ApproveReviewed(c, t, p, t.rows[p].versions, None).value, p))
  {
    IssueEffect(c, t, p, Deleted, None);
    ReissueCollides(log, t, p, choice, Deleted);
    ChoiceIsUnobserved(log, t, p, choice);
    StaleBaseBreaksClosure(log, t.rows[p].observed, t.epoch, Deleted, ReviewedDeletion, choice);
    IssuedMissesChoice(c, log, t, p, choice, Deleted, None);
  }

  // ---- For every run ----

  /**
   After a choice cut off in any reachable state: which scan finds repair it, which leave it as it is, and which
   issue the choice's own counter a second time.
   */
  lemma InterruptedChoiceReusesItsCounter(c: Codec, s: System, d: Peer, t: Tables, p: Path, chosen: Content,
                                          actual: Option<Content>, found: Option<Content>, approve: bool)
    requires Faithful(c) && Reachable(c, s) && d in s.nodes && found != Some(Deleted)
    requires Interrupted(c, Captured(s.nodes[d].t, actual), t, p, chosen, actual)
    ensures ChoiceRevision(s.nodes[d].t, p, chosen).Ok? && p in t.rows
    ensures var choice := ChoiceRevision(s.nodes[d].t, p, chosen).value;
      var log := Recorded(LogAt(s.logs, p), choice, t.epoch, VersionsAt(s.nodes[d].t, p), Choice);
      && Hazard(log, t, p, choice)
      && (ScanPath(c, t, p, found, approve).Ok? ==>
            (KnowsOwn(log, t.epoch, ObservedAt(ScanPath(c, t, p, found, approve).value, p)) <==> found == Visible(chosen)))
      && (found != Visible(chosen) && (found == actual || (found == None && !approve)) ==>
            ScanPath(c, t, p, found, approve).Ok? && Hazard(log, ScanPath(c, t, p, found, approve).value, p, choice))
      && (found != Visible(chosen) && found != actual && (found.Some? || approve) ==>
            var content := if found.Some? then found.value else Deleted;
            && Decide(c, t, p, found, approve) == Issue(content)
            && (NextRevision(t.rows[p].observed, t.epoch, content).Ok? ==>
                  var next := NextRevision(t.rows[p].observed, t.epoch, content).value;
                  && next != choice && Count(next.clock, t.epoch) == Count(choice.clock, t.epoch)
                  && !Closed(Recorded(log, next, t.epoch, t.rows[p].observed, ScanCause(found, approve)))))
  {
    ReachableIsSafe(c, s);
    InterruptedIsHazard(c, s, d, t, p, chosen, actual);
    var choice := ChoiceRevision(s.nodes[d].t, p, chosen).value;
    var log := Recorded(LogAt(s.logs, p), choice, t.epoch, VersionsAt(s.nodes[d].t, p), Choice);
    ScanOfHazardDecides(c, log, t, p, choice, found, approve);
    if ScanPath(c, t, p, found, approve).Ok? {
      ScanRestoresExactlyTheChosen(c, log, t, p, choice, found, approve);
    }
    var decision := Decide(c, t, p, found, approve);
    if decision.Keep? || decision.Review? {
      QuietScanKeepsHazard(c, log, t, p, choice, found, approve);
    } else if decision.Issue? && NextRevision(t.rows[p].observed, t.epoch, decision.content).Ok? {
      IssuingScanReusesTheCounter(c, log, t, p, choice, found, approve);
    }
  }

  /** In a reachable state with every head observed, a third content is refused until the chosen one is found. */
  lemma InterruptedChoiceCanBlockScans(c: Codec, s: System, d: Peer, t: Tables, p: Path, chosen: Content,
                                       actual: Option<Content>, content: Content)
    requires Faithful(c) && Reachable(c, s) && d in s.nodes && content != Deleted
    requires Interrupted(c, Captured(s.nodes[d].t, actual), t, p, chosen, actual)
    requires ObservedAt(s.nodes[d].t, p) == VersionsAt(s.nodes[d].t, p)
    requires content != chosen && actual != Some(content)
    ensures ScanPath(c, t, p, Some(content), false).Err?
    ensures Edited(c, ObservedAt(s.nodes[d].t, p), t.epoch, content).Ok? ==>
      ScanPath(c, t, p, Some(content), false) == Err(EqualClock)
  {
    ReachableIsSafe(c, s);
    InterruptedIsHazard(c, s, d, t, p, chosen, actual);
    InterruptedRow(c, Captured(s.nodes[d].t, actual), t, p, chosen, actual);
    var choice := ChoiceRevision(s.nodes[d].t, p, chosen).value;
    var log := Recorded(LogAt(s.logs, p), choice, t.epoch, VersionsAt(s.nodes[d].t, p), Choice);
    AdvanceIsLater(Knowledge(VersionsAt(s.nodes[d].t, p)), t.epoch);
    HazardCanBlockScans(c, log, t, p, choice, content);
  }

  /** A scan that reviews the row makes it deletable; nothing else about it changes. */
  function Reviewed(t: Tables, p: Path): Tables {
    t.(pending := t.pending + {p})
  }

  /**
   After a choice cut off in any reachable state, every operation but a scan: an application repairs the row, before
   or after a merge, and so does a further choice; a merge alone does not; and a deletion approved after a scan that
   reviewed the row issues the choice's own counter a second time.
   */
  lemma InterruptedChoiceOtherRoutes(c: Codec, s: System, d: Peer, t: Tables, p: Path, chosen: Content, actual: Option<Content>)
    requires Faithful(c) && Reachable(c, s) && d in s.nodes
    requires Interrupted(c, Captured(s.nodes[d].t, actual), t, p, chosen, actual)
    ensures ChoiceRevision(s.nodes[d].t, p, chosen).Ok? && p in Candidates(t)
    ensures var choice := ChoiceRevision(s.nodes[d].t, p, chosen).value;
      var log := Recorded(LogAt(s.logs, p), choice, t.epoch, VersionsAt(s.nodes[d].t, p), Choice);
      && Acknowledge(c, t, p).Ok? && KnowsOwn(log, t.epoch, ObservedAt(Acknowledge(c, t, p).value, p))
      && (p in t.incoming && CommitOne(c, t, p).Ok? ==>
            var merged := CommitOne(c, t, p).value;
            && !KnowsOwn(log, t.epoch, ObservedAt(merged, p))
            && (Acknowledge(c, merged, p).Ok? ==> KnowsOwn(log, t.epoch, ObservedAt(Acknowledge(c, merged, p).value, p))))
      && (forall content, found {:trigger Index.Choose(c, t, p, content, found)} :: Index.Choose(c, t, p, content, found).Ok? ==>
            KnowsOwn(log, t.epoch, ObservedAt(Index.Choose(c, t, p, content, found).value, p)))
      && (chosen != Deleted && ApproveReviewed(c, Reviewed(t, p), p, t.rows[p].versions, None).Ok? ==>
            && NextRevision(t.rows[p].observed, t.epoch, Deleted).Ok?
            && var next := NextRevision(t.rows[p].observed, t.epoch, Deleted).value;
            && next != choice && Count(next.clock, t.epoch) == Count(choice.clock, t.epoch)
            && !Closed(Recorded(log, next, t.epoch, t.rows[p].observed, ReviewedDeletion)))
  {
    ReachableIsSafe(c, s);
    InterruptedIsHazard(c, s, d, t, p, chosen, actual);
    var choice := ChoiceRevision(s.nodes[d].t, p, chosen).value;
    var log := Recorded(LogAt(s.logs, p), choice, t.epoch, VersionsAt(s.nodes[d].t, p), Choice);
    ApplyingRepairs(c, log, t, p, choice);
    assert p !in t.pending;
    if p in t.incoming && CommitOne(c, t, p).Ok? { CommittingThenApplyingRepairs(c, log, t, p, choice); }
    forall content, found | Index.Choose(c, t, p, content, found).Ok?
      ensures KnowsOwn(log, t.epoch, ObservedAt(Index.Choose(c, t, p, content, found).value, p))
    {
      ChoosingAgainRepairs(c, log, t, p, choice, content, found);
    }
    if chosen != Deleted && ApproveReviewed(c, Reviewed(t, p), p, t.rows[p].versions, None).Ok? {
      assert Hazard(log, Reviewed(t, p), p, choice);
      ApprovingReusesTheCounter(c, log, Reviewed(t, p), p, choice);
    }
  }
}
