/** What every run of the network keeps: causally closed logs, and replicas that know their own past. */
module CausalSafety {
  import opened Results
  import opened Clocks
  import opened Ordering
  import opened Paths
  import opened Register
  import opened Lattice
  import opened Causality
  import opened Index
  import opened Effects
  import opened Network

  ghost predicate LogOk(s: System, p: Path) {
    && Closed(LogAt(s.logs, p))
    && forall e :: e in LogAt(s.logs, p) ==>
         LogAt(s.logs, p)[e].issuer in s.used && (e.content == Deleted ==> Explicit(LogAt(s.logs, p)[e].cause))
  }

  ghost predicate RowKnown(logs: map<Path, Log>, t: Tables, p: Path)
    requires p in t.rows
  {
    && Known(LogAt(logs, p), t.rows[p].versions)
    && Known(LogAt(logs, p), t.rows[p].observed)
    && Below(Elements(t.rows[p].observed), Elements(t.rows[p].versions))
  }

  ghost predicate TablesKnown(logs: map<Path, Log>, t: Tables) {
    && (forall p {:trigger RowKnown(logs, t, p)} :: p in t.rows ==> RowKnown(logs, t, p))
    && (forall p :: p in t.incoming ==> Known(LogAt(logs, p), t.incoming[p]))
  }

  /** The current incarnation of a device has observed everything it issued at `p`. */
  ghost predicate OwnAt(logs: map<Path, Log>, t: Tables, p: Path) {
    KnowsOwn(LogAt(logs, p), t.epoch, ObservedAt(t, p))
  }

  ghost predicate RecordKnown(c: Codec, logs: map<Path, Log>, record: Record)
    requires Faithful(c)
  {
    Normal(c, record.versions) && record.versions != [] && Known(LogAt(logs, record.path), record.versions)
  }

  ghost predicate NodeOk(c: Codec, s: System, d: Peer)
    requires Faithful(c) && d in s.nodes
  {
    var t := s.nodes[d].t;
    && Sound(c, t) && t.epoch in s.used && ValidDevice(t.epoch)
    && TablesKnown(s.logs, t)
    && (forall p {:trigger OwnAt(s.logs, t, p)} :: OwnAt(s.logs, t, p))
    && (s.nodes[d].session.Some? ==>
          forall r {:trigger RecordKnown(c, s.logs, r)} :: r in s.nodes[d].session.value.wire ==> RecordKnown(c, s.logs, r))
  }

  ghost predicate CheckpointOk(c: Codec, s: System, saved: Tables)
    requires Faithful(c)
  {
    Sound(c, saved) && TablesKnown(s.logs, saved)
  }

  ghost predicate CausalInv(c: Codec, s: System)
    requires Faithful(c)
  {
    && (forall p {:trigger LogOk(s, p)} :: LogOk(s, p))
    && (forall d {:trigger NodeOk(c, s, d)} :: d in s.nodes ==> NodeOk(c, s, d))
    && (forall saved {:trigger CheckpointOk(c, s, saved)} :: saved in s.checkpoints ==> CheckpointOk(c, s, saved))
    && DistinctEpochs(s)
  }

  // ---- Growing logs ----

  ghost predicate LogsGrow(logs: map<Path, Log>, after: map<Path, Log>) {
    forall p, e :: e in LogAt(logs, p) ==> e in LogAt(after, p) && LogAt(after, p)[e] == LogAt(logs, p)[e]
  }

  /** Everything new in the logs was issued by `issuer`. */
  ghost predicate OnlyIssuer(logs: map<Path, Log>, after: map<Path, Log>, issuer: Epoch) {
    forall p, e :: e in LogAt(after, p) && e !in LogAt(logs, p) ==> LogAt(after, p)[e].issuer == issuer
  }

  lemma KnownGrows(logs: map<Path, Log>, after: map<Path, Log>, t: Tables)
    requires LogsGrow(logs, after) && TablesKnown(logs, t)
    ensures TablesKnown(after, t)
  {
    forall p | p in t.rows ensures RowKnown(after, t, p) { assert RowKnown(logs, t, p); }
  }

  lemma OwnSurvivesOthers(logs: map<Path, Log>, after: map<Path, Log>, t: Tables, p: Path, issuer: Epoch)
    requires LogsGrow(logs, after) && OnlyIssuer(logs, after, issuer) && issuer != t.epoch && OwnAt(logs, t, p)
    ensures OwnAt(after, t, p)
  {}

  /** A step that grows the logs keeps every node it does not touch. */
  lemma OtherNodeOk(c: Codec, s: System, s': System, d: Peer, issuer: Epoch)
    requires Faithful(c) && d in s.nodes && NodeOk(c, s, d)
    requires LogsGrow(s.logs, s'.logs) && OnlyIssuer(s.logs, s'.logs, issuer) && issuer != s.nodes[d].t.epoch
    requires s.used <= s'.used && d in s'.nodes && s'.nodes[d] == s.nodes[d]
    ensures NodeOk(c, s', d)
  {
    var t := s.nodes[d].t;
    KnownGrows(s.logs, s'.logs, t);
    forall p ensures OwnAt(s'.logs, t, p) { OwnSurvivesOthers(s.logs, s'.logs, t, p, issuer); }
    if s.nodes[d].session.Some? {
      forall r | r in s.nodes[d].session.value.wire ensures RecordKnown(c, s'.logs, r) {
        assert RecordKnown(c, s.logs, r);
      }
    }
  }

  lemma CheckpointsStayOk(c: Codec, s: System, s': System)
    requires Faithful(c) && CausalInv(c, s) && LogsGrow(s.logs, s'.logs)
    ensures forall saved :: saved in s.checkpoints ==> CheckpointOk(c, s', saved)
  {
    forall saved | saved in s.checkpoints ensures CheckpointOk(c, s', saved) {
      assert CheckpointOk(c, s, saved);
      KnownGrows(s.logs, s'.logs, saved);
    }
  }

  // ---- One device changes one row ----

  /** `d` replaces its tables, changing at most the row at `p`; the log at `p` may gain a revision of `d`. */
  ghost predicate RowChange(s: System, s': System, d: Peer, p: Path) {
    && d in s.nodes && s'.nodes.Keys == s.nodes.Keys && s'.checkpoints == s.checkpoints && s'.used == s.used
    && (forall e :: e in s.nodes && e != d ==> s'.nodes[e] == s.nodes[e])
    && s'.nodes[d].session == s.nodes[d].session && s'.nodes[d].mode == s.nodes[d].mode
    && var t, t' := s.nodes[d].t, s'.nodes[d].t;
    && t'.epoch == t.epoch && t'.incoming == t.incoming
    && p in t'.rows && t'.rows.Keys == t.rows.Keys + {p}
    && (forall q :: q in t.rows && q != p ==> t'.rows[q] == t.rows[q])
    && (forall q :: q != p ==> LogAt(s'.logs, q) == LogAt(s.logs, q))
    && LogsGrow(s.logs, s'.logs) && OnlyIssuer(s.logs, s'.logs, t.epoch)
  }

  lemma RowChangeKeepsInv(c: Codec, s: System, s': System, d: Peer, p: Path)
    requires Faithful(c) && CausalInv(c, s) && RowChange(s, s', d, p)
    requires Sound(c, s'.nodes[d].t) && LogOk(s', p)
    requires RowKnown(s'.logs, s'.nodes[d].t, p) && OwnAt(s'.logs, s'.nodes[d].t, p)
    ensures CausalInv(c, s')
  {
    forall q ensures LogOk(s', q) {
      if q != p { assert LogOk(s, q); }
    }
    CheckpointsStayOk(c, s, s');
    forall e | e in s'.nodes ensures NodeOk(c, s', e) {
      assert NodeOk(c, s, e) && NodeOk(c, s, d);
      if e != d {
        OtherNodeOk(c, s, s', e, s.nodes[d].t.epoch);
      } else {
        ChangedNodeOk(c, s, s', d, p);
      }
    }
    EpochsStayDistinct(s, s', d);
  }

  ghost predicate DistinctEpochs(s: System) {
    forall d, e :: d in s.nodes && e in s.nodes && d != e ==> s.nodes[d].t.epoch != s.nodes[e].t.epoch
  }

  lemma EpochsStayDistinct(s: System, s': System, d: Peer)
    requires DistinctEpochs(s) && d in s.nodes && s'.nodes.Keys == s.nodes.Keys
    requires forall e :: e in s.nodes && e != d ==> s'.nodes[e] == s.nodes[e]
    requires s'.nodes[d].t.epoch == s.nodes[d].t.epoch
    ensures DistinctEpochs(s')
  {}

  lemma ChangedNodeOk(c: Codec, s: System, s': System, d: Peer, p: Path)
    requires Faithful(c) && RowChange(s, s', d, p) && NodeOk(c, s, d)
    requires Sound(c, s'.nodes[d].t)
    requires RowKnown(s'.logs, s'.nodes[d].t, p) && OwnAt(s'.logs, s'.nodes[d].t, p)
    ensures NodeOk(c, s', d)
  {
    var t, t' := s.nodes[d].t, s'.nodes[d].t;
    forall q | q in t'.rows ensures RowKnown(s'.logs, t', q) {
      if q != p { assert RowKnown(s.logs, t, q); }
    }
    forall q ensures OwnAt(s'.logs, t', q) {
      if q != p { assert OwnAt(s.logs, t, q); }
    }
    if s.nodes[d].session.Some? {
      forall r | r in s.nodes[d].session.value.wire ensures RecordKnown(c, s'.logs, r) {
        assert RecordKnown(c, s.logs, r);
      }
    }
  }

  // ---- Rows that change without a new revision ----

  /** A save whose heads cover the old ones and whose observation is the old one or all the heads. */
  lemma SaveKeepsInv(c: Codec, s: System, s': System, d: Peer, p: Path)
    requires Faithful(c) && CausalInv(c, s) && RowChange(s, s', d, p) && s'.logs == s.logs
    requires Sound(c, s'.nodes[d].t)
    requires var t, row := s.nodes[d].t, s'.nodes[d].t.rows[p];
      && Known(LogAt(s.logs, p), row.versions)
      && Below(Elements(VersionsAt(t, p)), Elements(row.versions))
      && (row.observed == ObservedAt(t, p) || row.observed == row.versions)
    ensures CausalInv(c, s')
  {
    var t, t' := s.nodes[d].t, s'.nodes[d].t;
    assert NodeOk(c, s, d) && OwnAt(s.logs, t, p) && LogOk(s, p);
    if p in t.rows { assert RowKnown(s.logs, t, p); }
    var row := t'.rows[p];
    BelowReflexive(Elements(row.versions));
    BelowTransitive(Elements(ObservedAt(t, p)), Elements(VersionsAt(t, p)), Elements(row.versions));
    OwnCarriesOver(LogAt(s.logs, p), t.epoch, ObservedAt(t, p), row.observed);
    RowChangeKeepsInv(c, s, s', d, p);
  }

  lemma OwnCarriesOver(log: Log, replica: Device, a: Heads, b: Heads)
    requires KnowsOwn(log, replica, a) && Below(Elements(a), Elements(b))
    ensures KnowsOwn(log, replica, b)
  {
    forall e | e in log && log[e].issuer == replica ensures Covered(e, Elements(b)) {
      CoveredThrough(e, Elements(a), Elements(b));
    }
  }

  // ---- Rows that gain a revision ----

  /** `d` issued `content` at `p` on top of `base`, which knows all it issued there. */
  lemma IssueKeepsInv(c: Codec, s: System, s': System, d: Peer, p: Path, base: Heads, content: Content, cause: Cause)
    requires Faithful(c) && CausalInv(c, s) && RowChange(s, s', d, p)
    requires Sound(c, s'.nodes[d].t)
    requires var epoch := s.nodes[d].t.epoch; var log := LogAt(s.logs, p);
      && Known(log, base) && KnowsOwn(log, epoch, base)
      && NextRevision(base, epoch, content).Ok? && Defect(NextRevision(base, epoch, content).value).None?
      && s'.logs == LogIssue(s, d, p, base, content, cause)
      && (content == Deleted ==> Explicit(cause))
    requires var row := s'.nodes[d].t.rows[p]; var next := NextRevision(base, s.nodes[d].t.epoch, content).value;
      && row.observed == [next]
      && (forall h :: h in row.versions ==> h == next || h in VersionsAt(s.nodes[d].t, p))
      && Below({next}, Elements(row.versions))
    ensures CausalInv(c, s')
  {
    var t := s.nodes[d].t;
    var log := LogAt(s.logs, p);
    var next := NextRevision(base, t.epoch, content).value;
    assert NodeOk(c, s, d) && LogOk(s, p);
    if p in t.rows { assert RowKnown(s.logs, t, p); }
    IssuedLogOk(s, s', d, p, base, content, cause);
    IssuedIsOwn(log, base, t.epoch, content, cause);
    assert Elements([next]) == {next};
    RowChangeKeepsInv(c, s, s', d, p);
  }

  lemma IssuedLogOk(s: System, s': System, d: Peer, p: Path, base: Heads, content: Content, cause: Cause)
    requires LogOk(s, p) && d in s.nodes && s.nodes[d].t.epoch in s.used && s'.used == s.used
    requires var epoch := s.nodes[d].t.epoch; var log := LogAt(s.logs, p);
      && Known(log, base) && KnowsOwn(log, epoch, base)
      && NextRevision(base, epoch, content).Ok? && Defect(NextRevision(base, epoch, content).value).None?
      && s'.logs == LogIssue(s, d, p, base, content, cause)
      && (content == Deleted ==> Explicit(cause))
    ensures LogOk(s', p)
  {
    IssueKeepsClosed(LogAt(s.logs, p), base, s.nodes[d].t.epoch, content, cause);
  }

  lemma IssuedIsOwn(log: Log, base: Heads, replica: Device, content: Content, cause: Cause)
    requires KnowsOwn(log, replica, base) && NextRevision(base, replica, content).Ok?
    ensures var next := NextRevision(base, replica, content).value;
      KnowsOwn(Recorded(log, next, replica, base, cause), replica, [next])
  {
    var next := NextRevision(base, replica, content).value;
    forall e | e in log && log[e].issuer == replica ensures Leq(e.clock, next.clock) {
      CoveredIsKnown(base, e);
      KnowledgeBelowNext(base, replica, content);
      LeqTransitive(e.clock, Knowledge(base), next.clock);
    }
    assert next in Elements([next]) && Leq(next.clock, next.clock);
  }

  lemma KnowledgeBelowNext(base: Heads, device: Device, content: Content)
    requires NextRevision(base, device, content).Ok?
    ensures Leq(Knowledge(base), NextRevision(base, device, content).value.clock)
  {
    AdvanceIsLater(Knowledge(base), device);
  }

  // ---- Every step ----

  lemma IssuedRowKeepsInv(c: Codec, s: System, s': System, d: Peer, p: Path, content: Content, cause: Cause)
    requires Faithful(c) && CausalInv(c, s) && RowChange(s, s', d, p) && Sound(c, s'.nodes[d].t)
    requires IssuedRow(c, s.nodes[d].t, s'.nodes[d].t, p, ObservedAt(s.nodes[d].t, p), content)
    requires s'.logs == LogIssue(s, d, p, ObservedAt(s.nodes[d].t, p), content, cause)
    requires (content == Deleted ==> Explicit(cause))
    ensures CausalInv(c, s')
  {
    var t := s.nodes[d].t;
    assert NodeOk(c, s, d) && OwnAt(s.logs, t, p);
    if p in t.rows { assert RowKnown(s.logs, t, p); }
    IssuedRowShape(c, t, s'.nodes[d].t, p, ObservedAt(t, p), content);
    IssueKeepsInv(c, s, s', d, p, ObservedAt(t, p), content, cause);
  }

  lemma IssuedRowShape(c: Codec, t: Tables, after: Tables, p: Path, base: Heads, content: Content)
    requires Faithful(c) && IssuedRow(c, t, after, p, base, content)
    ensures var next := NextRevision(base, t.epoch, content).value;
      && (forall h :: h in after.rows[p].versions ==> h == next || h in VersionsAt(t, p))
      && Below({next}, Elements(after.rows[p].versions))
  {
    var row := after.rows[p];
    var next := NextRevision(base, t.epoch, content).value;
    var all := Elements(VersionsAt(t, p)) + {next};
    forall h | h in row.versions ensures h == next || h in VersionsAt(t, p) {
      assert h in Elements(row.versions);
    }
    MaximalCovers(all);
    forall r | r in {next} ensures Covered(r, Elements(row.versions)) {
      assert r in all && Covered(r, Maximal(all));
    }
  }

  lemma IssueChangesOneRow(s: System, s': System, d: Peer, p: Path, base: Heads, content: Content, cause: Cause)
    requires d in s.nodes && NextRevision(base, s.nodes[d].t.epoch, content).Ok?
    requires NextRevision(base, s.nodes[d].t.epoch, content).value !in LogAt(s.logs, p)
    requires d in s'.nodes && s' == WithTables(s, d, s'.nodes[d].t).(logs := LogIssue(s, d, p, base, content, cause))
    requires RowOnly(s.nodes[d].t, s'.nodes[d].t, p) && p in s'.nodes[d].t.rows
    ensures RowChange(s, s', d, p)
  {}

  lemma CapturedSound(c: Codec, t: Tables, found: Option<Content>)
    requires Faithful(c) && Sound(c, t) && OnDisk(found)
    ensures Sound(c, Captured(t, found)) && Stored(Captured(t, found), found)
  {
    if found.Some? && found.value.File? { ReceivedKeepsSound(c, t, found.value.hash); }
  }

  lemma ObservedIsFresh(c: Codec, s: System, d: Peer, p: Path, content: Content)
    requires Faithful(c) && CausalInv(c, s) && d in s.nodes
    requires NextRevision(ObservedAt(s.nodes[d].t, p), s.nodes[d].t.epoch, content).Ok?
    ensures NextRevision(ObservedAt(s.nodes[d].t, p), s.nodes[d].t.epoch, content).value !in LogAt(s.logs, p)
  {
    var t := s.nodes[d].t;
    assert NodeOk(c, s, d) && LogOk(s, p) && OwnAt(s.logs, t, p);
    if p in t.rows { assert RowKnown(s.logs, t, p); }
    EditKeepsUnseenHeads(LogAt(s.logs, p), Maximal(LogAt(s.logs, p).Keys), ObservedAt(t, p), t.epoch, content);
    NextIsNew(LogAt(s.logs, p), ObservedAt(t, p), t.epoch, content);
  }

  lemma QuietChangesOneRow(s: System, s': System, d: Peer, p: Path)
    requires d in s.nodes && d in s'.nodes && s' == WithTables(s, d, s'.nodes[d].t)
    requires RowOnly(s.nodes[d].t, s'.nodes[d].t, p) && p in s'.nodes[d].t.rows
    ensures RowChange(s, s', d, p) && s'.logs == s.logs
  {}

  lemma QuietKeepsInv(c: Codec, s: System, s': System, d: Peer, p: Path)
    requires Faithful(c) && CausalInv(c, s) && d in s.nodes && d in s'.nodes && Sound(c, s'.nodes[d].t)
    requires s' == WithTables(s, d, s'.nodes[d].t)
    requires RowOnly(s.nodes[d].t, s'.nodes[d].t, p) && Quiet(s.nodes[d].t, s'.nodes[d].t, p)
    ensures CausalInv(c, s')
  {
    QuietChangesOneRow(s, s', d, p);
    assert NodeOk(c, s, d) && RowKnown(s.logs, s.nodes[d].t, p);
    BelowReflexive(Elements(VersionsAt(s.nodes[d].t, p)));
    SaveKeepsInv(c, s, s', d, p);
  }

  lemma ScanKeepsInv(c: Codec, s: System, s': System, d: Peer, p: Path, found: Option<Content>, approve: bool)
    requires Faithful(c) && CausalInv(c, s) && ScanStep(c, s, s', d, p, found, approve)
    ensures CausalInv(c, s')
  {
    ScanStepIsSound(c, s, s', d, p, found, approve);
    var decision := Decide(c, Captured(s.nodes[d].t, found), p, found, approve);
    if decision.Issue? {
      IssuedHereKeepsInv(c, s, s', d, p, decision.content, ScanCause(found, approve));
    } else {
      QuietKeepsInv(c, s, s', d, p);
    }
  }

  lemma ScanStepIsSound(c: Codec, s: System, s': System, d: Peer, p: Path, found: Option<Content>, approve: bool)
    requires Faithful(c) && CausalInv(c, s) && ScanStep(c, s, s', d, p, found, approve)
    ensures Sound(c, s'.nodes[d].t) && RowOnly(s.nodes[d].t, s'.nodes[d].t, p)
    ensures match Decide(c, Captured(s.nodes[d].t, found), p, found, approve)
      case Issue(content) =>
        IssuedRow(c, s.nodes[d].t, s'.nodes[d].t, p, ObservedAt(s.nodes[d].t, p), content) && (content == Deleted ==> found.None? && approve)
      case _ => Quiet(s.nodes[d].t, s'.nodes[d].t, p)
  {
    var t := Captured(s.nodes[d].t, found);
    assert NodeOk(c, s, d);
    CapturedSound(c, s.nodes[d].t, found);
    ScanKeepsSound(c, t, p, found, approve);
    ScanEffect(c, t, p, found, approve);
  }

  /** `d` issued `content` at `p` on top of what it observed there. */
  lemma IssuedHereKeepsInv(c: Codec, s: System, s': System, d: Peer, p: Path, content: Content, cause: Cause)
    requires Faithful(c) && CausalInv(c, s) && d in s.nodes && d in s'.nodes && Sound(c, s'.nodes[d].t)
    requires IssuedRow(c, s.nodes[d].t, s'.nodes[d].t, p, ObservedAt(s.nodes[d].t, p), content)
    requires RowOnly(s.nodes[d].t, s'.nodes[d].t, p)
    requires s' == WithTables(s, d, s'.nodes[d].t).(logs := LogIssue(s, d, p, ObservedAt(s.nodes[d].t, p), content, cause))
    requires (content == Deleted ==> Explicit(cause))
    ensures CausalInv(c, s')
  {
    ObservedIsFresh(c, s, d, p, content);
    IssueChangesOneRow(s, s', d, p, ObservedAt(s.nodes[d].t, p), content, cause);
    IssuedRowKeepsInv(c, s, s', d, p, content, cause);
  }

  lemma ApproveKeepsInv(c: Codec, s: System, s': System, d: Peer, p: Path, expected: Heads)
    requires Faithful(c) && CausalInv(c, s) && ApproveStep(c, s, s', d, p, expected)
    ensures CausalInv(c, s')
  {
    var t := s.nodes[d].t;
    assert NodeOk(c, s, d);
    IssueKeepsSound(c, t, p, Deleted, None);
    IssueEffect(c, t, p, Deleted, None);
    IssuedHereKeepsInv(c, s, s', d, p, Deleted, ReviewedDeletion);
  }

  lemma RetainedIsStored(c: Codec, t: Tables, p: Path, content: Content)
    requires Faithful(c) && Sound(c, t) && Retained(t, p, content)
    ensures content.File? ==> content.hash in t.objects
  {
    var r :| (p, r) in t.history && r.content == content;
    assert Stored(t, Some((p, r).1.content));
  }

  lemma ChooseKeepsInv(c: Codec, s: System, s': System, d: Peer, p: Path, content: Content, actual: Option<Content>)
    requires Faithful(c) && CausalInv(c, s) && ChooseStep(c, s, s', d, p, content, actual)
    ensures CausalInv(c, s')
  {
    var t0 := s.nodes[d].t;
    var t := Captured(t0, actual);
    assert NodeOk(c, s, d);
    CapturedSound(c, t0, actual);
    RetainedIsStored(c, t, p, content);
    ChooseKeepsSound(c, t, p, content, actual);
    ChooseEffect(c, t, p, content, actual);
    ResolvedKeepsInv(c, s, s', d, p, content);
  }

  /** `d` issued `content` at `p` on top of every head it holds there. */
  lemma ResolvedKeepsInv(c: Codec, s: System, s': System, d: Peer, p: Path, content: Content)
    requires Faithful(c) && CausalInv(c, s) && d in s.nodes && d in s'.nodes && Sound(c, s'.nodes[d].t)
    requires RowOnly(s.nodes[d].t, s'.nodes[d].t, p) && p in s.nodes[d].t.rows && p in s'.nodes[d].t.rows
    requires var base := VersionsAt(s.nodes[d].t, p); var row := s'.nodes[d].t.rows[p];
      && NextRevision(base, s.nodes[d].t.epoch, content).Ok?
      && Defect(NextRevision(base, s.nodes[d].t.epoch, content).value).None?
      && row.versions == row.observed == [NextRevision(base, s.nodes[d].t.epoch, content).value]
      && s' == WithTables(s, d, s'.nodes[d].t).(logs := LogIssue(s, d, p, base, content, Choice))
    ensures CausalInv(c, s')
  {
    var t := s.nodes[d].t;
    var base := t.rows[p].versions;
    assert NodeOk(c, s, d) && LogOk(s, p) && OwnAt(s.logs, t, p) && RowKnown(s.logs, t, p);
    OwnCarriesOver(LogAt(s.logs, p), t.epoch, t.rows[p].observed, base);
    NextIsNew(LogAt(s.logs, p), base, t.epoch, content);
    IssueChangesOneRow(s, s', d, p, base, content, Choice);
    var next := NextRevision(base, t.epoch, content).value;
    assert Elements([next]) == {next};
    BelowReflexive({next});
    IssueKeepsInv(c, s, s', d, p, base, content, Choice);
  }

  lemma ApplyKeepsInv(c: Codec, s: System, s': System, d: Peer, p: Path)
    requires Faithful(c) && CausalInv(c, s) && ApplyStep(c, s, s', d, p)
    ensures CausalInv(c, s')
  {
    assert NodeOk(c, s, d);
    AcknowledgeKeepsSound(c, s.nodes[d].t, p);
    AcknowledgeMoves(c, s.nodes[d].t, p);
    QuietKeepsInv(c, s, s', d, p);
  }

  lemma CommitKeepsInv(c: Codec, s: System, s': System, d: Peer, p: Path)
    requires Faithful(c) && CausalInv(c, s) && CommitStep(c, s, s', d, p)
    ensures CausalInv(c, s')
  {
    var t := s.nodes[d].t;
    assert NodeOk(c, s, d);
    if p in t.rows { assert RowKnown(s.logs, t, p); }
    CommitKeepsSound(c, t, p);
    CommitMoves(c, t, p);
    SaveKeepsInv(c, s, s', d, p);
  }

  // ---- Steps that change no row ----

  /** `d` changes its exchange state only; whatever it now holds from outside is known. */
  ghost predicate ExchangeChange(s: System, s': System, d: Peer) {
    && d in s.nodes && s'.nodes.Keys == s.nodes.Keys && s'.checkpoints == s.checkpoints
    && s'.used == s.used && s'.logs == s.logs
    && (forall e :: e in s.nodes && e != d ==> s'.nodes[e] == s.nodes[e])
    && s'.nodes[d].t.epoch == s.nodes[d].t.epoch && s'.nodes[d].t.rows == s.nodes[d].t.rows
  }

  lemma ExchangeKeepsInv(c: Codec, s: System, s': System, d: Peer)
    requires Faithful(c) && CausalInv(c, s) && ExchangeChange(s, s', d) && Sound(c, s'.nodes[d].t)
    requires forall p :: p in s'.nodes[d].t.incoming ==> Known(LogAt(s.logs, p), s'.nodes[d].t.incoming[p])
    requires s'.nodes[d].session.Some? ==>
      forall r :: r in s'.nodes[d].session.value.wire ==> RecordKnown(c, s.logs, r)
    ensures CausalInv(c, s')
  {
    forall q ensures LogOk(s', q) { assert LogOk(s, q); }
    CheckpointsStayOk(c, s, s');
    EpochsStayDistinct(s, s', d);
    forall e | e in s'.nodes ensures NodeOk(c, s', e) {
      assert NodeOk(c, s, e);
      forall p | p in s'.nodes[e].t.rows ensures RowKnown(s'.logs, s'.nodes[e].t, p) {
        assert RowKnown(s.logs, s.nodes[e].t, p);
      }
      forall p ensures OwnAt(s'.logs, s'.nodes[e].t, p) { assert OwnAt(s.logs, s.nodes[e].t, p); }
      if e != d && s'.nodes[e].session.Some? {
        forall r | r in s'.nodes[e].session.value.wire ensures RecordKnown(c, s'.logs, r) {
          assert RecordKnown(c, s.logs, r);
        }
      }
    }
  }

  /** Exchange tables that shrink, or grow only in objects, stay sound. */
  lemma WithExchangeSound(c: Codec, t: Tables, after: Tables)
    requires Faithful(c) && Sound(c, t)
    requires after.rows == t.rows && after.pending == t.pending && after.history == t.history && after.sequence == t.sequence
    requires t.objects <= after.objects && after.incoming == map[]
    ensures Sound(c, after)
  {
    forall p | p in after.rows ensures RowSound(c, after, p) { assert RowSound(c, t, p); }
  }

  predicate IsExchange(step: Step) {
    step.Begin? || step.Send? || step.Stage? || step.End? || step.Pull? || step.CommitDone? || step.SetCursor? || step.Drop?
  }

  lemma ExchangeStepKeepsInv(c: Codec, s: System, step: Step, s': System)
    requires Faithful(c) && CausalInv(c, s) && Next(c, s, step, s') && IsExchange(step)
    ensures CausalInv(c, s')
  {
    ExchangeStepIsKnown(c, s, step, s');
    ExchangeKeepsInv(c, s, s', step.d);
  }

  lemma ExchangeStepIsKnown(c: Codec, s: System, step: Step, s': System)
    requires Faithful(c) && CausalInv(c, s) && Next(c, s, step, s') && IsExchange(step)
    ensures ExchangeChange(s, s', step.d)
    ensures Sound(c, s'.nodes[step.d].t)
    ensures forall p :: p in s'.nodes[step.d].t.incoming ==> Known(LogAt(s.logs, p), s'.nodes[step.d].t.incoming[p])
    ensures s'.nodes[step.d].session.Some? ==>
      forall r :: r in s'.nodes[step.d].session.value.wire ==> RecordKnown(c, s.logs, r)
  {
    if step.Begin? || step.Send? || step.Stage? || step.Pull? {
      OpenStepIsKnown(c, s, step, s');
    } else {
      ClosingStepIsKnown(c, s, step, s');
    }
  }

  lemma OpenStepIsKnown(c: Codec, s: System, step: Step, s': System)
    requires Faithful(c) && CausalInv(c, s) && Next(c, s, step, s')
    requires step.Begin? || step.Send? || step.Stage? || step.Pull?
    ensures ExchangeChange(s, s', step.d)
    ensures Sound(c, s'.nodes[step.d].t)
    ensures forall p :: p in s'.nodes[step.d].t.incoming ==> Known(LogAt(s.logs, p), s'.nodes[step.d].t.incoming[p])
    ensures s'.nodes[step.d].session.Some? ==>
      forall r :: r in s'.nodes[step.d].session.value.wire ==> RecordKnown(c, s.logs, r)
  {
    match step {
      case Begin(d, from) => BeginIsKnown(c, s, s', d, from);
      case Send(d, p) => SentIsKnown(c, s, s', d, p);
      case Stage(d) => StagedIsKnown(c, s, s', d);
      case Pull(d, hash) => PulledIsKnown(c, s, s', d, hash);
    }
  }

  lemma ClosingStepIsKnown(c: Codec, s: System, step: Step, s': System)
    requires Faithful(c) && CausalInv(c, s) && Next(c, s, step, s')
    requires step.End? || step.CommitDone? || step.SetCursor? || step.Drop?
    ensures ExchangeChange(s, s', step.d)
    ensures Sound(c, s'.nodes[step.d].t)
    ensures forall p :: p in s'.nodes[step.d].t.incoming ==> Known(LogAt(s.logs, p), s'.nodes[step.d].t.incoming[p])
    ensures s'.nodes[step.d].session.Some? ==>
      forall r :: r in s'.nodes[step.d].session.value.wire ==> RecordKnown(c, s.logs, r)
  {
    assert NodeOk(c, s, step.d);
    match step {
      case End(_) =>
      case CommitDone(d) => CommittedIsKnown(c, s, s', d);
      case SetCursor(d) => CursorsKeepSound(c, s.nodes[d].t, s'.nodes[d].t.cursors);
      case Drop(_) =>
    }
  }

  lemma BeginIsKnown(c: Codec, s: System, s': System, d: Peer, from: Peer)
    requires Faithful(c) && CausalInv(c, s) && BeginStep(s, s', d, from)
    ensures ExchangeChange(s, s', d) && Sound(c, s'.nodes[d].t) && s'.nodes[d].t.incoming == map[]
    ensures s'.nodes[d].session.Some? && s'.nodes[d].session.value.wire == []
  {
    assert NodeOk(c, s, d);
    WithExchangeSound(c, s.nodes[d].t, s'.nodes[d].t);
  }

  lemma PulledIsKnown(c: Codec, s: System, s': System, d: Peer, hash: Hash)
    requires Faithful(c) && CausalInv(c, s) && PullStep(s, s', d, hash)
    ensures ExchangeChange(s, s', d) && Sound(c, s'.nodes[d].t)
    ensures forall p :: p in s'.nodes[d].t.incoming ==> Known(LogAt(s.logs, p), s'.nodes[d].t.incoming[p])
    ensures forall r :: r in s'.nodes[d].session.value.wire ==> RecordKnown(c, s.logs, r)
  {
    assert NodeOk(c, s, d);
    ReceivedKeepsSound(c, s.nodes[d].t, hash);
  }

  lemma CommittedIsKnown(c: Codec, s: System, s': System, d: Peer)
    requires Faithful(c) && CausalInv(c, s) && CommitDoneStep(s, s', d)
    ensures ExchangeChange(s, s', d) && Sound(c, s'.nodes[d].t) && s'.nodes[d].t.incoming == map[]
    ensures forall r :: r in s'.nodes[d].session.value.wire ==> RecordKnown(c, s.logs, r)
  {
    assert NodeOk(c, s, d);
    WithExchangeSound(c, s.nodes[d].t, s'.nodes[d].t);
  }

  lemma CursorsKeepSound(c: Codec, t: Tables, cursors: map<Peer, Cursor>)
    requires Faithful(c) && Sound(c, t)
    ensures Sound(c, t.(cursors := cursors))
  {
    var after := t.(cursors := cursors);
    forall p | p in after.rows ensures RowSound(c, after, p) { assert RowSound(c, t, p); }
    forall p | p in after.incoming ensures IncomingSound(c, after, p) { assert IncomingSound(c, t, p); }
  }

  lemma SentIsKnown(c: Codec, s: System, s': System, d: Peer, p: Path)
    requires Faithful(c) && CausalInv(c, s) && SendStep(s, s', d, p)
    ensures ExchangeChange(s, s', d) && s'.nodes[d].t == s.nodes[d].t && NodeOk(c, s, d)
    ensures forall r :: r in s'.nodes[d].session.value.wire ==> RecordKnown(c, s.logs, r)
  {
    var session := s.nodes[d].session.value;
    var sender := s.nodes[session.peer].t;
    assert NodeOk(c, s, d) && NodeOk(c, s, session.peer);
    assert RowSound(c, sender, p) && RowKnown(s.logs, sender, p);
    assert RecordKnown(c, s.logs, Record(p, sender.rows[p].versions, sender.rows[p].sequence));
  }

  lemma StagedIsKnown(c: Codec, s: System, s': System, d: Peer)
    requires Faithful(c) && CausalInv(c, s) && StageStep(c, s, s', d)
    ensures ExchangeChange(s, s', d)
    ensures Sound(c, s'.nodes[d].t)
    ensures forall p :: p in s'.nodes[d].t.incoming ==> Known(LogAt(s.logs, p), s'.nodes[d].t.incoming[p])
    ensures forall r :: r in s'.nodes[d].session.value.wire ==> RecordKnown(c, s.logs, r)
  {
    var t, record := s.nodes[d].t, s.nodes[d].session.value.wire[0];
    assert NodeOk(c, s, d);
    assert record in s.nodes[d].session.value.wire;
    assert RecordKnown(c, s.logs, record);
    StageKeepsSound(c, t, record.path, record.versions);
  }

  // ---- New incarnations ----

  lemma NewcomerKeepsInv(c: Codec, s: System, s': System, d: Peer)
    requires Faithful(c) && CausalInv(c, s)
    requires s'.logs == s.logs && s'.checkpoints == s.checkpoints && d in s'.nodes
    requires s'.nodes.Keys == s.nodes.Keys + {d} && forall e :: e in s.nodes && e != d ==> s'.nodes[e] == s.nodes[e]
    requires var t := s'.nodes[d].t;
      && t.epoch !in s.used && ValidDevice(t.epoch) && s'.used == s.used + {t.epoch}
      && s'.nodes[d].session == None && Sound(c, t) && TablesKnown(s.logs, t)
    ensures CausalInv(c, s')
  {
    var t := s'.nodes[d].t;
    forall q ensures LogOk(s', q) { assert LogOk(s, q); }
    CheckpointsStayOk(c, s, s');
    forall e | e in s'.nodes ensures NodeOk(c, s', e) {
      if e != d {
        assert NodeOk(c, s, e);
        OtherNodeOk(c, s, s', e, t.epoch);
      } else {
        forall p ensures OwnAt(s'.logs, t, p) { assert LogOk(s, p); }
      }
    }
    forall e | e in s.nodes ensures s.nodes[e].t.epoch in s.used { assert NodeOk(c, s, e); }
  }

  lemma EmptySound(c: Codec, epoch: Epoch)
    requires Faithful(c)
    ensures Sound(c, EmptyTables(epoch))
  {}

  lemma RestoredSound(c: Codec, saved: Tables, epoch: Epoch, recovering: bool, objects: set<Hash>)
    requires Faithful(c) && Sound(c, saved)
    ensures Sound(c, Restored(saved, epoch, recovering, objects))
  {
    WithExchangeSound(c, saved, Restored(saved, epoch, recovering, objects));
  }

  lemma CreateKeepsInv(c: Codec, s: System, s': System, d: Peer, epoch: Epoch, mode: Mode)
    requires Faithful(c) && CausalInv(c, s) && CreateStep(s, s', d, epoch, mode)
    ensures CausalInv(c, s')
  {
    EmptySound(c, epoch);
    NewcomerKeepsInv(c, s, s', d);
  }

  /** A rollback may lose anything, but its fresh replica has issued nothing yet. */
  lemma RollbackKeepsInv(c: Codec, s: System, s': System, d: Peer, saved: Tables, epoch: Epoch, recovering: bool)
    requires Faithful(c) && CausalInv(c, s) && RollbackStep(s, s', d, saved, epoch, recovering)
    ensures CausalInv(c, s')
  {
    assert CheckpointOk(c, s, saved);
    RestoredSound(c, saved, epoch, recovering, s.nodes[d].t.objects);
    RestoredKnown(s.logs, saved, s'.nodes[d].t);
    NewcomerKeepsInv(c, s, s', d);
  }

  lemma CheckpointKeepsInv(c: Codec, s: System, s': System, d: Peer)
    requires Faithful(c) && CausalInv(c, s) && d in s.nodes
    requires s' == s.(checkpoints := s.checkpoints + {Snapshot(s.nodes[d].t)})
    ensures CausalInv(c, s')
  {
    var t := s.nodes[d].t;
    assert NodeOk(c, s, d);
    WithExchangeSound(c, t, Snapshot(t));
    RestoredKnown(s.logs, t, Snapshot(t));
    CheckpointsStayOk(c, s, s');
    forall q ensures LogOk(s', q) { assert LogOk(s, q); }
    forall e | e in s'.nodes ensures NodeOk(c, s', e) { assert NodeOk(c, s, e); }
  }

  lemma RestoredKnown(logs: map<Path, Log>, t: Tables, after: Tables)
    requires TablesKnown(logs, t) && after.rows == t.rows && after.incoming == map[]
    ensures TablesKnown(logs, after)
  {
    forall p | p in after.rows ensures RowKnown(logs, after, p) { assert RowKnown(logs, t, p); }
  }

  /** Every step of every device keeps the invariant. */
  lemma NextKeepsCausalInv(c: Codec, s: System, step: Step, s': System)
    requires Faithful(c) && CausalInv(c, s) && Next(c, s, step, s')
    ensures CausalInv(c, s')
  {
    match step
    case Scan(d, p, found, approve) => ScanKeepsInv(c, s, s', d, p, found, approve);
    case Approve(d, p, expected) => ApproveKeepsInv(c, s, s', d, p, expected);
    case Resolving(d, p, content, actual) => ChooseKeepsInv(c, s, s', d, p, content, actual);
    case Apply(d, p) => ApplyKeepsInv(c, s, s', d, p);
    case Commit(d, p) => CommitKeepsInv(c, s, s', d, p);
    case Create(d, epoch, mode) => CreateKeepsInv(c, s, s', d, epoch, mode);
    case Checkpoint(d) => CheckpointKeepsInv(c, s, s', d);
    case Rollback(d, saved, epoch, recovering) => RollbackKeepsInv(c, s, s', d, saved, epoch, recovering);
    case _ => ExchangeStepKeepsInv(c, s, step, s');
  }
}
