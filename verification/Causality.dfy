/**
 The causal history of one path across all devices: which revisions were issued, by which replica,
 and on top of what. Histories are defined by what an edit was made on, never by clocks; the theorems
 say that the clocks decide them.
 */
module Causality {
  import opened Results
  import opened Clocks
  import opened Ordering
  import opened Register
  import opened Lattice

  /** The operation that issued a revision, as it was called. */
  datatype Cause = ScannedEdit | ApprovedScan | UnapprovedScan | ReviewedDeletion | Choice

  /** The causes by which somebody asks for a deletion. */
  predicate Explicit(cause: Cause) {
    cause == ApprovedScan || cause == ReviewedDeletion || cause == Choice
  }

  /** `past` holds every revision in the strict causal past. */
  datatype Origin = Origin(issuer: Device, past: set<Revision>, cause: Cause)

  type Log = map<Revision, Origin>

  /** The causal past of an edit made on top of `base`. */
  function PastOf(log: Log, base: Heads): set<Revision> {
    set h, f | h in base && h in log && f in log[h].past + {h} :: f
  }

  function Recorded(log: Log, revision: Revision, issuer: Device, base: Heads, cause: Cause): Log {
    log[revision := Origin(issuer, PastOf(log, base), cause)]
  }

  ghost predicate Reaches(log: Log, f: Revision, e: Revision)
    requires e in log
  {
    f == e || f in log[e].past
  }

  /** `e` counts at least as many revisions of the issuer of `f` as `f` does. */
  ghost predicate Counts(log: Log, e: Revision, f: Revision)
    requires f in log
  {
    Count(f.clock, log[f].issuer) <= Count(e.clock, log[f].issuer)
  }

  /** A counter of `e` comes from a revision of the replica that owns it. */
  ghost predicate Sourced(log: Log, e: Revision, q: Device) {
    exists f :: f in log && log[f].issuer == q && Count(f.clock, q) == Count(e.clock, q)
  }

  ghost predicate WellIssued(log: Log, e: Revision)
    requires e in log
  {
    Defect(e).None? && log[e].issuer in e.clock && e !in log[e].past && log[e].past <= log.Keys
  }

  ghost predicate Downward(log: Log, e: Revision, f: Revision)
    requires e in log && f in log
  {
    f in log[e].past ==> Leq(f.clock, e.clock) && log[f].past <= log[e].past
  }

  /** What every edit keeps: each clock counts exactly the revisions of its causal past. */
  ghost predicate Closed(log: Log) {
    && (forall e {:trigger WellIssued(log, e)} :: e in log ==> WellIssued(log, e))
    && (forall e, f {:trigger Counts(log, e, f)} {:trigger Reaches(log, f, e)} ::
          e in log && f in log ==> (Reaches(log, f, e) <==> Counts(log, e, f)))
    && (forall e, q {:trigger Sourced(log, e, q)} :: e in log && q in e.clock ==> Sourced(log, e, q))
    && (forall e, f {:trigger Downward(log, e, f)} :: e in log && f in log ==> Downward(log, e, f))
  }

  ghost predicate Known(log: Log, heads: Heads) {
    forall h :: h in heads ==> h in log
  }

  /** Every revision `replica` has issued is below `heads`. */
  ghost predicate KnowsOwn(log: Log, replica: Device, heads: Heads) {
    forall e :: e in log && log[e].issuer == replica ==> Covered(e, Elements(heads))
  }

  /** Version vectors decide true causality. */
  lemma ClocksDecideCausality(log: Log, e: Revision, f: Revision)
    requires Closed(log) && e in log && f in log
    ensures Compare(f.clock, e.clock) == Before <==> f in log[e].past
    ensures Compare(f.clock, e.clock) == After <==> e in log[f].past
    ensures Compare(f.clock, e.clock) == Equal <==> f == e
  {
    LeqMeansReaches(log, e, f);
    LeqMeansReaches(log, f, e);
    assert WellIssued(log, e) && WellIssued(log, f);
    assert Downward(log, e, f) && Downward(log, f, e);
  }

  lemma LeqMeansReaches(log: Log, e: Revision, f: Revision)
    requires Closed(log) && e in log && f in log
    ensures Leq(f.clock, e.clock) <==> Reaches(log, f, e)
  {
    assert WellIssued(log, f) && Downward(log, e, f);
    if Leq(f.clock, e.clock) {
      assert log[f].issuer in f.clock;
      assert Counts(log, e, f);
    }
  }

  /** Equal clocks never carry different contents, so `join` never rejects issued revisions. */
  lemma IssuedRevisionsAreConsistent(log: Log, s: set<Revision>)
    requires Closed(log) && s <= log.Keys
    ensures Consistent(s)
  {
    forall a, b | a in s && b in s && Compare(a.clock, b.clock) == Equal
      ensures a.content == b.content
    {
      ClocksDecideCausality(log, b, a);
    }
  }

  // ---- Issuing a revision ----

  lemma OwnCountersAreKnown(log: Log, base: Heads, replica: Device, e: Revision)
    requires Closed(log) && Known(log, base) && KnowsOwn(log, replica, base) && e in log
    ensures Count(e.clock, replica) <= Count(Knowledge(base), replica)
  {
    if replica in e.clock {
      assert Sourced(log, e, replica);
      var f :| f in log && log[f].issuer == replica && Count(f.clock, replica) == Count(e.clock, replica);
      CoveredIsKnown(base, f);
      assert WellIssued(log, f);
    }
  }

  /** What a replica issues on top of its own past is not in the log yet. */
  lemma NextIsNew(log: Log, base: Heads, replica: Device, content: Content)
    requires Closed(log) && Known(log, base) && KnowsOwn(log, replica, base)
    requires NextRevision(base, replica, content).Ok?
    ensures NextRevision(base, replica, content).value !in log
  {
    var next := NextRevision(base, replica, content).value;
    AdvanceIsLater(Knowledge(base), replica);
    if next in log { OwnCountersAreKnown(log, base, replica, next); }
  }

  lemma CoveredIsKnown(base: Heads, f: Revision)
    requires Covered(f, Elements(base))
    ensures Leq(f.clock, Knowledge(base))
  {
    var h :| h in Elements(base) && Leq(f.clock, h.clock);
    KnowledgeIsLeast(base, map[]);
    LeqTransitive(f.clock, h.clock, Knowledge(base));
  }

  lemma PastHasWitness(log: Log, base: Heads, f: Revision) returns (h: Revision)
    requires Closed(log) && Known(log, base) && f in PastOf(log, base)
    ensures f in log && h in base && h in log && Reaches(log, f, h) && log[f].past <= PastOf(log, base)
    ensures Leq(f.clock, h.clock)
  {
    h :| h in base && h in log && f in log[h].past + {h};
    assert WellIssued(log, h) && Downward(log, h, f);
    forall g | g in log[f].past ensures g in PastOf(log, base) {
      assert g in log[h].past + {h};
    }
  }

  /** The causal past of an edit is what its clock counts. */
  lemma PastIsCounted(log: Log, base: Heads, f: Revision)
    requires Closed(log) && Known(log, base) && f in log
    ensures f in PastOf(log, base) <==>
      Count(f.clock, log[f].issuer) <= Count(Knowledge(base), log[f].issuer)
    ensures f in PastOf(log, base) <==> Covered(f, Elements(base))
  {
    var q := log[f].issuer;
    assert WellIssued(log, f);
    assert q in f.clock && Count(f.clock, q) > 0;
    if f in PastOf(log, base) {
      var h := PastHasWitness(log, base, f);
      assert h in Elements(base);
    }
    if Covered(f, Elements(base)) {
      CoveredIsKnown(base, f);
    }
    if Count(f.clock, q) <= Count(Knowledge(base), q) {
      var h := KnowledgeHasSource(base, q);
      assert h in log && Counts(log, h, f);
      assert f in log[h].past + {h};
    }
  }

  /** What issuing on top of `base` adds to the log. */
  ghost predicate Extends(log: Log, after: Log, base: Heads, replica: Device, next: Revision) {
    && next !in log && after.Keys == log.Keys + {next}
    && (forall e :: e in log ==> after[e] == log[e])
    && after[next].issuer == replica && after[next].past == PastOf(log, base)
    && Valid(next.clock)
    && Leq(Knowledge(base), next.clock)
    && (forall d :: d != replica ==> Count(next.clock, d) == Count(Knowledge(base), d))
    && (forall e :: e in log ==> Count(e.clock, replica) < Count(next.clock, replica))
  }

  /** Counter freshness: what a replica issues on top of its own past has a counter never used before. */
  lemma IssueIsFresh(log: Log, base: Heads, replica: Device, content: Content, cause: Cause)
    requires Closed(log) && Known(log, base) && KnowsOwn(log, replica, base)
    requires NextRevision(base, replica, content).Ok?
    requires Defect(NextRevision(base, replica, content).value).None?
    ensures var next := NextRevision(base, replica, content).value;
      Extends(log, Recorded(log, next, replica, base, cause), base, replica, next)
  {
    var next := NextRevision(base, replica, content).value;
    AdvanceIsLater(Knowledge(base), replica);
    forall e | e in log ensures Count(e.clock, replica) < Count(next.clock, replica) {
      OwnCountersAreKnown(log, base, replica, e);
    }
  }

  lemma IssueKeepsClosed(log: Log, base: Heads, replica: Device, content: Content, cause: Cause)
    requires Closed(log) && Known(log, base) && KnowsOwn(log, replica, base)
    requires NextRevision(base, replica, content).Ok?
    requires Defect(NextRevision(base, replica, content).value).None?
    ensures Closed(Recorded(log, NextRevision(base, replica, content).value, replica, base, cause))
  {
    var next := NextRevision(base, replica, content).value;
    var after := Recorded(log, next, replica, base, cause);
    IssueIsFresh(log, base, replica, content, cause);
    forall e | e in after ensures WellIssued(after, e) {
      ExtensionWellIssued(log, after, base, replica, next, e);
    }
    forall e, f | e in after && f in after ensures Reaches(after, f, e) <==> Counts(after, e, f) {
      ExtensionCounts(log, after, base, replica, next, e, f);
    }
    forall e, q | e in after && q in e.clock ensures Sourced(after, e, q) {
      ExtensionSourced(log, after, base, replica, next, e, q);
    }
    forall e, f | e in after && f in after ensures Downward(after, e, f) {
      ExtensionDownward(log, after, base, replica, next, e, f);
    }
  }

  lemma ExtensionWellIssued(log: Log, after: Log, base: Heads, replica: Device, next: Revision, e: Revision)
    requires Closed(log) && Known(log, base) && Extends(log, after, base, replica, next) && e in after
    requires Defect(next).None? && replica in next.clock
    ensures WellIssued(after, e)
  {
    if e in log {
      assert WellIssued(log, e);
    } else {
      forall f | f in PastOf(log, base) ensures f in log {
        var h := PastHasWitness(log, base, f);
      }
    }
  }

  lemma ExtensionCounts(log: Log, after: Log, base: Heads, replica: Device, next: Revision, e: Revision, f: Revision)
    requires Closed(log) && Known(log, base) && Extends(log, after, base, replica, next)
    requires e in after && f in after
    requires replica in next.clock && KnowsOwn(log, replica, base)
    ensures Reaches(after, f, e) <==> Counts(after, e, f)
  {
    if e in log && f in log {
      assert Reaches(log, f, e) <==> Counts(log, e, f);
    } else if e in log {
      assert WellIssued(log, e);
    } else if f in log {
      PastIsCounted(log, base, f);
      if log[f].issuer == replica { assert Covered(f, Elements(base)); }
    }
  }

  lemma ExtensionSourced(log: Log, after: Log, base: Heads, replica: Device, next: Revision, e: Revision, q: Device)
    requires Closed(log) && Known(log, base) && Extends(log, after, base, replica, next)
    requires e in after && q in e.clock
    ensures Sourced(after, e, q)
  {
    if e == next && q == replica {
      assert after[next].issuer == q;
    } else {
      var from := if e == next then KnowledgeSource(base, q) else e;
      assert from in log && q in from.clock;
      assert Sourced(log, from, q);
      var f :| f in log && log[f].issuer == q && Count(f.clock, q) == Count(from.clock, q);
      assert f in after && after[f].issuer == q;
    }
  }

  ghost function KnowledgeSource(base: Heads, q: Device): (h: Revision)
    requires Count(Knowledge(base), q) > 0
    ensures h in base && Count(h.clock, q) == Count(Knowledge(base), q)
  {
    assert exists h :: h in base && Count(h.clock, q) == Count(Knowledge(base), q) by {
      var h := KnowledgeHasSource(base, q);
    }
    var h :| h in base && Count(h.clock, q) == Count(Knowledge(base), q);
    h
  }

  lemma ExtensionDownward(log: Log, after: Log, base: Heads, replica: Device, next: Revision, e: Revision, f: Revision)
    requires Closed(log) && Known(log, base) && Extends(log, after, base, replica, next)
    requires e in after && f in after
    ensures Downward(after, e, f)
  {
    if e in log {
      assert WellIssued(log, e);
      if f in log { assert Downward(log, e, f); }
    } else if f in PastOf(log, base) {
      var h := PastHasWitness(log, base, f);
      PastIsCounted(log, base, f);
      CoveredIsKnown(base, f);
      LeqTransitive(f.clock, Knowledge(base), next.clock);
    }
  }

  /** The converse: issuing from a base that misses an own revision leaves a log whose clocks mislead. */
  lemma StaleBaseBreaksClosure(log: Log, base: Heads, replica: Device, content: Content, cause: Cause, own: Revision)
    requires Closed(log) && Known(log, base)
    requires NextRevision(base, replica, content).Ok? && NextRevision(base, replica, content).value !in log
    requires own in log && log[own].issuer == replica && !Covered(own, Elements(base))
    ensures !Closed(Recorded(log, NextRevision(base, replica, content).value, replica, base, cause))
  {
    var next := NextRevision(base, replica, content).value;
    AdvanceIsLater(Knowledge(base), replica);
    var after := Recorded(log, next, replica, base, cause);
    PastIsCounted(log, base, own);
    assert WellIssued(log, own);
    assert !Reaches(after, own, next) && !Reaches(after, next, own);
    assert Count(next.clock, replica) <= Count(own.clock, replica);
    assert Counts(after, own, next);
  }

  // ---- A local edit supersedes exactly what was observed ----

  lemma SupersededIsObserved(log: Log, observed: Heads, replica: Device, content: Content, h: Revision)
    requires Closed(log) && Known(log, observed) && KnowsOwn(log, replica, observed) && h in log
    requires NextRevision(observed, replica, content).Ok?
    ensures var next := NextRevision(observed, replica, content).value;
      && next != h
      && (Compare(h.clock, next.clock) == Before <==> Covered(h, Elements(observed)))
      && (Compare(next.clock, h.clock) != Before)
  {
    var next := NextRevision(observed, replica, content).value;
    AdvanceIsLater(Knowledge(observed), replica);
    OwnCountersAreKnown(log, observed, replica, h);
    assert replica in next.clock && !Leq(next.clock, h.clock);
    PastIsCounted(log, observed, h);
    assert WellIssued(log, h);
    if Covered(h, Elements(observed)) {
      CoveredIsKnown(observed, h);
      LeqTransitive(h.clock, Knowledge(observed), next.clock);
    }
  }

  /** Exactly the observed heads give way to an edit; every unseen head stays beside it. */
  lemma EditKeepsUnseenHeads(log: Log, versions: set<Revision>, observed: Heads, replica: Device, content: Content)
    requires Closed(log) && versions <= log.Keys && Maximal(versions) == versions
    requires Known(log, observed) && KnowsOwn(log, replica, observed)
    requires NextRevision(observed, replica, content).Ok?
    ensures var next := NextRevision(observed, replica, content).value;
      && next !in versions
      && Maximal(versions + {next}) == {next} + set h | h in versions && !Covered(h, Elements(observed))
  {
    var next := NextRevision(observed, replica, content).value;
    forall h | h in versions
      ensures next != h && Compare(next.clock, h.clock) != Before
      ensures Compare(h.clock, next.clock) == Before <==> Covered(h, Elements(observed))
      ensures h in Maximal(versions)
    {
      SupersededIsObserved(log, observed, replica, content, h);
    }
    MaximalWithOne(versions, next);
  }

  lemma MaximalWithOne(versions: set<Revision>, next: Revision)
    requires Maximal(versions) == versions
    requires forall h :: h in versions ==> Compare(next.clock, h.clock) != Before
    ensures Maximal(versions + {next}) == {next} + set h | h in versions && Compare(h.clock, next.clock) != Before
  {
    assert Compare(next.clock, next.clock) == Equal;
    forall h | h in versions ensures h in Maximal(versions) {}
  }
}
