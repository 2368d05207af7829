/**
 What a device's heads take in, over any stretch of any run: what it issues and what it commits, and nothing is lost
 (src/share.rs:349-381, 463-560, 683-720).
 */
module Growth {
  import opened Results
  import opened Clocks
  import opened Ordering
  import opened Paths
  import opened Register
  import opened Lattice
  import opened Causality
  import opened Index
  import opened Effects
  import opened Network
  import opened CausalSafety
  import opened ExchangeSafety
  import opened Theorems

  // ---- Stretches of runs ----

  ghost predicate StepAt(c: Codec, states: seq<System>, steps: seq<Step>, k: nat)
    requires Faithful(c) && |states| == |steps| + 1 && k < |steps|
  {
    Next(c, states[k], steps[k], states[k + 1])
  }

  /** States linked by the steps taken between them, starting anywhere. */
  ghost predicate Chain(c: Codec, states: seq<System>, steps: seq<Step>)
    requires Faithful(c)
  {
    && |states| == |steps| + 1
    && (forall k {:trigger StepAt(c, states, steps, k)} :: 0 <= k < |steps| ==> StepAt(c, states, steps, k))
  }

  // ---- What a device issues on the way ----

  /** The revisions that a step adds to the history of `p`. */
  function NewAt(s: System, s': System, p: Path): set<Revision> {
    LogAt(s'.logs, p).Keys - LogAt(s.logs, p).Keys
  }

  /** The revisions that `d` issues at `p` between two states of a run. */
  function Issued(states: seq<System>, steps: seq<Step>, i: nat, j: nat, d: Peer, p: Path): set<Revision>
    requires |states| == |steps| + 1 && i <= j <= |steps|
    decreases j
  {
    if i == j then {}
    else Issued(states, steps, i, j - 1, d, p) + (if steps[j - 1].d == d then NewAt(states[j - 1], states[j], p) else {})
  }

  lemma ReachableNext(c: Codec, s: System, step: Step, s': System)
    requires Faithful(c) && Reachable(c, s) && Next(c, s, step, s')
    ensures Reachable(c, s')
  {
    var states, steps :| Run(c, states, steps) && states[|steps|] == s;
    assert Run(c, states + [s'], steps + [step]);
    assert (states + [s'])[|steps + [step]|] == s';
  }

  lemma {:induction false} ReachableAlong(c: Codec, states: seq<System>, steps: seq<Step>, j: nat)
    requires Faithful(c) && Chain(c, states, steps) && Reachable(c, states[0]) && j <= |steps|
    ensures Reachable(c, states[j])
    decreases j
  {
    if j > 0 {
      ReachableAlong(c, states, steps, j - 1);
      assert StepAt(c, states, steps, j - 1);
      ReachableNext(c, states[j - 1], steps[j - 1], states[j]);
    }
  }

  lemma StepKeepsLogs(c: Codec, s: System, step: Step, s': System, p: Path)
    requires Faithful(c) && Next(c, s, step, s')
    ensures LogAt(s.logs, p).Keys <= LogAt(s'.logs, p).Keys
  {
  }

  lemma RunStepKeepsLogs(c: Codec, states: seq<System>, steps: seq<Step>, k: nat, p: Path)
    requires Faithful(c) && Chain(c, states, steps) && k < |steps|
    ensures LogAt(states[k].logs, p).Keys <= LogAt(states[k + 1].logs, p).Keys
  {
    assert StepAt(c, states, steps, k);
    StepKeepsLogs(c, states[k], steps[k], states[k + 1], p);
  }

  /** Revisions stay in the history, and everything issued on the way is there. */
  lemma {:induction false} LogsKeep(c: Codec, states: seq<System>, steps: seq<Step>, i: nat, j: nat, d: Peer, p: Path)
    requires Faithful(c) && Chain(c, states, steps) && i <= j <= |steps|
    ensures LogAt(states[i].logs, p).Keys + Issued(states, steps, i, j, d, p) <= LogAt(states[j].logs, p).Keys
    decreases j
  {
    if i < j {
      LogsKeep(c, states, steps, i, j - 1, d, p);
      RunStepKeepsLogs(c, states, steps, j - 1, p);
    }
  }

  // ---- One step of a device on its own heads ----

  /** The heads after a step: above the old ones and the new revisions, and drawn from those and what was `received`. */
  ghost predicate Grows(v: Heads, issued: set<Revision>, received: set<Revision>, v': Heads) {
    Below(Elements(v) + issued, Elements(v')) && Elements(v') <= Elements(v) + issued + received
  }

  lemma SameGrows(v: Heads, received: set<Revision>)
    ensures Grows(v, {}, received, v)
  {
    BelowReflexive(Elements(v));
    assert Elements(v) + {} == Elements(v);
  }

  /** One revision issued at `p`. */
  lemma IssuedGrows(c: Codec, s: System, s': System, d: Peer, p: Path, base: Heads, content: Content, cause: Cause)
    requires Faithful(c) && d in s.nodes && d in s'.nodes && NextRevision(base, s.nodes[d].t.epoch, content).Ok?
    requires NextRevision(base, s.nodes[d].t.epoch, content).value !in LogAt(s.logs, p)
    requires s'.logs == LogIssue(s, d, p, base, content, cause)
    requires Elements(VersionsAt(s'.nodes[d].t, p)) ==
      Maximal(Elements(VersionsAt(s.nodes[d].t, p)) + {NextRevision(base, s.nodes[d].t.epoch, content).value})
    ensures Grows(VersionsAt(s.nodes[d].t, p), NewAt(s, s', p), {}, VersionsAt(s'.nodes[d].t, p))
  {
    var next := NextRevision(base, s.nodes[d].t.epoch, content).value;
    assert NewAt(s, s', p) == {next};
    MaximalCovers(Elements(VersionsAt(s.nodes[d].t, p)) + {next});
  }

  lemma ScanGrows(c: Codec, s: System, s': System, d: Peer, p: Path, found: Option<Content>, approve: bool)
    requires Faithful(c) && CausalInv(c, s) && ScanStep(c, s, s', d, p, found, approve)
    ensures Grows(VersionsAt(s.nodes[d].t, p), NewAt(s, s', p), {}, VersionsAt(s'.nodes[d].t, p))
  {
    ScanStepIsSound(c, s, s', d, p, found, approve);
    var decision := Decide(c, Captured(s.nodes[d].t, found), p, found, approve);
    if decision.Issue? {
      var base := ObservedAt(s.nodes[d].t, p);
      ObservedIsFresh(c, s, d, p, decision.content);
      IssuedGrows(c, s, s', d, p, base, decision.content, ScanCause(found, approve));
    } else {
      SameGrows(VersionsAt(s.nodes[d].t, p), {});
      assert NewAt(s, s', p) == {};
    }
  }

  lemma ApproveGrows(c: Codec, s: System, s': System, d: Peer, p: Path, expected: Heads)
    requires Faithful(c) && CausalInv(c, s) && ApproveStep(c, s, s', d, p, expected)
    ensures Grows(VersionsAt(s.nodes[d].t, p), NewAt(s, s', p), {}, VersionsAt(s'.nodes[d].t, p))
  {
    IssueEffect(c, s.nodes[d].t, p, Deleted, None);
    ObservedIsFresh(c, s, d, p, Deleted);
    IssuedGrows(c, s, s', d, p, ObservedAt(s.nodes[d].t, p), Deleted, ReviewedDeletion);
  }

  lemma ChooseGrows(c: Codec, s: System, s': System, d: Peer, p: Path, content: Content, actual: Option<Content>)
    requires Faithful(c) && CausalInv(c, s) && ChooseStep(c, s, s', d, p, content, actual)
    ensures Grows(VersionsAt(s.nodes[d].t, p), NewAt(s, s', p), {}, VersionsAt(s'.nodes[d].t, p))
  {
    var t := s.nodes[d].t;
    ChooseEffect(c, Captured(t, actual), p, content, actual);
    ChoiceIsFresh(c, s, d, p, content);
    assert NewAt(s, s', p) == {NextRevision(VersionsAt(t, p), t.epoch, content).value};
    ChoiceGrows(VersionsAt(t, p), t.epoch, content);
  }

  lemma ChoiceIsFresh(c: Codec, s: System, d: Peer, p: Path, content: Content)
    requires Faithful(c) && CausalInv(c, s) && d in s.nodes && p in s.nodes[d].t.rows
    requires NextRevision(VersionsAt(s.nodes[d].t, p), s.nodes[d].t.epoch, content).Ok?
    ensures NextRevision(VersionsAt(s.nodes[d].t, p), s.nodes[d].t.epoch, content).value !in LogAt(s.logs, p)
  {
    var t := s.nodes[d].t;
    assert NodeOk(c, s, d) && LogOk(s, p) && OwnAt(s.logs, t, p) && RowKnown(s.logs, t, p);
    OwnCarriesOver(LogAt(s.logs, p), t.epoch, t.rows[p].observed, t.rows[p].versions);
    NextIsNew(LogAt(s.logs, p), t.rows[p].versions, t.epoch, content);
  }

  lemma ChoiceGrows(heads: Heads, epoch: Epoch, content: Content)
    requires NextRevision(heads, epoch, content).Ok?
    ensures var next := NextRevision(heads, epoch, content).value; Grows(heads, {next}, {}, [next])
  {
    var next := NextRevision(heads, epoch, content).value;
    AdvanceIsLater(Knowledge(heads), epoch);
    assert Elements([next]) == {next};
    forall h | h in Elements(heads) + {next} ensures Covered(h, {next}) {
      if h in heads { KnowledgeIsLeast(heads, next.clock); }
      assert Leq(h.clock, next.clock);
    }
  }

  lemma ApplyGrows(c: Codec, s: System, s': System, d: Peer, p: Path)
    requires Faithful(c) && ApplyStep(c, s, s', d, p)
    ensures Grows(VersionsAt(s.nodes[d].t, p), NewAt(s, s', p), {}, VersionsAt(s'.nodes[d].t, p))
  {
    AcknowledgeMoves(c, s.nodes[d].t, p);
    SameGrows(VersionsAt(s.nodes[d].t, p), {});
    assert NewAt(s, s', p) == {};
  }

  lemma CommitGrows(c: Codec, s: System, s': System, d: Peer, p: Path)
    requires Faithful(c) && CommitStep(c, s, s', d, p)
    ensures Grows(VersionsAt(s.nodes[d].t, p), NewAt(s, s', p), Elements(IncomingAt(s.nodes[d].t, p)), VersionsAt(s'.nodes[d].t, p))
  {
    CommitMoves(c, s.nodes[d].t, p);
    assert NewAt(s, s', p) == {};
    assert Elements(VersionsAt(s.nodes[d].t, p)) + {} == Elements(VersionsAt(s.nodes[d].t, p));
  }

  /** What `d` receives into its heads at `p` by one step: the staged heads, if it commits them. */
  function ReceivedBy(s: System, step: Step, d: Peer, p: Path): set<Revision>
    requires d in s.nodes
  {
    if step == Commit(d, p) then Elements(IncomingAt(s.nodes[d].t, p)) else {}
  }

  function IssuedByStep(s: System, step: Step, s': System, d: Peer, p: Path): set<Revision> {
    if step.d == d then NewAt(s, s', p) else {}
  }

  lemma RowStepGrows(c: Codec, s: System, step: Step, s': System)
    requires Faithful(c) && CausalInv(c, s) && Next(c, s, step, s') && IsRowStep(step)
    ensures step.d in s.nodes && step.d in s'.nodes
    ensures Grows(VersionsAt(s.nodes[step.d].t, step.p), NewAt(s, s', step.p), ReceivedBy(s, step, step.d, step.p),
                  VersionsAt(s'.nodes[step.d].t, step.p))
  {
    match step {
      case Scan(d, p, found, approve) => ScanGrows(c, s, s', d, p, found, approve);
      case Approve(d, p, expected) => ApproveGrows(c, s, s', d, p, expected);
      case Resolving(d, p, content, actual) => ChooseGrows(c, s, s', d, p, content, actual);
      case Apply(d, p) => ApplyGrows(c, s, s', d, p);
      case Commit(d, p) => CommitGrows(c, s, s', d, p);
    }
  }

  lemma OtherLogsStay(c: Codec, s: System, step: Step, s': System, p: Path)
    requires Faithful(c) && Next(c, s, step, s') && IsRowStep(step) && step.p != p
    ensures NewAt(s, s', p) == {}
  {
    assert LogAt(s'.logs, p) == LogAt(s.logs, p);
  }

  /** The row at `p`, its heads and its number. */
  ghost predicate SameRow(t: Tables, t': Tables, p: Path) {
    && (p in t.rows <==> p in t'.rows)
    && (p in t.rows ==> t'.rows[p].versions == t.rows[p].versions && t'.rows[p].sequence == t.rows[p].sequence)
  }

  /** A row step leaves other paths alone. */
  lemma OtherPathsStay(c: Codec, s: System, step: Step, s': System, p: Path)
    requires Faithful(c) && Next(c, s, step, s') && IsRowStep(step) && step.p != p
    ensures step.d in s.nodes && step.d in s'.nodes
    ensures SameRow(s.nodes[step.d].t, s'.nodes[step.d].t, p) && NewAt(s, s', p) == {}
  {
    OtherLogsStay(c, s, step, s', p);
    RowStepMoves(c, s, step, s');
    RowOnlyKeepsOthers(s.nodes[step.d].t, s'.nodes[step.d].t, step.p, p);
  }

  lemma RowOnlyKeepsOthers(t: Tables, t': Tables, x: Path, p: Path)
    requires RowOnly(t, t', x) && x != p
    ensures SameRow(t, t', p)
  {
  }

  lemma OtherStepsKeepRows(c: Codec, s: System, step: Step, s': System)
    requires Faithful(c) && Next(c, s, step, s') && !IsRowStep(step) && !step.Create? && !step.Rollback?
    ensures step.d in s.nodes && step.d in s'.nodes
    ensures s'.nodes[step.d].t.rows == s.nodes[step.d].t.rows && s'.logs == s.logs
    ensures s'.nodes[step.d].t.epoch == s.nodes[step.d].t.epoch && s'.nodes[step.d].mode == s.nodes[step.d].mode
    ensures s'.nodes[step.d].t.sequence == s.nodes[step.d].t.sequence
  {
  }

  /** A step of another device leaves a device alone. */
  lemma OthersLeaveAlone(c: Codec, s: System, step: Step, s': System, d: Peer)
    requires Faithful(c) && Next(c, s, step, s') && d in s.nodes && step.d != d
    ensures d in s'.nodes && s'.nodes[d] == s.nodes[d]
  {
  }

  /** Unless it is rolled back, a device's heads only take in what it issues and what it commits. */
  lemma StepGrows(c: Codec, s: System, step: Step, s': System, d: Peer, p: Path)
    requires Faithful(c) && CausalInv(c, s) && Next(c, s, step, s') && d in s.nodes && !(step.Rollback? && step.d == d)
    ensures d in s'.nodes
    ensures Grows(VersionsAt(s.nodes[d].t, p), IssuedByStep(s, step, s', d, p), ReceivedBy(s, step, d, p),
                  VersionsAt(s'.nodes[d].t, p))
  {
    if step.d != d {
      OthersLeaveAlone(c, s, step, s', d);
      SameGrows(VersionsAt(s.nodes[d].t, p), {});
    } else if IsRowStep(step) {
      if step.p == p {
        RowStepGrows(c, s, step, s');
      } else {
        OtherPathsStay(c, s, step, s', p);
        SameGrows(VersionsAt(s.nodes[d].t, p), {});
      }
    } else {
      OtherStepsKeepRows(c, s, step, s');
      SameGrows(VersionsAt(s.nodes[d].t, p), {});
      assert NewAt(s, s', p) == {};
    }
  }

  /** Nothing a device held, and nothing it issued since, is ever lost from what it knows. */
  lemma {:induction false} RunGrows(c: Codec, states: seq<System>, steps: seq<Step>, i: nat, j: nat, d: Peer, p: Path)
    requires Faithful(c) && Chain(c, states, steps) && Reachable(c, states[0]) && i <= j <= |steps| && d in states[i].nodes
    requires forall k :: i <= k < j && steps[k].d == d ==> !steps[k].Rollback?
    ensures d in states[j].nodes
    ensures Below(Elements(VersionsAt(states[i].nodes[d].t, p)) + Issued(states, steps, i, j, d, p),
                  Elements(VersionsAt(states[j].nodes[d].t, p)))
    decreases j
  {
    var held := Elements(VersionsAt(states[i].nodes[d].t, p));
    if i == j {
      BelowReflexive(held);
      assert held + {} == held;
    } else {
      RunGrows(c, states, steps, i, j - 1, d, p);
      RunStepGrows(c, states, steps, j - 1, d, p);
      GrowsFurther(held + Issued(states, steps, i, j - 1, d, p), VersionsAt(states[j - 1].nodes[d].t, p),
                   IssuedByStep(states[j - 1], steps[j - 1], states[j], d, p), VersionsAt(states[j].nodes[d].t, p));
      assert held + Issued(states, steps, i, j, d, p)
        == held + Issued(states, steps, i, j - 1, d, p) + IssuedByStep(states[j - 1], steps[j - 1], states[j], d, p);
    }
  }

  lemma RunStepGrows(c: Codec, states: seq<System>, steps: seq<Step>, k: nat, d: Peer, p: Path)
    requires Faithful(c) && Chain(c, states, steps) && Reachable(c, states[0]) && k < |steps| && d in states[k].nodes
    requires steps[k].d == d ==> !steps[k].Rollback?
    ensures d in states[k + 1].nodes
    ensures Grows(VersionsAt(states[k].nodes[d].t, p), IssuedByStep(states[k], steps[k], states[k + 1], d, p),
                  ReceivedBy(states[k], steps[k], d, p), VersionsAt(states[k + 1].nodes[d].t, p))
  {
    assert StepAt(c, states, steps, k);
    ReachableAlong(c, states, steps, k);
    ReachableIsSafe(c, states[k]);
    StepGrows(c, states[k], steps[k], states[k + 1], d, p);
  }

  lemma GrowsFurther(u: set<Revision>, v: Heads, issued: set<Revision>, v': Heads)
    requires Below(u, Elements(v)) && Below(Elements(v) + issued, Elements(v'))
    ensures Below(u + issued, Elements(v'))
  {
    forall r | r in u + issued ensures Covered(r, Elements(v')) {
      if r in u {
        assert Covered(r, Elements(v));
        var h :| h in Elements(v) && Leq(r.clock, h.clock);
        assert Covered(h, Elements(v'));
        CoveredAbove(r, h, Elements(v'));
      } else {
        assert r in Elements(v) + issued;
      }
    }
  }

  lemma CoveredAbove(r: Revision, h: Revision, s: set<Revision>)
    requires Leq(r.clock, h.clock) && Covered(h, s)
    ensures Covered(r, s)
  {
    var k :| k in s && Leq(h.clock, k.clock);
    LeqTransitive(r.clock, h.clock, k.clock);
  }

  /** Well-formed heads drawn from issued revisions and above all of them are their maximal ones. */
  lemma HeadsAreMaximal(c: Codec, log: Log, v: Heads, u: set<Revision>)
    requires Faithful(c) && Closed(log) && Normal(c, v) && u <= log.Keys
    requires Elements(v) <= u && Below(u, Elements(v))
    ensures Elements(v) == Maximal(u)
  {
    NormalForm(c, v);
    IssuedRevisionsAreConsistent(log, u);
    forall x | x in u ensures Defect(x).None? { assert WellIssued(log, x); }
    assert Elements(v) + u == u;
    MaximalAbsorbed(Elements(v), u);
  }

  /** Heads that hold the maximal revisions of two version sets are their join. */
  lemma MaximalIsJoin(c: Codec, a: Heads, b: Heads, v: Heads)
    requires Faithful(c) && Normal(c, a) && Normal(c, b) && Normal(c, v) && Consistent(Elements(a) + Elements(b))
    requires Elements(v) == Maximal(Elements(a) + Elements(b))
    ensures Joined(c, a, b) == Ok(v)
  {
    JoinSucceedsUnlessTooLarge(c, a, b);
    NormalForm(c, v);
    ByIdIsStrictTotal(c);
    AscendingIsListing(ById(c), v);
  }
}
