/**
 Whole sessions as runs of the network: what the peers hold when both have committed, whatever they did on their own
 in the meantime and after however many attempts (src/sync.rs:171-236).
 */
module Sessions {
  import opened Results
  import opened Clocks
  import opened Ordering
  import opened Paths
  import opened Register
  import opened Lattice
  import opened Causality
  import opened Index
  import opened Effects
  import opened Network
  import opened CausalSafety
  import opened ExchangeSafety
  import opened Theorems
  import opened Growth

  // ---- The shape of a session ----

  /** What a device does on its own, at any time: scans, reviews, choices, applications, checkpoints. */
  predicate IsLocal(step: Step) {
    step.Scan? || step.Approve? || step.Resolving? || step.Apply? || step.Checkpoint?
  }

  /** Metadata and objects travel. */
  predicate IsTransfer(step: Step) {
    step.Send? || step.Stage? || step.End? || step.Pull?
  }

  /** The commit transaction, path by path, and the cursor. */
  predicate IsConclusion(step: Step) {
    step.Pull? || step.Commit? || step.CommitDone? || step.SetCursor?
  }

  /**
   One direction of a session: `d` says hello to `q` at step `b`, and rows travel from `q` to `d` before step `m`;
   from then on `d` commits. Before `m` the sender commits nothing. Both may scan, review, choose and apply at any
   time; after `m` the sender, and at any time every other device, may do anything.
   */
  ghost predicate OneWay(c: Codec, states: seq<System>, steps: seq<Step>, b: nat, m: nat, d: Peer, q: Peer)
    requires Faithful(c)
  {
    && Chain(c, states, steps) && b < m <= |steps| && steps[b] == Begin(d, q)
    && (forall k :: 0 <= k < m && steps[k].d == q ==> IsLocal(steps[k]) || IsTransfer(steps[k]) || steps[k].Begin?)
    && (forall k :: 0 <= k < m && k != b && steps[k].d == d ==> IsLocal(steps[k]) || (b < k && IsTransfer(steps[k])))
    && (forall k :: m <= k < |steps| && steps[k].d == d ==> IsLocal(steps[k]) || IsConclusion(steps[k]))
  }

  /**
   One session of `d` and `q`: both hellos, then both transfers, then both commits (the order that `session`
   enforces by waiting for the other side's metadata and objects), and at any time whatever the peers do on their own.
   */
  ghost predicate SessionRun(c: Codec, states: seq<System>, steps: seq<Step>, h: nat, m: nat, d: Peer, q: Peer)
    requires Faithful(c)
  {
    && Chain(c, states, steps) && 0 < h < m <= |steps|
    && steps[0] == Begin(d, q) && steps[h] == Begin(q, d)
    && (forall k :: 0 < k < m && k != h && steps[k].d in {d, q} ==> IsLocal(steps[k]) || (h < k && IsTransfer(steps[k])))
    && (forall k :: m <= k < |steps| && steps[k].d in {d, q} ==> IsLocal(steps[k]) || IsConclusion(steps[k]))
  }

  /** The receiver has committed. */
  predicate Finished(s: System, d: Peer) {
    d in s.nodes && (s.nodes[d].session.Some? ==> s.nodes[d].session.value.committed)
  }

  // ---- What arrives ----

  ghost predicate WireWithin(wire: seq<Record>, p: Path, u: set<Revision>) {
    forall r, h :: r in wire && r.path == p && h in r.versions ==> h in u
  }

  /** Whatever the session of `n` with `q` has staged or under way at `p` is among `u`. */
  ghost predicate Arriving(n: Node, q: Peer, p: Path, u: set<Revision>) {
    n.session.Some? ==>
      && n.session.value.peer == q
      && Elements(IncomingAt(n.t, p)) <= u
      && WireWithin(n.session.value.wire, p, u)
  }

  lemma ArrivingMore(n: Node, q: Peer, p: Path, u: set<Revision>, more: set<Revision>)
    requires Arriving(n, q, p, u) && u <= more
    ensures Arriving(n, q, p, more)
  {
  }

  lemma SendArrives(s: System, s': System, d: Peer, q: Peer, x: Path, p: Path, u: set<Revision>)
    requires SendStep(s, s', d, x) && q in s.nodes && Arriving(s.nodes[d], q, p, u)
    requires Elements(VersionsAt(s.nodes[q].t, p)) <= u
    ensures Arriving(s'.nodes[d], q, p, u)
  {
    var wire, wire' := s.nodes[d].session.value.wire, s'.nodes[d].session.value.wire;
    forall r, h | r in wire' && r.path == p && h in r.versions ensures h in u {
      if r !in wire { assert h in Elements(VersionsAt(s.nodes[q].t, p)); }
    }
  }

  lemma StageArrives(c: Codec, s: System, s': System, d: Peer, q: Peer, p: Path, u: set<Revision>)
    requires Faithful(c) && StageStep(c, s, s', d) && Arriving(s.nodes[d], q, p, u)
    ensures Arriving(s'.nodes[d], q, p, u)
  {
    var t, t', wire := s.nodes[d].t, s'.nodes[d].t, s.nodes[d].session.value.wire;
    var record := wire[0];
    assert record in wire;
    if record.path == p {
      JoinInventsNothing(c, [], record.versions);
      forall h | h in Elements(IncomingAt(t', p)) ensures h in u {
        assert h in Elements([]) + Elements(record.versions);
        assert h in record.versions;
      }
    } else {
      assert IncomingAt(t', p) == IncomingAt(t, p);
    }
    forall r | r in wire[1..] ensures r in wire {}
  }

  /** Steps that put nothing on the wire and stage nothing. */
  predicate BringsNothing(step: Step) {
    !step.Send? && !step.Stage? && !step.Begin? && !step.Rollback? && !step.Create?
  }

  lemma NothingArrives(c: Codec, s: System, step: Step, s': System)
    requires Faithful(c) && Next(c, s, step, s') && BringsNothing(step)
    ensures step.d in s.nodes && step.d in s'.nodes
    ensures var n, n' := s.nodes[step.d], s'.nodes[step.d];
      && (n'.t.incoming == n.t.incoming || n'.t.incoming == map[])
      && (n'.session.Some? ==>
            && n.session.Some? && n'.session.value.peer == n.session.value.peer
            && n'.session.value.wire == n.session.value.wire)
  {
    if IsRowStep(step) { RowStepMoves(c, s, step, s'); }
  }

  /** What arrives at `d` is what its peer holds when it sends. */
  lemma StepArrives(c: Codec, s: System, step: Step, s': System, d: Peer, q: Peer, p: Path, u: set<Revision>)
    requires Faithful(c) && Next(c, s, step, s') && d in s.nodes && q in s.nodes && Arriving(s.nodes[d], q, p, u)
    requires step.d == d ==> !step.Rollback? && (step.Begin? ==> step.from == q)
    requires step.d == d && step.Send? ==> Elements(VersionsAt(s.nodes[q].t, p)) <= u
    ensures d in s'.nodes && Arriving(s'.nodes[d], q, p, u)
  {
    if step.d != d {
      OthersLeaveAlone(c, s, step, s', d);
    } else if step.Send? {
      SendArrives(s, s', d, q, step.p, p, u);
    } else if step.Stage? {
      StageArrives(c, s, s', d, q, p, u);
    } else if BringsNothing(step) {
      NothingArrives(c, s, step, s');
    }
  }

  // ---- One direction of a session ----

  ghost predicate InSession(s: System, d: Peer, q: Peer) {
    && d in s.nodes && q in s.nodes && s.nodes[d].session.Some?
    && s.nodes[d].session.value.peer == q && s.nodes[d].session.value.epoch == s.nodes[q].t.epoch
    && !s.nodes[d].session.value.committed
  }

  /** The sender's row at `p`, still to be sent, is numbered within what its hello announced. */
  ghost predicate Announced(s: System, d: Peer, q: Peer, p: Path)
    requires InSession(s, d, q)
  {
    p in s.nodes[q].t.rows ==> s.nodes[q].t.rows[p].sequence <= s.nodes[d].session.value.ceiling
  }

  /** A device that issues nothing at `p` and commits nothing keeps its row and the row's number. */
  lemma StepKeepsRow(c: Codec, s: System, step: Step, s': System, p: Path)
    requires Faithful(c) && CausalInv(c, s) && Next(c, s, step, s') && IsLeading(step)
    ensures step.d in s.nodes && step.d in s'.nodes
    ensures NewAt(s, s', p) == {} ==> SameRow(s.nodes[step.d].t, s'.nodes[step.d].t, p)
  {
    if !IsRowStep(step) {
      OtherStepsKeepRows(c, s, step, s');
    } else if step.p != p {
      OtherPathsStay(c, s, step, s', p);
    } else {
      RowStepKeepsRow(c, s, step, s');
    }
  }

  lemma RowStepKeepsRow(c: Codec, s: System, step: Step, s': System)
    requires Faithful(c) && CausalInv(c, s) && Next(c, s, step, s') && IsRowStep(step) && IsLocal(step)
    ensures step.d in s.nodes && step.d in s'.nodes
    ensures NewAt(s, s', step.p) == {} ==> SameRow(s.nodes[step.d].t, s'.nodes[step.d].t, step.p)
  {
    match step {
      case Scan(d, p, found, approve) => ScanKeepsRow(c, s, s', d, p, found, approve);
      case Approve(d, p, _) =>
        ObservedIsFresh(c, s, d, p, Deleted);
        assert NextRevision(ObservedAt(s.nodes[d].t, p), s.nodes[d].t.epoch, Deleted).value in NewAt(s, s', p);
      case Resolving(d, p, content, actual) =>
        ChoiceIsFresh(c, s, d, p, content);
        assert NextRevision(VersionsAt(s.nodes[d].t, p), s.nodes[d].t.epoch, content).value in NewAt(s, s', p);
      case Apply(_, _) =>
    }
  }

  lemma ScanKeepsRow(c: Codec, s: System, s': System, d: Peer, p: Path, found: Option<Content>, approve: bool)
    requires Faithful(c) && CausalInv(c, s) && ScanStep(c, s, s', d, p, found, approve)
    ensures NewAt(s, s', p) == {} ==> SameRow(s.nodes[d].t, s'.nodes[d].t, p)
  {
    var decision := Decide(c, Captured(s.nodes[d].t, found), p, found, approve);
    if decision.Issue? {
      ObservedIsFresh(c, s, d, p, decision.content);
      assert NextRevision(ObservedAt(s.nodes[d].t, p), s.nodes[d].t.epoch, decision.content).value in NewAt(s, s', p);
    }
  }

  /** Steps before the commits. */
  predicate IsLeading(step: Step) {
    IsLocal(step) || IsTransfer(step) || step.Begin?
  }

  /** What a leading step leaves of its device. */
  lemma LeadingStepKeeps(c: Codec, s: System, step: Step, s': System)
    requires Faithful(c) && Next(c, s, step, s') && IsLeading(step)
    ensures step.d in s.nodes && step.d in s'.nodes
    ensures s'.nodes[step.d].mode == s.nodes[step.d].mode && s'.nodes[step.d].t.epoch == s.nodes[step.d].t.epoch
  {
    if IsRowStep(step) { RowStepMoves(c, s, step, s'); } else { OtherStepsKeepRows(c, s, step, s'); }
  }

  lemma LeadingStepKeepsSession(c: Codec, s: System, step: Step, s': System)
    requires Faithful(c) && Next(c, s, step, s') && IsLeading(step) && !step.Begin? && step.d in s.nodes
    requires s.nodes[step.d].session.Some?
    ensures step.d in s'.nodes && s'.nodes[step.d].session.Some?
    ensures var session, session' := s.nodes[step.d].session.value, s'.nodes[step.d].session.value;
      && session'.peer == session.peer && session'.epoch == session.epoch && session'.ceiling == session.ceiling
      && session'.committed == session.committed
  {
    if IsRowStep(step) { RowStepMoves(c, s, step, s'); }
  }

  /** Before the commits, a device holds what it held in `s0` and what it has issued since, nothing else. */
  ghost predicate Holds(s0: System, s: System, d: Peer, p: Path, own: set<Revision>)
    requires d in s0.nodes
  {
    && d in s.nodes && s.nodes[d].mode == s0.nodes[d].mode
    && Elements(VersionsAt(s.nodes[d].t, p)) <= Elements(VersionsAt(s0.nodes[d].t, p)) + own
    && (own == {} ==> SameRow(s0.nodes[d].t, s.nodes[d].t, p))
  }

  lemma StepHolds(c: Codec, s0: System, s: System, step: Step, s': System, d: Peer, p: Path, own: set<Revision>)
    requires Faithful(c) && CausalInv(c, s) && Next(c, s, step, s') && (step.d == d ==> IsLeading(step))
    requires d in s0.nodes && Holds(s0, s, d, p, own)
    ensures Holds(s0, s', d, p, own + IssuedByStep(s, step, s', d, p))
  {
    if step.d == d {
      StepGrows(c, s, step, s', d, p);
      LeadingStepKeeps(c, s, step, s');
      StepKeepsRow(c, s, step, s', p);
    } else {
      OthersLeaveAlone(c, s, step, s', d);
    }
  }

  /** `d` is receiving from `q`: what arrives at `p` is what `q` holds or has issued. */
  ghost predicate Gathering(s0: System, s: System, d: Peer, q: Peer, p: Path, theirs: set<Revision>)
    requires q in s0.nodes
  {
    && InSession(s, d, q)
    && Arriving(s.nodes[d], q, p, Elements(VersionsAt(s0.nodes[q].t, p)) + theirs)
    && (theirs == {} ==> Announced(s, d, q, p))
  }

  lemma HelloGathers(c: Codec, s0: System, s: System, s': System, d: Peer, q: Peer, p: Path, theirs: set<Revision>)
    requires Faithful(c) && CausalInv(c, s) && Next(c, s, Begin(d, q), s') && q in s0.nodes
    ensures Gathering(s0, s', d, q, p, theirs)
  {
    assert NodeOk(c, s, q);
    if p in s.nodes[q].t.rows { assert RowSound(c, s.nodes[q].t, p); }
  }

  lemma StepGathers(c: Codec, s0: System, s: System, step: Step, s': System, d: Peer, q: Peer, p: Path, theirs: set<Revision>)
    requires Faithful(c) && CausalInv(c, s) && Next(c, s, step, s') && (step.d in {d, q} ==> IsLeading(step))
    requires (step.d == d ==> !step.Begin?) && d != q
    requires q in s0.nodes && Holds(s0, s, q, p, theirs) && Gathering(s0, s, d, q, p, theirs)
    ensures Gathering(s0, s', d, q, p, theirs + IssuedByStep(s, step, s', q, p))
  {
    var u := Elements(VersionsAt(s0.nodes[q].t, p)) + theirs;
    var theirs' := theirs + IssuedByStep(s, step, s', q, p);
    StepArrives(c, s, step, s', d, q, p, u);
    ArrivingMore(s'.nodes[d], q, p, u, Elements(VersionsAt(s0.nodes[q].t, p)) + theirs');
    if step.d == d { LeadingStepKeepsSession(c, s, step, s'); } else { OthersLeaveAlone(c, s, step, s', d); }
    if step.d == q {
      LeadingStepKeeps(c, s, step, s');
      StepKeepsRow(c, s, step, s', p);
    } else {
      OthersLeaveAlone(c, s, step, s', q);
    }
  }

  lemma HoldsAtFirst(s: System, d: Peer, p: Path)
    requires d in s.nodes
    ensures Holds(s, s, d, p, {})
  {
  }

  lemma LeadOne(c: Codec, states: seq<System>, steps: seq<Step>, k: nat, d: Peer, p: Path, own: set<Revision>)
    requires Faithful(c) && Chain(c, states, steps) && Reachable(c, states[0]) && k < |steps|
    requires steps[k].d == d ==> IsLeading(steps[k])
    requires d in states[0].nodes && Holds(states[0], states[k], d, p, own)
    ensures Holds(states[0], states[k + 1], d, p, own + IssuedByStep(states[k], steps[k], states[k + 1], d, p))
  {
    assert StepAt(c, states, steps, k);
    ReachableAlong(c, states, steps, k);
    ReachableIsSafe(c, states[k]);
    StepHolds(c, states[0], states[k], steps[k], states[k + 1], d, p, own);
  }

  lemma {:induction false} Leads(c: Codec, states: seq<System>, steps: seq<Step>, k: nat, d: Peer, p: Path)
    requires Faithful(c) && Chain(c, states, steps) && Reachable(c, states[0]) && k <= |steps| && d in states[0].nodes
    requires forall j :: 0 <= j < k && steps[j].d == d ==> IsLeading(steps[j])
    ensures Holds(states[0], states[k], d, p, Issued(states, steps, 0, k, d, p))
    decreases k
  {
    if k == 0 {
      HoldsAtFirst(states[0], d, p);
    } else {
      Leads(c, states, steps, k - 1, d, p);
      var own := Issued(states, steps, 0, k - 1, d, p);
      LeadOne(c, states, steps, k - 1, d, p, own);
      assert Issued(states, steps, 0, k, d, p) == own + IssuedByStep(states[k - 1], steps[k - 1], states[k], d, p);
    }
  }

  lemma GatherOne(c: Codec, states: seq<System>, steps: seq<Step>, k: nat, d: Peer, q: Peer, p: Path, theirs: set<Revision>)
    requires Faithful(c) && Chain(c, states, steps) && Reachable(c, states[0]) && k < |steps| && d != q
    requires steps[k].d in {d, q} ==> IsLeading(steps[k])
    requires steps[k].d == d ==> !steps[k].Begin?
    requires q in states[0].nodes && Holds(states[0], states[k], q, p, theirs) && Gathering(states[0], states[k], d, q, p, theirs)
    ensures Gathering(states[0], states[k + 1], d, q, p, theirs + IssuedByStep(states[k], steps[k], states[k + 1], q, p))
  {
    assert StepAt(c, states, steps, k);
    ReachableAlong(c, states, steps, k);
    ReachableIsSafe(c, states[k]);
    StepGathers(c, states[0], states[k], steps[k], states[k + 1], d, q, p, theirs);
  }

  lemma HelloAt(c: Codec, states: seq<System>, steps: seq<Step>, b: nat, d: Peer, q: Peer, p: Path, theirs: set<Revision>)
    requires Faithful(c) && Chain(c, states, steps) && Reachable(c, states[0]) && b < |steps| && steps[b] == Begin(d, q)
    requires q in states[0].nodes
    ensures d != q && Gathering(states[0], states[b + 1], d, q, p, theirs)
  {
    assert StepAt(c, states, steps, b);
    ReachableAlong(c, states, steps, b);
    ReachableIsSafe(c, states[b]);
    HelloGathers(c, states[0], states[b], states[b + 1], d, q, p, theirs);
  }

  /** Between the hello and the commits. */
  lemma {:induction false} Gathers(c: Codec, states: seq<System>, steps: seq<Step>, b: nat, m: nat, k: nat, d: Peer, q: Peer, p: Path)
    requires Faithful(c) && OneWay(c, states, steps, b, m, d, q) && Reachable(c, states[0]) && b < k <= m
    requires q in states[0].nodes
    ensures d != q && Gathering(states[0], states[k], d, q, p, Issued(states, steps, 0, k, q, p))
    decreases k
  {
    if k == b + 1 {
      HelloAt(c, states, steps, b, d, q, p, Issued(states, steps, 0, k, q, p));
    } else {
      Gathers(c, states, steps, b, m, k - 1, d, q, p);
      Leads(c, states, steps, k - 1, q, p);
      var theirs := Issued(states, steps, 0, k - 1, q, p);
      GatherOne(c, states, steps, k - 1, d, q, p, theirs);
      assert Issued(states, steps, 0, k, q, p) == theirs + IssuedByStep(states[k - 1], steps[k - 1], states[k], q, p);
    }
  }

  // ---- The commits ----

  /** `v` is covered by what `d` holds at `p` or has staged there. */
  ghost predicate Staged(t: Tables, p: Path, v: set<Revision>) {
    Below(v, Elements(VersionsAt(t, p)) + Elements(IncomingAt(t, p)))
  }

  /** When the sender has nothing left to send, its row has arrived. */
  lemma EndedIsStaged(c: Codec, s: System, d: Peer, q: Peer, p: Path)
    requires Faithful(c) && ExchangeInv(s) && InSession(s, d, q) && Announced(s, d, q, p)
    requires Flows(s.nodes[q].mode, s.nodes[d].mode) && s.nodes[d].session.value.ended
    ensures Staged(s.nodes[d].t, p, Elements(VersionsAt(s.nodes[q].t, p)))
  {
    var t, sender, session := s.nodes[d].t, s.nodes[q].t, s.nodes[d].session.value;
    assert SessionOk(s, d);
    if p in sender.rows {
      assert !Sendable(sender, session, p);
      forall h | h in Elements(VersionsAt(sender, p))
        ensures Covered(h, Elements(VersionsAt(t, p)) + Elements(IncomingAt(t, p)))
      {
        assert Reached(t, session.wire, p, h);
      }
    }
  }

  /**
   From the end of the transfer on: `d` holds at most `all`, of which `arrived` came from the sender; once it has
   committed, it holds all that the sender held, `v`.
   */
  ghost predicate Concluding(n: Node, q: Peer, p: Path, all: set<Revision>, arrived: set<Revision>, v: set<Revision>) {
    && n.mode != SendOnly
    && Elements(VersionsAt(n.t, p)) <= all && Arriving(n, q, p, arrived)
    && (n.session.Some? && !n.session.value.committed && n.session.value.ended ==> Staged(n.t, p, v))
    && (n.session.None? || n.session.value.committed ==> Below(v, Elements(VersionsAt(n.t, p))))
  }

  /** Steps once the commits have begun. */
  predicate IsTrailing(step: Step) {
    IsLocal(step) || IsConclusion(step)
  }

  lemma TrailingRowStep(c: Codec, s: System, step: Step, s': System, q: Peer, p: Path,
                        all: set<Revision>, arrived: set<Revision>, v: set<Revision>)
    requires Faithful(c) && CausalInv(c, s) && Next(c, s, step, s') && IsRowStep(step) && step.d in s.nodes
    requires Concluding(s.nodes[step.d], q, p, all, arrived, v) && arrived <= all
    ensures step.d in s'.nodes && Concluding(s'.nodes[step.d], q, p, all + IssuedByStep(s, step, s', step.d, p), arrived, v)
  {
    var n, n' := s.nodes[step.d], s'.nodes[step.d];
    RowStepMoves(c, s, step, s');
    StepGrows(c, s, step, s', step.d, p);
    assert IncomingAt(n'.t, p) == IncomingAt(n.t, p);
    RisingKeepsStaged(n.t, n'.t, p, v);
    if step == Commit(step.d, p) { assert n.session.Some?; }
  }

  lemma RisingKeepsStaged(t: Tables, t': Tables, p: Path, v: set<Revision>)
    requires Below(Elements(VersionsAt(t, p)), Elements(VersionsAt(t', p))) && IncomingAt(t', p) == IncomingAt(t, p)
    ensures Staged(t, p, v) ==> Staged(t', p, v)
    ensures Below(v, Elements(VersionsAt(t, p))) ==> Below(v, Elements(VersionsAt(t', p)))
  {
    if Staged(t, p, v) { BelowBeside(v, Elements(VersionsAt(t, p)), Elements(VersionsAt(t', p)), Elements(IncomingAt(t, p))); }
    if Below(v, Elements(VersionsAt(t, p))) { BelowTransitive(v, Elements(VersionsAt(t, p)), Elements(VersionsAt(t', p))); }
  }

  lemma BelowBeside(v: set<Revision>, x: set<Revision>, x': set<Revision>, y: set<Revision>)
    requires Below(v, x + y) && Below(x, x')
    ensures Below(v, x' + y)
  {
    BelowReflexive(y);
    forall r | r in v ensures Covered(r, x' + y) {
      assert Covered(r, x + y);
      var h :| h in x + y && Leq(r.clock, h.clock);
      if h in x {
        assert Covered(h, x');
        CoveredAbove(r, h, x');
        var k :| k in x' && Leq(r.clock, k.clock);
        assert k in x' + y;
      }
    }
  }

  lemma TrailingOtherStep(c: Codec, s: System, step: Step, s': System, q: Peer, p: Path,
                          all: set<Revision>, arrived: set<Revision>, v: set<Revision>)
    requires Faithful(c) && Next(c, s, step, s') && IsTrailing(step) && !IsRowStep(step) && step.d in s.nodes
    requires Concluding(s.nodes[step.d], q, p, all, arrived, v)
    ensures step.d in s'.nodes && Concluding(s'.nodes[step.d], q, p, all, arrived, v)
  {
    var n, n' := s.nodes[step.d], s'.nodes[step.d];
    OtherStepsKeepRows(c, s, step, s');
    NothingArrives(c, s, step, s');
    assert VersionsAt(n'.t, p) == VersionsAt(n.t, p);
    if step.CommitDone? { CommittedIsCovered(s, s', step.d, p, v); }
  }

  /** The transaction ends only when everything staged is covered. */
  lemma CommittedIsCovered(s: System, s': System, d: Peer, p: Path, v: set<Revision>)
    requires CommitDoneStep(s, s', d) && s.nodes[d].mode != SendOnly && Staged(s.nodes[d].t, p, v)
    ensures Below(v, Elements(VersionsAt(s.nodes[d].t, p)))
  {
    var t := s.nodes[d].t;
    var x, y := Elements(VersionsAt(t, p)), Elements(IncomingAt(t, p));
    BelowReflexive(x);
    assert Below(y, x);
    assert Below(x + y, x);
    BelowTransitive(v, x + y, x);
  }

  lemma TrailOne(c: Codec, states: seq<System>, steps: seq<Step>, k: nat, d: Peer, q: Peer, p: Path,
                 all: set<Revision>, arrived: set<Revision>, v: set<Revision>)
    requires Faithful(c) && Chain(c, states, steps) && Reachable(c, states[0]) && k < |steps| && d in states[k].nodes
    requires steps[k].d == d ==> IsTrailing(steps[k])
    requires Concluding(states[k].nodes[d], q, p, all, arrived, v) && arrived <= all
    ensures d in states[k + 1].nodes
    ensures Concluding(states[k + 1].nodes[d], q, p, all + IssuedByStep(states[k], steps[k], states[k + 1], d, p), arrived, v)
  {
    var s, step, s' := states[k], steps[k], states[k + 1];
    assert StepAt(c, states, steps, k);
    if step.d != d {
      OthersLeaveAlone(c, s, step, s', d);
    } else if IsRowStep(step) {
      ReachableAlong(c, states, steps, k);
      ReachableIsSafe(c, s);
      TrailingRowStep(c, s, step, s', q, p, all, arrived, v);
    } else {
      TrailingOtherStep(c, s, step, s', q, p, all, arrived, v);
      OtherStepsKeepRows(c, s, step, s');
    }
  }

  lemma {:induction false} Trails(c: Codec, states: seq<System>, steps: seq<Step>, m: nat, k: nat, d: Peer, q: Peer, p: Path,
                                  all: set<Revision>, arrived: set<Revision>, v: set<Revision>)
    requires Faithful(c) && Chain(c, states, steps) && Reachable(c, states[0]) && m <= k <= |steps| && d in states[m].nodes
    requires forall j :: m <= j < |steps| && steps[j].d == d ==> IsTrailing(steps[j])
    requires Concluding(states[m].nodes[d], q, p, all, arrived, v) && arrived <= all
    ensures d in states[k].nodes
    ensures Concluding(states[k].nodes[d], q, p, all + Issued(states, steps, m, k, d, p), arrived, v)
    decreases k
  {
    if k == m {
      assert all + {} == all;
    } else {
      Trails(c, states, steps, m, k - 1, d, q, p, all, arrived, v);
      TrailOne(c, states, steps, k - 1, d, q, p, all + Issued(states, steps, m, k - 1, d, p), arrived, v);
      assert all + Issued(states, steps, m, k, d, p)
        == all + Issued(states, steps, m, k - 1, d, p) + IssuedByStep(states[k - 1], steps[k - 1], states[k], d, p);
    }
  }

  lemma {:induction false} IssuedSplits(states: seq<System>, steps: seq<Step>, i: nat, m: nat, j: nat, d: Peer, p: Path)
    requires |states| == |steps| + 1 && i <= m <= j <= |steps|
    ensures Issued(states, steps, i, j, d, p) == Issued(states, steps, i, m, d, p) + Issued(states, steps, m, j, d, p)
    decreases j
  {
    if m < j { IssuedSplits(states, steps, i, m, j - 1, d, p); }
  }

  // ---- The theorems ----

  /** What two peers held at `p` and what `d` has issued there since. */
  function Gathered(states: seq<System>, steps: seq<Step>, j: nat, d: Peer, q: Peer, p: Path): set<Revision>
    requires |states| == |steps| + 1 && j <= |steps| && d in states[0].nodes && q in states[0].nodes
  {
    Elements(VersionsAt(states[0].nodes[d].t, p)) + Elements(VersionsAt(states[0].nodes[q].t, p)) + Issued(states, steps, 0, j, d, p)
  }

  /** The end of the transfer. */
  lemma Arrived(c: Codec, states: seq<System>, steps: seq<Step>, b: nat, m: nat, d: Peer, q: Peer, p: Path)
    requires Faithful(c) && OneWay(c, states, steps, b, m, d, q) && Reachable(c, states[0])
    requires d in states[0].nodes && q in states[0].nodes && Flows(states[0].nodes[q].mode, states[0].nodes[d].mode)
    ensures d in states[m].nodes
    ensures var theirs := Issued(states, steps, 0, m, q, p);
      var arrived := Elements(VersionsAt(states[0].nodes[q].t, p)) + theirs;
      Concluding(states[m].nodes[d], q, p, Gathered(states, steps, m, d, q, p) + theirs, arrived,
                 if theirs == {} then Elements(VersionsAt(states[0].nodes[q].t, p)) else {})
  {
    Gathers(c, states, steps, b, m, m, d, q, p);
    Leads(c, states, steps, m, d, p);
    Leads(c, states, steps, m, q, p);
    ReachableAlong(c, states, steps, m);
    ReachableIsSafe(c, states[m]);
    var session := states[m].nodes[d].session.value;
    if session.ended && Issued(states, steps, 0, m, q, p) == {} {
      EndedIsStaged(c, states[m], d, q, p);
    }
  }

  /** What the commits add: nothing but what arrived and what the receiver issued, and all of what was staged. */
  lemma Bounded(c: Codec, states: seq<System>, steps: seq<Step>, b: nat, m: nat, d: Peer, q: Peer, p: Path)
    requires Faithful(c) && OneWay(c, states, steps, b, m, d, q) && Reachable(c, states[0])
    requires d in states[0].nodes && q in states[0].nodes && Flows(states[0].nodes[q].mode, states[0].nodes[d].mode)
    requires Finished(states[|steps|], d)
    ensures var theirs := Issued(states, steps, 0, m, q, p);
      var heads := Elements(VersionsAt(states[|steps|].nodes[d].t, p));
      && heads <= Gathered(states, steps, |steps|, d, q, p) + theirs
      && (theirs == {} ==> Below(Elements(VersionsAt(states[0].nodes[q].t, p)), heads))
  {
    var n := |steps|;
    var theirs := Issued(states, steps, 0, m, q, p);
    var vb := Elements(VersionsAt(states[0].nodes[q].t, p));
    var all := Gathered(states, steps, m, d, q, p) + theirs;
    Arrived(c, states, steps, b, m, d, q, p);
    Trails(c, states, steps, m, n, d, q, p, all, vb + theirs, if theirs == {} then vb else {});
    IssuedSplits(states, steps, 0, m, n, d, p);
    assert all + Issued(states, steps, m, n, d, p) == Gathered(states, steps, n, d, q, p) + theirs;
  }

  /**
   One direction of a session, as it runs. Whatever both peers do on their own meanwhile, the receiver ends with
   nothing but what it held, what it issued, and what the sender held or issued before the commit; it loses nothing of
   its own; and where the sender issued nothing before the commit, it ends with exactly the maximal revisions of what
   both held and what it issued itself.
   */
  lemma SessionGathers(c: Codec, states: seq<System>, steps: seq<Step>, b: nat, m: nat, d: Peer, q: Peer, p: Path)
    requires Faithful(c) && OneWay(c, states, steps, b, m, d, q) && Reachable(c, states[0])
    requires d in states[0].nodes && q in states[0].nodes && Flows(states[0].nodes[q].mode, states[0].nodes[d].mode)
    requires Finished(states[|steps|], d)
    ensures d in states[|steps|].nodes
    ensures var theirs := Issued(states, steps, 0, m, q, p);
      var heads := Elements(VersionsAt(states[|steps|].nodes[d].t, p));
      && heads <= Gathered(states, steps, |steps|, d, q, p) + theirs
      && Below(Elements(VersionsAt(states[0].nodes[d].t, p)) + Issued(states, steps, 0, |steps|, d, p), heads)
      && (theirs == {} ==> heads == Maximal(Gathered(states, steps, |steps|, d, q, p)))
  {
    Bounded(c, states, steps, b, m, d, q, p);
    RunGrows(c, states, steps, 0, |steps|, d, p);
    if Issued(states, steps, 0, m, q, p) == {} {
      GatheredAreMaximal(c, states, steps, d, q, p);
    }
  }

  /** Later heads drawn from `u` and above it are the maximal revisions of `u`. */
  lemma LaterHeadsAreMaximal(c: Codec, s: System, d: Peer, p: Path, u: set<Revision>)
    requires Faithful(c) && Reachable(c, s) && d in s.nodes && u <= LogAt(s.logs, p).Keys
    requires Elements(VersionsAt(s.nodes[d].t, p)) <= u && Below(u, Elements(VersionsAt(s.nodes[d].t, p)))
    ensures Elements(VersionsAt(s.nodes[d].t, p)) == Maximal(u)
  {
    ReachableIsSafe(c, s);
    NodeFacts(c, s, d, p);
    HeadsAreMaximal(c, LogAt(s.logs, p), VersionsAt(s.nodes[d].t, p), u);
  }

  /** Every head of a reachable state is in the history. */
  lemma HeadsAreLogged(c: Codec, s: System, d: Peer, p: Path)
    requires Faithful(c) && Reachable(c, s) && d in s.nodes
    ensures Elements(VersionsAt(s.nodes[d].t, p)) <= LogAt(s.logs, p).Keys
  {
    ReachableIsSafe(c, s);
    NodeFacts(c, s, d, p);
  }

  lemma GatheredIsLogged(c: Codec, states: seq<System>, steps: seq<Step>, d: Peer, q: Peer, p: Path)
    requires Faithful(c) && Chain(c, states, steps) && Reachable(c, states[0])
    requires d in states[0].nodes && q in states[0].nodes
    ensures Gathered(states, steps, |steps|, d, q, p) <= LogAt(states[|steps|].logs, p).Keys
  {
    HeadsAreLogged(c, states[0], d, p);
    HeadsAreLogged(c, states[0], q, p);
    LogsKeep(c, states, steps, 0, |steps|, d, p);
  }

  lemma GatheredAreMaximal(c: Codec, states: seq<System>, steps: seq<Step>, d: Peer, q: Peer, p: Path)
    requires Faithful(c) && Chain(c, states, steps) && Reachable(c, states[0])
    requires d in states[0].nodes && q in states[0].nodes && d in states[|steps|].nodes
    requires var heads := Elements(VersionsAt(states[|steps|].nodes[d].t, p));
      && heads <= Gathered(states, steps, |steps|, d, q, p)
      && Below(Elements(VersionsAt(states[0].nodes[d].t, p)) + Issued(states, steps, 0, |steps|, d, p), heads)
      && Below(Elements(VersionsAt(states[0].nodes[q].t, p)), heads)
    ensures Elements(VersionsAt(states[|steps|].nodes[d].t, p)) == Maximal(Gathered(states, steps, |steps|, d, q, p))
  {
    ReachableAlong(c, states, steps, |steps|);
    GatheredIsLogged(c, states, steps, d, q, p);
    LaterHeadsAreMaximal(c, states[|steps|], d, p, Gathered(states, steps, |steps|, d, q, p));
  }

  /** Heads that hold the maximal revisions of what two devices held in a reachable state are the join of both. */
  lemma MaximalIsTheJoin(c: Codec, s: System, s': System, d: Peer, q: Peer, e: Peer, p: Path)
    requires Faithful(c) && Reachable(c, s) && Reachable(c, s') && d in s.nodes && q in s.nodes && e in s'.nodes
    requires Elements(VersionsAt(s'.nodes[e].t, p)) == Maximal(Elements(VersionsAt(s.nodes[d].t, p)) + Elements(VersionsAt(s.nodes[q].t, p)))
    ensures Joined(c, VersionsAt(s.nodes[d].t, p), VersionsAt(s.nodes[q].t, p)) == Ok(VersionsAt(s'.nodes[e].t, p))
  {
    var va, vb, v := VersionsAt(s.nodes[d].t, p), VersionsAt(s.nodes[q].t, p), VersionsAt(s'.nodes[e].t, p);
    assert HeldAt(s, p, va) && HeldAt(s, p, vb) && HeldAt(s', p, v);
    HeldIsKnown(c, s, p, va);
    HeldIsKnown(c, s, p, vb);
    HeldIsKnown(c, s', p, v);
    JoinsNeverConflict(c, s, p, va, vb);
    MaximalIsJoin(c, va, vb, v);
  }

  /**
   A session from the cursor, as it runs, leaves at every path where nobody edited in between exactly what an exchange
   of all rows would: the join of what both held.
   */
  lemma DeltaSessionRefinesFull(c: Codec, states: seq<System>, steps: seq<Step>, b: nat, m: nat, d: Peer, q: Peer, p: Path)
    requires Faithful(c) && OneWay(c, states, steps, b, m, d, q) && Reachable(c, states[0])
    requires d in states[0].nodes && q in states[0].nodes && Flows(states[0].nodes[q].mode, states[0].nodes[d].mode)
    requires Finished(states[|steps|], d)
    requires Issued(states, steps, 0, |steps|, d, p) == {} && Issued(states, steps, 0, m, q, p) == {}
    ensures d in states[|steps|].nodes
    ensures Joined(c, VersionsAt(states[0].nodes[d].t, p), VersionsAt(states[0].nodes[q].t, p))
      == Ok(VersionsAt(states[|steps|].nodes[d].t, p))
  {
    SessionGathers(c, states, steps, b, m, d, q, p);
    ReachableAlong(c, states, steps, |steps|);
    var va, vb := Elements(VersionsAt(states[0].nodes[d].t, p)), Elements(VersionsAt(states[0].nodes[q].t, p));
    assert va + vb + {} == va + vb;
    MaximalIsTheJoin(c, states[0], states[|steps|], d, q, d, p);
  }

  lemma BothWays(c: Codec, states: seq<System>, steps: seq<Step>, h: nat, m: nat, d: Peer, q: Peer)
    requires Faithful(c) && SessionRun(c, states, steps, h, m, d, q)
    ensures d != q && OneWay(c, states, steps, 0, m, d, q) && OneWay(c, states, steps, h, m, q, d)
  {
    assert StepAt(c, states, steps, 0);
  }

  /** What one peer issues in a session in which it issues nothing before the commits. */
  lemma IssuedLate(states: seq<System>, steps: seq<Step>, m: nat, d: Peer, p: Path)
    requires |states| == |steps| + 1 && m <= |steps| && Issued(states, steps, 0, m, d, p) == {}
    ensures Issued(states, steps, 0, |steps|, d, p) == Issued(states, steps, m, |steps|, d, p)
  {
    IssuedSplits(states, steps, 0, m, |steps|, d, p);
  }

  /** Both ends of a session in which both commit. What they issue once the commits have begun stays beside the join. */
  lemma SessionGathersBothWays(c: Codec, states: seq<System>, steps: seq<Step>, h: nat, m: nat, d: Peer, q: Peer, p: Path)
    requires Faithful(c) && SessionRun(c, states, steps, h, m, d, q) && Reachable(c, states[0])
    requires d in states[0].nodes && q in states[0].nodes
    requires states[0].nodes[d].mode == Bidirectional && states[0].nodes[q].mode == Bidirectional
    requires Finished(states[|steps|], d) && Finished(states[|steps|], q)
    requires Issued(states, steps, 0, m, d, p) == {} && Issued(states, steps, 0, m, q, p) == {}
    ensures var last := states[|steps|];
      && d in last.nodes && q in last.nodes
      && Elements(VersionsAt(last.nodes[d].t, p)) == Maximal(Gathered(states, steps, |steps|, d, q, p))
      && Elements(VersionsAt(last.nodes[q].t, p)) == Maximal(Gathered(states, steps, |steps|, q, d, p))
  {
    BothWays(c, states, steps, h, m, d, q);
    SessionGathers(c, states, steps, 0, m, d, q, p);
    SessionGathers(c, states, steps, h, m, q, d, p);
  }

  /**
   A session in which both peers commit ends with both holding, at every path where neither issued anything, the join
   of what they held, whatever they scanned and applied meanwhile.
   */
  lemma SessionEndsAtTheJoin(c: Codec, states: seq<System>, steps: seq<Step>, h: nat, m: nat, d: Peer, q: Peer, p: Path)
    requires Faithful(c) && SessionRun(c, states, steps, h, m, d, q) && Reachable(c, states[0])
    requires d in states[0].nodes && q in states[0].nodes
    requires states[0].nodes[d].mode == Bidirectional && states[0].nodes[q].mode == Bidirectional
    requires Finished(states[|steps|], d) && Finished(states[|steps|], q)
    requires Issued(states, steps, 0, |steps|, d, p) == {} && Issued(states, steps, 0, |steps|, q, p) == {}
    ensures d in states[|steps|].nodes && q in states[|steps|].nodes
    ensures var join := Joined(c, VersionsAt(states[0].nodes[d].t, p), VersionsAt(states[0].nodes[q].t, p));
      join == Ok(VersionsAt(states[|steps|].nodes[d].t, p)) && join == Ok(VersionsAt(states[|steps|].nodes[q].t, p))
  {
    var n := |steps|;
    IssuedSplits(states, steps, 0, m, n, d, p);
    IssuedSplits(states, steps, 0, m, n, q, p);
    SessionGathersBothWays(c, states, steps, h, m, d, q, p);
    ReachableAlong(c, states, steps, n);
    GatheredByEither(states, steps, d, q, p);
    MaximalIsTheJoin(c, states[0], states[n], d, q, d, p);
    MaximalIsTheJoin(c, states[0], states[n], d, q, q, p);
  }

  lemma GatheredByEither(states: seq<System>, steps: seq<Step>, d: Peer, q: Peer, p: Path)
    requires |states| == |steps| + 1 && d in states[0].nodes && q in states[0].nodes
    requires Issued(states, steps, 0, |steps|, d, p) == {} && Issued(states, steps, 0, |steps|, q, p) == {}
    ensures var both := Elements(VersionsAt(states[0].nodes[d].t, p)) + Elements(VersionsAt(states[0].nodes[q].t, p));
      Gathered(states, steps, |steps|, d, q, p) == both == Gathered(states, steps, |steps|, q, d, p)
  {
  }

  // ---- Attempts that fail anywhere ----

  /** Anything the two peers may do while they try: sessions with each other, given up anywhere, and what they do alone. */
  predicate IsAttempt(step: Step, d: Peer, q: Peer) {
    !step.Rollback? && (step.Begin? ==> step.from in {d, q})
  }

  ghost predicate Attempts(c: Codec, states: seq<System>, steps: seq<Step>, d: Peer, q: Peer)
    requires Faithful(c)
  {
    Chain(c, states, steps) && forall k :: 0 <= k < |steps| && steps[k].d in {d, q} ==> IsAttempt(steps[k], d, q)
  }

  /** What a device holds, has staged and has under way at `p` is among `u`. */
  ghost predicate Within(s: System, d: Peer, q: Peer, p: Path, u: set<Revision>) {
    d in s.nodes && Elements(VersionsAt(s.nodes[d].t, p)) <= u && Arriving(s.nodes[d], q, p, u)
  }

  lemma AttemptStaysWithin(c: Codec, s: System, step: Step, s': System, d: Peer, q: Peer, p: Path, u: set<Revision>)
    requires Faithful(c) && CausalInv(c, s) && Next(c, s, step, s') && d != q && (step.d == d ==> IsAttempt(step, d, q))
    requires Within(s, d, q, p, u) && Within(s, q, d, p, u)
    ensures Within(s', d, q, p, u + IssuedByStep(s, step, s', d, p))
  {
    StepGrows(c, s, step, s', d, p);
    StepArrives(c, s, step, s', d, q, p, u);
    ArrivingMore(s'.nodes[d], q, p, u, u + IssuedByStep(s, step, s', d, p));
  }

  /** What both held at `p` before the attempts and what both have issued there since. */
  function Tried(states: seq<System>, steps: seq<Step>, j: nat, d: Peer, q: Peer, p: Path): set<Revision>
    requires |states| == |steps| + 1 && j <= |steps| && d in states[0].nodes && q in states[0].nodes
  {
    Elements(VersionsAt(states[0].nodes[d].t, p)) + Elements(VersionsAt(states[0].nodes[q].t, p))
    + Issued(states, steps, 0, j, d, p) + Issued(states, steps, 0, j, q, p)
  }

  lemma WithinMore(s: System, d: Peer, q: Peer, p: Path, u: set<Revision>, more: set<Revision>)
    requires Within(s, d, q, p, u) && u <= more
    ensures Within(s, d, q, p, more)
  {
    ArrivingMore(s.nodes[d], q, p, u, more);
  }

  lemma AttemptOne(c: Codec, states: seq<System>, steps: seq<Step>, k: nat, d: Peer, q: Peer, p: Path, u: set<Revision>, u': set<Revision>)
    requires Faithful(c) && Attempts(c, states, steps, d, q) && Reachable(c, states[0]) && k < |steps| && d != q
    requires Within(states[k], d, q, p, u) && Within(states[k], q, d, p, u)
    requires u + IssuedByStep(states[k], steps[k], states[k + 1], d, p) <= u'
    ensures Within(states[k + 1], d, q, p, u')
  {
    assert StepAt(c, states, steps, k);
    ReachableAlong(c, states, steps, k);
    ReachableIsSafe(c, states[k]);
    AttemptStaysWithin(c, states[k], steps[k], states[k + 1], d, q, p, u);
    WithinMore(states[k + 1], d, q, p, u + IssuedByStep(states[k], steps[k], states[k + 1], d, p), u');
  }

  /** However the attempts go, neither peer holds, stages or is sent anything but what both held and issued. */
  lemma {:induction false} AttemptsInventNothing(c: Codec, states: seq<System>, steps: seq<Step>, j: nat, d: Peer, q: Peer, p: Path)
    requires Faithful(c) && Attempts(c, states, steps, d, q) && Reachable(c, states[0]) && j <= |steps| && d != q
    requires d in states[0].nodes && q in states[0].nodes
    requires states[0].nodes[d].session.None? && states[0].nodes[q].session.None?
    ensures Within(states[j], d, q, p, Tried(states, steps, j, d, q, p))
    ensures Within(states[j], q, d, p, Tried(states, steps, j, d, q, p))
    decreases j
  {
    if j > 0 {
      AttemptsInventNothing(c, states, steps, j - 1, d, q, p);
      var u, u' := Tried(states, steps, j - 1, d, q, p), Tried(states, steps, j, d, q, p);
      AttemptOne(c, states, steps, j - 1, d, q, p, u, u');
      AttemptOne(c, states, steps, j - 1, q, d, p, u, u');
    }
  }

  /** After the attempts, both peers together still know all of it. */
  lemma AttemptsLoseNothing(c: Codec, states: seq<System>, steps: seq<Step>, d: Peer, q: Peer, p: Path)
    requires Faithful(c) && Attempts(c, states, steps, d, q) && Reachable(c, states[0])
    requires d in states[0].nodes && q in states[0].nodes
    ensures var last := states[|steps|];
      && d in last.nodes && q in last.nodes
      && Below(Tried(states, steps, |steps|, d, q, p), Elements(VersionsAt(last.nodes[d].t, p)) + Elements(VersionsAt(last.nodes[q].t, p)))
  {
    RunGrows(c, states, steps, 0, |steps|, d, p);
    RunGrows(c, states, steps, 0, |steps|, q, p);
    BelowTogether(Elements(VersionsAt(states[0].nodes[d].t, p)) + Issued(states, steps, 0, |steps|, d, p),
                  Elements(VersionsAt(states[|steps|].nodes[d].t, p)),
                  Elements(VersionsAt(states[0].nodes[q].t, p)) + Issued(states, steps, 0, |steps|, q, p),
                  Elements(VersionsAt(states[|steps|].nodes[q].t, p)),
                  Tried(states, steps, |steps|, d, q, p));
  }

  lemma BelowTogether(a: set<Revision>, x: set<Revision>, b: set<Revision>, y: set<Revision>, all: set<Revision>)
    requires Below(a, x) && Below(b, y) && all <= a + b
    ensures Below(all, x + y)
  {
    forall r | r in all ensures Covered(r, x + y) {
      if r in a {
        assert Covered(r, x);
        var h :| h in x && Leq(r.clock, h.clock);
        assert h in x + y;
      } else {
        assert Covered(r, y);
        var h :| h in y && Leq(r.clock, h.clock);
        assert h in x + y;
      }
    }
  }

  /** A set between `w` and what is below `w` has the maximal revisions of `w`. */
  lemma SameMaximal(c: Codec, log: Log, v: Heads, w: set<Revision>, u: set<Revision>)
    requires Faithful(c) && Closed(log) && Normal(c, v) && u <= log.Keys
    requires Elements(v) == Maximal(w) && w <= u && Below(u, w)
    ensures Elements(v) == Maximal(u)
  {
    MaximalCovers(w);
    BelowTransitive(u, w, Elements(v));
    HeadsAreMaximal(c, log, v, u);
  }

  /** One peer after the session that follows the attempts. */
  lemma AfterTheAttempts(c: Codec, tries: seq<System>, trySteps: seq<Step>, states: seq<System>, steps: seq<Step>, d: Peer, q: Peer, p: Path)
    requires Faithful(c) && Attempts(c, tries, trySteps, d, q) && Reachable(c, tries[0]) && d != q
    requires d in tries[0].nodes && q in tries[0].nodes
    requires tries[0].nodes[d].session.None? && tries[0].nodes[q].session.None?
    requires Chain(c, states, steps) && states[0] == tries[|trySteps|]
    requires d in states[0].nodes && q in states[0].nodes && d in states[|steps|].nodes
    requires Elements(VersionsAt(states[|steps|].nodes[d].t, p)) == Maximal(Gathered(states, steps, |steps|, d, q, p))
    ensures Elements(VersionsAt(states[|steps|].nodes[d].t, p))
      == Maximal(Tried(tries, trySteps, |trySteps|, d, q, p) + Issued(states, steps, 0, |steps|, d, p))
  {
    var n, t := |steps|, |trySteps|;
    var tried, own := Tried(tries, trySteps, t, d, q, p), Issued(states, steps, 0, n, d, p);
    AttemptsInventNothing(c, tries, trySteps, t, d, q, p);
    AttemptsLoseNothing(c, tries, trySteps, d, q, p);
    TriedIsLogged(c, tries, trySteps, d, q, p);
    ReachableAlong(c, tries, trySteps, t);
    ReachableAlong(c, states, steps, n);
    ReachableIsSafe(c, states[n]);
    NodeFacts(c, states[n], d, p);
    LogsKeep(c, states, steps, 0, n, d, p);
    var held := Elements(VersionsAt(states[0].nodes[d].t, p)) + Elements(VersionsAt(states[0].nodes[q].t, p));
    BelowReflexive(own);
    BelowTogether(tried, held, own, own, tried + own);
    SameMaximal(c, LogAt(states[n].logs, p), VersionsAt(states[n].nodes[d].t, p), held + own, tried + own);
  }

  lemma TriedIsLogged(c: Codec, tries: seq<System>, trySteps: seq<Step>, d: Peer, q: Peer, p: Path)
    requires Faithful(c) && Chain(c, tries, trySteps) && Reachable(c, tries[0]) && d in tries[0].nodes && q in tries[0].nodes
    ensures Tried(tries, trySteps, |trySteps|, d, q, p) <= LogAt(tries[|trySteps|].logs, p).Keys
  {
    GatheredIsLogged(c, tries, trySteps, d, q, p);
    GatheredIsLogged(c, tries, trySteps, q, d, p);
  }

  /** Nothing issued leaves nothing but what both held. */
  lemma NothingIssued(tries: seq<System>, trySteps: seq<Step>, d: Peer, q: Peer, p: Path, late: set<Revision>)
    requires |tries| == |trySteps| + 1 && d in tries[0].nodes && q in tries[0].nodes && late == {}
    requires Issued(tries, trySteps, 0, |trySteps|, d, p) == {} && Issued(tries, trySteps, 0, |trySteps|, q, p) == {}
    ensures Tried(tries, trySteps, |trySteps|, d, q, p) + late
      == Elements(VersionsAt(tries[0].nodes[d].t, p)) + Elements(VersionsAt(tries[0].nodes[q].t, p))
  {
  }

  lemma TriedByEither(tries: seq<System>, trySteps: seq<Step>, d: Peer, q: Peer, p: Path)
    requires |tries| == |trySteps| + 1 && d in tries[0].nodes && q in tries[0].nodes
    ensures Tried(tries, trySteps, |trySteps|, q, d, p) == Tried(tries, trySteps, |trySteps|, d, q, p)
  {
  }

  /**
   However many sessions were given up before, wherever each of them stopped, whichever side had committed or applied,
   and whatever both did on their own: a session in which both commit ends with both holding the maximal revisions of
   what they held at the beginning and what they have issued since.
   */
  lemma RetriedSessionsGather(c: Codec, tries: seq<System>, trySteps: seq<Step>, states: seq<System>, steps: seq<Step>,
                              h: nat, m: nat, d: Peer, q: Peer, p: Path)
    requires Faithful(c) && Attempts(c, tries, trySteps, d, q) && Reachable(c, tries[0])
    requires d in tries[0].nodes && q in tries[0].nodes
    requires tries[0].nodes[d].session.None? && tries[0].nodes[q].session.None?
    requires states != [] && states[0] == tries[|trySteps|] && SessionRun(c, states, steps, h, m, d, q)
    requires d in states[0].nodes && states[0].nodes[d].mode == Bidirectional
    requires q in states[0].nodes && states[0].nodes[q].mode == Bidirectional
    requires Finished(states[|steps|], d) && Finished(states[|steps|], q)
    requires Issued(states, steps, 0, m, d, p) == {} && Issued(states, steps, 0, m, q, p) == {}
    ensures var last := states[|steps|]; var tried := Tried(tries, trySteps, |trySteps|, d, q, p);
      && d in last.nodes && q in last.nodes
      && Elements(VersionsAt(last.nodes[d].t, p)) == Maximal(tried + Issued(states, steps, m, |steps|, d, p))
      && Elements(VersionsAt(last.nodes[q].t, p)) == Maximal(tried + Issued(states, steps, m, |steps|, q, p))
  {
    BothWays(c, states, steps, h, m, d, q);
    ReachableAlong(c, tries, trySteps, |trySteps|);
    SessionGathersBothWays(c, states, steps, h, m, d, q, p);
    AfterTheAttempts(c, tries, trySteps, states, steps, d, q, p);
    AfterTheAttempts(c, tries, trySteps, states, steps, q, d, p);
    IssuedLate(states, steps, m, d, p);
    IssuedLate(states, steps, m, q, p);
    TriedByEither(tries, trySteps, d, q, p);
  }

  /** Where nobody issues anything, that is the join at which a single undisturbed session would have ended. */
  lemma RetriedSessionsEndAtTheJoin(c: Codec, tries: seq<System>, trySteps: seq<Step>, states: seq<System>, steps: seq<Step>,
                                    h: nat, m: nat, d: Peer, q: Peer, p: Path)
    requires Faithful(c) && Attempts(c, tries, trySteps, d, q) && Reachable(c, tries[0])
    requires d in tries[0].nodes && q in tries[0].nodes
    requires tries[0].nodes[d].session.None? && tries[0].nodes[q].session.None?
    requires states != [] && states[0] == tries[|trySteps|] && SessionRun(c, states, steps, h, m, d, q)
    requires d in states[0].nodes && states[0].nodes[d].mode == Bidirectional
    requires q in states[0].nodes && states[0].nodes[q].mode == Bidirectional
    requires Finished(states[|steps|], d) && Finished(states[|steps|], q)
    requires forall e :: e in {d, q} ==>
      Issued(tries, trySteps, 0, |trySteps|, e, p) == {} && Issued(states, steps, 0, |steps|, e, p) == {}
    ensures d in states[|steps|].nodes && q in states[|steps|].nodes
    ensures var join := Joined(c, VersionsAt(tries[0].nodes[d].t, p), VersionsAt(tries[0].nodes[q].t, p));
      join == Ok(VersionsAt(states[|steps|].nodes[d].t, p)) && join == Ok(VersionsAt(states[|steps|].nodes[q].t, p))
  {
    var n := |steps|;
    IssuedSplits(states, steps, 0, m, n, d, p);
    IssuedSplits(states, steps, 0, m, n, q, p);
    RetriedSessionsGather(c, tries, trySteps, states, steps, h, m, d, q, p);
    NothingIssued(tries, trySteps, d, q, p, Issued(states, steps, m, n, d, p));
    NothingIssued(tries, trySteps, d, q, p, Issued(states, steps, m, n, q, p));
    ReachableAlong(c, tries, trySteps, |trySteps|);
    ReachableAlong(c, states, steps, n);
    MaximalIsTheJoin(c, tries[0], states[n], d, q, d, p);
    MaximalIsTheJoin(c, tries[0], states[n], d, q, q, p);
  }
}
