/** What every run of the network keeps about cursors and sessions: nothing below a cursor is ever missing. */
module ExchangeSafety {
  import opened Results
  import opened Clocks
  import opened Ordering
  import opened Paths
  import opened Register
  import opened Lattice
  import opened Causality
  import opened Index
  import opened Effects
  import opened Network
  import opened CausalSafety

  /** Every sender row numbered up to `n` is causally below the receiver's heads. */
  ghost predicate RowsBelow(sender: Tables, n: nat, receiver: Tables) {
    forall p {:trigger VersionsAt(receiver, p)} {:trigger sender.rows[p]} :: p in sender.rows && sender.rows[p].sequence <= n ==>
      Below(Elements(sender.rows[p].versions), Elements(VersionsAt(receiver, p)))
  }

  ghost predicate OnWire(wire: seq<Record>, p: Path, h: Revision) {
    exists r :: r in wire && r.path == p && h in r.versions
  }

  /** `h` is already covered at `p`, or staged, or on its way. */
  ghost predicate Reached(receiver: Tables, wire: seq<Record>, p: Path, h: Revision) {
    || Covered(h, Elements(VersionsAt(receiver, p)))
    || Covered(h, Elements(IncomingAt(receiver, p)))
    || OnWire(wire, p, h)
  }

  ghost predicate RowsReach(sender: Tables, n: nat, receiver: Tables, wire: seq<Record>) {
    forall p, h {:trigger Reached(receiver, wire, p, h)} ::
      p in sender.rows && sender.rows[p].sequence <= n && h in sender.rows[p].versions ==> Reached(receiver, wire, p, h)
  }

  ghost predicate CursorOk(s: System, d: Peer, q: Peer)
    requires d in s.nodes && q in s.nodes[d].t.cursors
  {
    var cursor := s.nodes[d].t.cursors[q];
    && cursor.epoch in s.used
    && (q in s.nodes && s.nodes[q].t.epoch == cursor.epoch ==>
          && cursor.sequence <= s.nodes[q].t.sequence
          && (Flows(s.nodes[q].mode, s.nodes[d].mode) ==> RowsBelow(s.nodes[q].t, cursor.sequence, s.nodes[d].t)))
  }

  /** A record on the wire is the sender's current row, unless the row has since been renumbered. */
  ghost predicate Current(sender: Tables, ceiling: nat, r: Record) {
    r.path in sender.rows && sender.rows[r.path].sequence <= ceiling ==>
      sender.rows[r.path].versions == r.versions
  }

  ghost predicate WireOk(session: Session) {
    && session.last <= session.ceiling
    && (forall i, j :: 0 <= i < j < |session.wire| ==> session.wire[i].sequence < session.wire[j].sequence)
    && (forall i :: 0 <= i < |session.wire| ==> session.staged < session.wire[i].sequence <= session.last)
    && session.staged <= session.last
    && (session.ended ==> session.wire == [])
    && (session.committed ==> session.ended)
  }

  /** While rows flow from a living sender, everything it has read so far is covered, staged or on the wire. */
  ghost predicate FlowOk(sender: Tables, receiver: Tables, session: Session) {
    && session.ceiling <= sender.sequence
    && RowsReach(sender, session.last, receiver, session.wire)
    && (forall r {:trigger Current(sender, session.ceiling, r)} :: r in session.wire ==> Current(sender, session.ceiling, r))
    && (session.ended ==> forall p :: !Sendable(sender, session, p))
    && (session.committed ==> RowsBelow(sender, session.ceiling, receiver))
  }

  /** The sender holds every object the receiver may ask for. */
  ghost predicate ServableOk(sender: Tables, receiver: Tables, session: Session) {
    && receiver.needed <= sender.objects
    && forall r :: r in session.wire ==> Hashes(r.versions) <= sender.objects
  }

  ghost predicate SessionOk(s: System, d: Peer)
    requires d in s.nodes && s.nodes[d].session.Some?
  {
    var session := s.nodes[d].session.value;
    && session.peer in s.nodes && session.peer != d && session.epoch in s.used
    && WireOk(session)
    && ServableOk(s.nodes[session.peer].t, s.nodes[d].t, session)
    && (s.nodes[session.peer].t.epoch == session.epoch ==> session.ceiling <= s.nodes[session.peer].t.sequence)
    && (s.nodes[session.peer].t.epoch == session.epoch && Flows(s.nodes[session.peer].mode, s.nodes[d].mode) ==>
          FlowOk(s.nodes[session.peer].t, s.nodes[d].t, session))
  }

  ghost predicate ExchangeInv(s: System) {
    && (forall d, q {:trigger CursorOk(s, d, q)} :: d in s.nodes && q in s.nodes[d].t.cursors ==> CursorOk(s, d, q))
    && (forall d {:trigger SessionOk(s, d)} :: d in s.nodes && s.nodes[d].session.Some? ==> SessionOk(s, d))
  }

  // ---- Rows that move forward ----

  lemma BelowFurther(sender: Tables, n: nat, receiver: Tables, receiver': Tables, p: Path)
    requires RowsBelow(sender, n, receiver) && Moves(receiver, receiver', p)
    ensures RowsBelow(sender, n, receiver')
  {
    forall q | q in sender.rows && sender.rows[q].sequence <= n
      ensures Below(Elements(sender.rows[q].versions), Elements(VersionsAt(receiver', q)))
    {
      if q == p {
        BelowTransitive(Elements(sender.rows[q].versions), Elements(VersionsAt(receiver, q)), Elements(VersionsAt(receiver', q)));
      } else {
        assert VersionsAt(receiver', q) == VersionsAt(receiver, q);
      }
    }
  }

  lemma BelowWhileSenderMoves(sender: Tables, sender': Tables, n: nat, receiver: Tables, p: Path)
    requires RowsBelow(sender, n, receiver) && Moves(sender, sender', p) && n <= sender.sequence
    ensures RowsBelow(sender', n, receiver)
  {
    forall q | q in sender'.rows && sender'.rows[q].sequence <= n
      ensures Below(Elements(sender'.rows[q].versions), Elements(VersionsAt(receiver, q)))
    {
      assert q in sender.rows && sender'.rows[q].versions == sender.rows[q].versions;
    }
  }

  lemma ReachFurther(sender: Tables, n: nat, receiver: Tables, receiver': Tables, wire: seq<Record>, p: Path)
    requires RowsReach(sender, n, receiver, wire) && Moves(receiver, receiver', p)
    ensures RowsReach(sender, n, receiver', wire)
  {
    forall q, h | q in sender.rows && sender.rows[q].sequence <= n && h in sender.rows[q].versions
      ensures Reached(receiver', wire, q, h)
    {
      assert Reached(receiver, wire, q, h);
      assert IncomingAt(receiver', q) == IncomingAt(receiver, q);
      if Covered(h, Elements(VersionsAt(receiver, q))) {
        if q == p {
          CoveredThrough(h, Elements(VersionsAt(receiver, q)), Elements(VersionsAt(receiver', q)));
        } else {
          assert VersionsAt(receiver', q) == VersionsAt(receiver, q);
        }
      }
    }
  }

  lemma ReachWhileSenderMoves(sender: Tables, sender': Tables, n: nat, receiver: Tables, wire: seq<Record>, p: Path)
    requires RowsReach(sender, n, receiver, wire) && Moves(sender, sender', p) && n <= sender.sequence
    ensures RowsReach(sender', n, receiver, wire)
  {
    forall q, h | q in sender'.rows && sender'.rows[q].sequence <= n && h in sender'.rows[q].versions
      ensures Reached(receiver, wire, q, h)
    {
      assert q in sender.rows && sender'.rows[q].versions == sender.rows[q].versions;
    }
  }

  lemma FlowFurther(sender: Tables, receiver: Tables, receiver': Tables, session: Session, p: Path)
    requires FlowOk(sender, receiver, session) && Moves(receiver, receiver', p)
    ensures FlowOk(sender, receiver', session)
  {
    ReachFurther(sender, session.last, receiver, receiver', session.wire, p);
    if session.committed { BelowFurther(sender, session.ceiling, receiver, receiver', p); }
  }

  lemma FlowWhileSenderMoves(sender: Tables, sender': Tables, receiver: Tables, session: Session, p: Path)
    requires FlowOk(sender, receiver, session) && WireOk(session) && Moves(sender, sender', p)
    ensures FlowOk(sender', receiver, session)
  {
    ReachWhileSenderMoves(sender, sender', session.last, receiver, session.wire, p);
    if session.committed { BelowWhileSenderMoves(sender, sender', session.ceiling, receiver, p); }
    forall r | r in session.wire ensures Current(sender', session.ceiling, r) {
      assert Current(sender, session.ceiling, r);
    }
    if session.ended {
      forall q ensures !Sendable(sender', session, q) { assert !Sendable(sender, session, q); }
    }
  }

  /** Node `e` moves one row; nothing else changes. */
  ghost predicate NodeMoves(s: System, s': System, e: Peer, p: Path) {
    && e in s.nodes && s'.nodes.Keys == s.nodes.Keys && s'.used == s.used
    && (forall d :: d in s.nodes && d != e ==> s'.nodes[d] == s.nodes[d])
    && s'.nodes[e].session == s.nodes[e].session && s'.nodes[e].mode == s.nodes[e].mode
    && Moves(s.nodes[e].t, s'.nodes[e].t, p)
  }

  lemma CursorAfterMove(s: System, s': System, e: Peer, p: Path, d: Peer, q: Peer)
    requires NodeMoves(s, s', e, p) && d in s'.nodes && q in s'.nodes[d].t.cursors
    requires d in s.nodes && q in s.nodes[d].t.cursors && CursorOk(s, d, q)
    ensures CursorOk(s', d, q)
  {
    var n := s.nodes[d].t.cursors[q].sequence;
    if q in s.nodes && s.nodes[q].t.epoch == s.nodes[d].t.cursors[q].epoch && Flows(s.nodes[q].mode, s.nodes[d].mode) {
      if q == e { BelowWhileSenderMoves(s.nodes[q].t, s'.nodes[q].t, n, s.nodes[d].t, p); }
      if d == e { BelowFurther(s'.nodes[q].t, n, s.nodes[d].t, s'.nodes[d].t, p); }
    }
  }

  lemma SessionAfterMove(s: System, s': System, e: Peer, p: Path, d: Peer)
    requires NodeMoves(s, s', e, p) && d in s.nodes && s.nodes[d].session.Some? && SessionOk(s, d)
    ensures SessionOk(s', d)
  {
    var session := s.nodes[d].session.value;
    var q := session.peer;
    if s.nodes[q].t.epoch == session.epoch && Flows(s.nodes[q].mode, s.nodes[d].mode) {
      if q == e { FlowWhileSenderMoves(s.nodes[q].t, s'.nodes[q].t, s.nodes[d].t, session, p); }
      if d == e { FlowFurther(s.nodes[q].t, s.nodes[d].t, s'.nodes[d].t, session, p); }
    }
  }

  lemma MoveKeepsExchange(s: System, s': System, e: Peer, p: Path)
    requires ExchangeInv(s) && NodeMoves(s, s', e, p)
    ensures ExchangeInv(s')
  {
    forall d, q | d in s'.nodes && q in s'.nodes[d].t.cursors ensures CursorOk(s', d, q) {
      assert CursorOk(s, d, q);
      CursorAfterMove(s, s', e, p, d, q);
    }
    forall d | d in s'.nodes && s'.nodes[d].session.Some? ensures SessionOk(s', d) {
      assert SessionOk(s, d);
      SessionAfterMove(s, s', e, p, d);
    }
  }

  predicate IsRowStep(step: Step) {
    step.Scan? || step.Approve? || step.Resolving? || step.Apply? || step.Commit?
  }

  lemma ScanStepMoves(c: Codec, s: System, s': System, d: Peer, p: Path, found: Option<Content>, approve: bool)
    requires Faithful(c) && ScanStep(c, s, s', d, p, found, approve)
    ensures NodeMoves(s, s', d, p)
  {
    ScanEffect(c, Captured(s.nodes[d].t, found), p, found, approve);
  }

  lemma IssueStepMoves(c: Codec, s: System, s': System, d: Peer, p: Path, expected: Heads)
    requires Faithful(c) && ApproveStep(c, s, s', d, p, expected)
    ensures NodeMoves(s, s', d, p)
  {
    IssueEffect(c, s.nodes[d].t, p, Deleted, None);
  }

  lemma ChooseStepMoves(c: Codec, s: System, s': System, d: Peer, p: Path, content: Content, actual: Option<Content>)
    requires Faithful(c) && ChooseStep(c, s, s', d, p, content, actual)
    ensures NodeMoves(s, s', d, p)
  {
    ChooseEffect(c, Captured(s.nodes[d].t, actual), p, content, actual);
  }

  lemma CommitStepMoves(c: Codec, s: System, s': System, d: Peer, p: Path)
    requires Faithful(c) && CommitStep(c, s, s', d, p)
    ensures NodeMoves(s, s', d, p)
  {
    CommitMoves(c, s.nodes[d].t, p);
  }

  lemma ApplyStepMoves(c: Codec, s: System, s': System, d: Peer, p: Path)
    requires ApplyStep(c, s, s', d, p)
    ensures NodeMoves(s, s', d, p)
  {
    AcknowledgeMoves(c, s.nodes[d].t, p);
  }

  lemma RowStepMoves(c: Codec, s: System, step: Step, s': System)
    requires Faithful(c) && Next(c, s, step, s') && IsRowStep(step)
    ensures NodeMoves(s, s', step.d, step.p)
  {
    match step
    case Scan(d, p, found, approve) => ScanStepMoves(c, s, s', d, p, found, approve);
    case Approve(d, p, expected) => IssueStepMoves(c, s, s', d, p, expected);
    case Resolving(d, p, content, actual) => ChooseStepMoves(c, s, s', d, p, content, actual);
    case Apply(d, p) => ApplyStepMoves(c, s, s', d, p);
    case Commit(d, p) => CommitStepMoves(c, s, s', d, p);
  }

  // ---- Exchange steps: only `d`'s session, staging and cursors change ----

  ghost predicate OnlySession(s: System, s': System, d: Peer) {
    && ExchangeChange(s, s', d)
    && s'.nodes[d].mode == s.nodes[d].mode && s'.nodes[d].t.sequence == s.nodes[d].t.sequence
    && s.nodes[d].t.objects <= s'.nodes[d].t.objects
  }

  lemma OtherSessions(s: System, s': System, d: Peer, e: Peer)
    requires OnlySession(s, s', d) && e in s.nodes && e != d && s.nodes[e].session.Some? && SessionOk(s, e)
    ensures SessionOk(s', e)
  {
    var session := s.nodes[e].session.value;
    var q := session.peer;
    assert s'.nodes[e] == s.nodes[e];
    if s.nodes[q].t.epoch == session.epoch && Flows(s.nodes[q].mode, s.nodes[e].mode) {
      SameRowsFlow(s.nodes[q].t, s'.nodes[q].t, s.nodes[e].t, session);
    }
  }

  lemma SameRowsFlow(sender: Tables, sender': Tables, receiver: Tables, session: Session)
    requires FlowOk(sender, receiver, session) && sender'.rows == sender.rows && sender'.sequence == sender.sequence
    ensures FlowOk(sender', receiver, session)
  {
    forall r | r in session.wire ensures Current(sender', session.ceiling, r) {
      assert Current(sender, session.ceiling, r);
    }
    if session.ended {
      forall q ensures !Sendable(sender', session, q) { assert !Sendable(sender, session, q); }
    }
    forall q, h | q in sender'.rows && sender'.rows[q].sequence <= session.last && h in sender'.rows[q].versions
      ensures Reached(receiver, session.wire, q, h)
    {}
  }

  lemma OtherCursors(s: System, s': System, d: Peer, e: Peer, q: Peer)
    requires OnlySession(s, s', d) && e in s.nodes && q in s.nodes[e].t.cursors && CursorOk(s, e, q)
    requires q in s'.nodes[e].t.cursors && s'.nodes[e].t.cursors[q] == s.nodes[e].t.cursors[q]
    ensures CursorOk(s', e, q)
  {
    var n := s.nodes[e].t.cursors[q].sequence;
    if q in s.nodes && RowsBelow(s.nodes[q].t, n, s.nodes[e].t) {
      forall p | p in s'.nodes[q].t.rows && s'.nodes[q].t.rows[p].sequence <= n
        ensures Below(Elements(s'.nodes[q].t.rows[p].versions), Elements(VersionsAt(s'.nodes[e].t, p)))
      {
        assert VersionsAt(s'.nodes[e].t, p) == VersionsAt(s.nodes[e].t, p);
        assert s'.nodes[q].t.rows[p] == s.nodes[q].t.rows[p];
      }
    }
  }

  lemma SessionStepKeepsExchange(s: System, s': System, d: Peer)
    requires ExchangeInv(s) && OnlySession(s, s', d)
    requires forall q :: q in s'.nodes[d].t.cursors ==>
      CursorOk(s', d, q) || (q in s.nodes[d].t.cursors && s'.nodes[d].t.cursors[q] == s.nodes[d].t.cursors[q])
    requires s'.nodes[d].session.Some? ==> SessionOk(s', d)
    ensures ExchangeInv(s')
  {
    forall e, q | e in s'.nodes && q in s'.nodes[e].t.cursors ensures CursorOk(s', e, q) {
      if e != d || (q in s.nodes[d].t.cursors && s'.nodes[d].t.cursors[q] == s.nodes[d].t.cursors[q]) {
        assert CursorOk(s, e, q);
        OtherCursors(s, s', d, e, q);
      }
    }
    forall e | e in s'.nodes && s'.nodes[e].session.Some? ensures SessionOk(s', e) {
      if e != d {
        assert SessionOk(s, e);
        OtherSessions(s, s', d, e);
      }
    }
  }

  // ---- Each step of a session ----

  lemma BeginIsOk(c: Codec, s: System, s': System, d: Peer, from: Peer)
    requires Faithful(c) && CausalInv(c, s) && ExchangeInv(s) && BeginStep(s, s', d, from)
    ensures SessionOk(s', d)
  {
    var t, sender := s.nodes[d].t, s.nodes[from].t;
    assert NodeOk(c, s, from);
    if from in t.cursors { assert CursorOk(s, d, from); }
    var session := s'.nodes[d].session.value;
    if Flows(s.nodes[from].mode, s.nodes[d].mode) {
      forall p, h | p in sender.rows && sender.rows[p].sequence <= session.last && h in sender.rows[p].versions
        ensures Reached(s'.nodes[d].t, [], p, h)
      {
        assert RowSound(c, sender, p);
        assert Below(Elements(sender.rows[p].versions), Elements(VersionsAt(t, p)));
        assert VersionsAt(s'.nodes[d].t, p) == VersionsAt(t, p);
        assert h in Elements(sender.rows[p].versions);
        assert Covered(h, Elements(VersionsAt(t, p)));
      }
    }
  }

  lemma SendIsOk(c: Codec, s: System, s': System, d: Peer, p: Path)
    requires Faithful(c) && CausalInv(c, s) && ExchangeInv(s) && SendStep(s, s', d, p)
    ensures SessionOk(s', d)
  {
    var t, session, session' := s.nodes[d].t, s.nodes[d].session.value, s'.nodes[d].session.value;
    var sender := s.nodes[session.peer].t;
    assert SessionOk(s, d) && NodeOk(c, s, session.peer) && RowSound(c, sender, p);
    var record := Record(p, sender.rows[p].versions, sender.rows[p].sequence);
    SentWire(sender, t, session, session', record);
    SentFlow(sender, t, session, session', record);
    assert s'.nodes[session.peer] == s.nodes[session.peer] && s'.nodes[d].t == t;
  }

  lemma SentWire(sender: Tables, t: Tables, session: Session, session': Session, record: Record)
    requires WireOk(session) && ServableOk(sender, t, session) && !session.ended
    requires session.last < record.sequence <= session.ceiling && Hashes(record.versions) <= sender.objects
    requires session' == session.(last := record.sequence, wire := session.wire + [record])
    ensures WireOk(session') && ServableOk(sender, t, session')
  {
  }

  /** Taking the lowest sendable row keeps everything read so far covered, staged or on the wire. */
  lemma SentFlow(sender: Tables, t: Tables, session: Session, session': Session, record: Record)
    requires FlowOk(sender, t, session) && !session.ended && (session.committed ==> session.ended)
    requires Sendable(sender, session, record.path)
    requires record == Record(record.path, sender.rows[record.path].versions, sender.rows[record.path].sequence)
    requires forall q :: Sendable(sender, session, q) ==> record.sequence <= sender.rows[q].sequence
    requires forall q, r :: q in sender.rows && r in sender.rows && q != r ==> sender.rows[q].sequence != sender.rows[r].sequence
    requires session' == session.(last := record.sequence, wire := session.wire + [record])
    ensures FlowOk(sender, t, session')
  {
    forall q, h | q in sender.rows && sender.rows[q].sequence <= session'.last && h in sender.rows[q].versions
      ensures Reached(t, session'.wire, q, h)
    {
      SentReach(sender, t, session, session', record, q, h);
    }
    forall r | r in session'.wire ensures Current(sender, session.ceiling, r) {
      if r in session.wire { assert Current(sender, session.ceiling, r); }
    }
  }

  lemma SentReach(sender: Tables, t: Tables, session: Session, session': Session, record: Record, q: Path, h: Revision)
    requires RowsReach(sender, session.last, t, session.wire) && Sendable(sender, session, record.path)
    requires record == Record(record.path, sender.rows[record.path].versions, sender.rows[record.path].sequence)
    requires forall x :: Sendable(sender, session, x) ==> record.sequence <= sender.rows[x].sequence
    requires forall x, y :: x in sender.rows && y in sender.rows && x != y ==> sender.rows[x].sequence != sender.rows[y].sequence
    requires session' == session.(last := record.sequence, wire := session.wire + [record])
    requires q in sender.rows && sender.rows[q].sequence <= session'.last && h in sender.rows[q].versions
    ensures Reached(t, session'.wire, q, h)
  {
    if sender.rows[q].sequence <= session.last {
      assert Reached(t, session.wire, q, h);
      if OnWire(session.wire, q, h) {
        var r :| r in session.wire && r.path == q && h in r.versions;
        assert r in session'.wire;
      }
    } else {
      assert Sendable(sender, session, q);
      assert q == record.path && record in session'.wire;
    }
  }

  lemma StageIsOk(c: Codec, s: System, s': System, d: Peer)
    requires Faithful(c) && CausalInv(c, s) && ExchangeInv(s) && StageStep(c, s, s', d)
    ensures SessionOk(s', d)
  {
    assert SessionOk(s, d) && NodeOk(c, s, d);
    var t, t', session, session' := s.nodes[d].t, s'.nodes[d].t, s.nodes[d].session.value, s'.nodes[d].session.value;
    var sender, record := s.nodes[session.peer].t, session.wire[0];
    assert record in session.wire && RecordKnown(c, s.logs, record);
    assert t'.incoming == t.incoming[record.path := record.versions];
    StagedWire(sender, t, t', session, session');
    if sender.epoch == session.epoch && Flows(s.nodes[session.peer].mode, s.nodes[d].mode) {
      StagedFlow(sender, t, t', session, session');
    }
  }

  lemma StagedWire(sender: Tables, t: Tables, t': Tables, session: Session, session': Session)
    requires WireOk(session) && ServableOk(sender, t, session) && session.wire != []
    requires session' == session.(wire := session.wire[1..], staged := session.wire[0].sequence)
    requires t'.needed <= t.needed + Hashes(session.wire[0].versions)
    ensures WireOk(session') && ServableOk(sender, t', session')
  {
    assert session.wire[0] in session.wire;
    forall r | r in session'.wire ensures r in session.wire {}
  }

  lemma StagedFlow(sender: Tables, t: Tables, t': Tables, session: Session, session': Session)
    requires FlowOk(sender, t, session) && WireOk(session) && session.wire != []
    requires session' == session.(wire := session.wire[1..], staged := session.wire[0].sequence)
    requires t'.rows == t.rows && t'.incoming == t.incoming[session.wire[0].path := session.wire[0].versions]
    ensures FlowOk(sender, t', session')
  {
    assert session.wire == [session.wire[0]] + session'.wire;
    assert session.wire[0] in session.wire && Current(sender, session.ceiling, session.wire[0]);
    forall q, h | q in sender.rows && sender.rows[q].sequence <= session.last && h in sender.rows[q].versions
      ensures Reached(t', session'.wire, q, h)
    {
      StagedReach(sender, t, t', session, session'.wire, q, h);
    }
    forall r | r in session'.wire ensures Current(sender, session.ceiling, r) { assert r in session.wire; }
  }

  lemma StagedReach(sender: Tables, t: Tables, t': Tables, session: Session, rest: seq<Record>, q: Path, h: Revision)
    requires session.wire != [] && session.wire == [session.wire[0]] + rest
    requires var record := session.wire[0];
      t'.incoming == t.incoming[record.path := record.versions] && t'.rows == t.rows && Current(sender, session.ceiling, record)
    requires RowsReach(sender, session.last, t, session.wire) && session.last <= session.ceiling
    requires q in sender.rows && sender.rows[q].sequence <= session.last && h in sender.rows[q].versions
    ensures Reached(t', rest, q, h)
  {
    var record := session.wire[0];
    assert Reached(t, session.wire, q, h);
    assert VersionsAt(t', q) == VersionsAt(t, q);
    if q == record.path {
      assert h in Elements(record.versions) && Leq(h.clock, h.clock);
      assert Covered(h, Elements(IncomingAt(t', q)));
    } else {
      assert IncomingAt(t', q) == IncomingAt(t, q);
      if OnWire(session.wire, q, h) {
        var r :| r in session.wire && r.path == q && h in r.versions;
        assert r in rest;
      }
    }
  }

  /** When the transaction is done, everything staged is below the rows. */
  lemma CommitDoneIsOk(c: Codec, s: System, s': System, d: Peer)
    requires Faithful(c) && CausalInv(c, s) && ExchangeInv(s) && CommitDoneStep(s, s', d)
    ensures SessionOk(s', d)
  {
    assert SessionOk(s, d);
    var t, t', session, session' := s.nodes[d].t, s'.nodes[d].t, s.nodes[d].session.value, s'.nodes[d].session.value;
    var sender := s.nodes[session.peer].t;
    if sender.epoch == session.epoch && Flows(s.nodes[session.peer].mode, s.nodes[d].mode) {
      forall q, h | q in sender.rows && sender.rows[q].sequence <= session.ceiling && h in sender.rows[q].versions
        ensures Covered(h, Elements(VersionsAt(t', q)))
      {
        assert !Sendable(sender, session, q);
        assert Reached(t, [], q, h);
        assert VersionsAt(t', q) == VersionsAt(t, q);
        if Covered(h, Elements(IncomingAt(t, q))) {
          assert q in t.incoming;
          CoveredThrough(h, Elements(t.incoming[q]), Elements(VersionsAt(t, q)));
        }
      }
      forall q | q in sender.rows && sender.rows[q].sequence <= session.ceiling
        ensures Below(Elements(sender.rows[q].versions), Elements(VersionsAt(t', q)))
      {}
      forall q ensures !Sendable(sender, session', q) { assert !Sendable(sender, session, q); }
      assert RowsReach(sender, session.last, t', []);
    }
  }

  lemma EndIsOk(s: System, s': System, d: Peer)
    requires ExchangeInv(s) && EndStep(s, s', d)
    ensures SessionOk(s', d)
  {
    var session, session' := s.nodes[d].session.value, s'.nodes[d].session.value;
    var sender := s.nodes[session.peer].t;
    assert SessionOk(s, d);
    if Flows(s.nodes[session.peer].mode, s.nodes[d].mode) {
      forall q ensures !Sendable(sender, session', q) { assert !Sendable(sender, session, q); }
      assert RowsReach(sender, session'.last, s'.nodes[d].t, session'.wire);
    }
  }

  lemma PullIsOk(s: System, s': System, d: Peer, hash: Hash)
    requires ExchangeInv(s) && PullStep(s, s', d, hash)
    ensures SessionOk(s', d)
  {
    var t, t', session := s.nodes[d].t, s'.nodes[d].t, s.nodes[d].session.value;
    var sender := s.nodes[session.peer].t;
    assert SessionOk(s, d);
    if FlowOk(sender, t, session) {
      SameReceiverFlow(sender, t, t', session);
    }
  }

  lemma SameReceiverFlow(sender: Tables, t: Tables, t': Tables, session: Session)
    requires FlowOk(sender, t, session) && t'.rows == t.rows && t'.incoming == t.incoming
    ensures FlowOk(sender, t', session)
  {
    forall q, h | q in sender.rows && sender.rows[q].sequence <= session.last && h in sender.rows[q].versions
      ensures Reached(t', session.wire, q, h)
    {
      assert Reached(t, session.wire, q, h);
      assert VersionsAt(t', q) == VersionsAt(t, q) && IncomingAt(t', q) == IncomingAt(t, q);
    }
    if session.committed {
      forall q | q in sender.rows && sender.rows[q].sequence <= session.ceiling
        ensures Below(Elements(sender.rows[q].versions), Elements(VersionsAt(t', q)))
      {
        assert VersionsAt(t', q) == VersionsAt(t, q);
      }
    }
  }

  lemma SetCursorIsOk(s: System, s': System, d: Peer)
    requires ExchangeInv(s) && SetCursorStep(s, s', d)
    ensures CursorOk(s', d, s.nodes[d].session.value.peer)
  {
    assert SessionOk(s, d);
    var t, t', session := s.nodes[d].t, s'.nodes[d].t, s.nodes[d].session.value;
    var sender := s.nodes[session.peer].t;
    if sender.epoch == session.epoch && Flows(s.nodes[session.peer].mode, s.nodes[d].mode) {
      forall q | q in sender.rows && sender.rows[q].sequence <= session.ceiling
        ensures Below(Elements(sender.rows[q].versions), Elements(VersionsAt(t', q)))
      {
        assert VersionsAt(t', q) == VersionsAt(t, q);
      }
    }
  }

  lemma ExchangeStepSession(c: Codec, s: System, step: Step, s': System)
    requires Faithful(c) && CausalInv(c, s) && ExchangeInv(s) && Next(c, s, step, s') && IsExchange(step)
    ensures step.d in s'.nodes && (s'.nodes[step.d].session.Some? ==> SessionOk(s', step.d))
  {
    match step
    case Begin(d, from) => BeginIsOk(c, s, s', d, from);
    case Send(d, p) => SendIsOk(c, s, s', d, p);
    case Stage(d) => StageIsOk(c, s, s', d);
    case End(d) => EndIsOk(s, s', d);
    case Pull(d, hash) => PullIsOk(s, s', d, hash);
    case CommitDone(d) => CommitDoneIsOk(c, s, s', d);
    case _ =>
  }

  predicate IsSessionStart(step: Step) {
    step.Begin? || step.Send? || step.Stage? || step.End?
  }

  lemma SessionStartsOnlySession(c: Codec, s: System, step: Step, s': System)
    requires Faithful(c) && Next(c, s, step, s') && IsSessionStart(step)
    ensures OnlySession(s, s', step.d) && s'.nodes[step.d].t.cursors == s.nodes[step.d].t.cursors
  {}

  lemma SessionEndsOnlySession(c: Codec, s: System, step: Step, s': System)
    requires Faithful(c) && Next(c, s, step, s') && IsExchange(step) && !IsSessionStart(step)
    ensures OnlySession(s, s', step.d)
    ensures !step.SetCursor? ==> s'.nodes[step.d].t.cursors == s.nodes[step.d].t.cursors
  {}

  lemma ExchangeStepCursors(c: Codec, s: System, step: Step, s': System)
    requires Faithful(c) && CausalInv(c, s) && ExchangeInv(s) && Next(c, s, step, s') && IsExchange(step)
    ensures OnlySession(s, s', step.d)
    ensures forall q :: q in s'.nodes[step.d].t.cursors ==>
      CursorOk(s', step.d, q) ||
      (q in s.nodes[step.d].t.cursors && s'.nodes[step.d].t.cursors[q] == s.nodes[step.d].t.cursors[q])
  {
    if IsSessionStart(step) {
      SessionStartsOnlySession(c, s, step, s');
    } else {
      SessionEndsOnlySession(c, s, step, s');
      if step.SetCursor? { SetCursorIsOk(s, s', step.d); }
    }
  }

  lemma ExchangeStepKeepsExchange(c: Codec, s: System, step: Step, s': System)
    requires Faithful(c) && CausalInv(c, s) && ExchangeInv(s) && Next(c, s, step, s') && IsExchange(step)
    ensures ExchangeInv(s')
  {
    ExchangeStepSession(c, s, step, s');
    ExchangeStepCursors(c, s, step, s');
    SessionStepKeepsExchange(s, s', step.d);
  }

  // ---- New incarnations ----

  lemma NewcomerKeepsExchange(c: Codec, s: System, s': System, d: Peer)
    requires Faithful(c) && CausalInv(c, s) && ExchangeInv(s) && d in s'.nodes
    requires s'.nodes.Keys == s.nodes.Keys + {d} && forall e :: e in s.nodes && e != d ==> s'.nodes[e] == s.nodes[e]
    requires var t := s'.nodes[d].t;
      && t.epoch !in s.used && s'.used == s.used + {t.epoch} && t.cursors == map[] && s'.nodes[d].session == None
      && (d in s.nodes ==> s.nodes[d].t.objects <= t.objects)
    ensures ExchangeInv(s')
  {
    forall e, q | e in s'.nodes && q in s'.nodes[e].t.cursors ensures CursorOk(s', e, q) {
      assert CursorOk(s, e, q);
    }
    forall e | e in s'.nodes && s'.nodes[e].session.Some? ensures SessionOk(s', e) {
      assert SessionOk(s, e);
    }
  }

  lemma NextKeepsExchangeInv(c: Codec, s: System, step: Step, s': System)
    requires Faithful(c) && CausalInv(c, s) && ExchangeInv(s) && Next(c, s, step, s')
    ensures ExchangeInv(s')
  {
    if IsRowStep(step) {
      RowStepMoves(c, s, step, s');
      MoveKeepsExchange(s, s', step.d, step.p);
    } else if IsExchange(step) {
      ExchangeStepKeepsExchange(c, s, step, s');
    } else if step.Checkpoint? {
      SameNodesKeepExchange(s, s');
    } else {
      NewcomerKeepsExchange(c, s, s', step.d);
    }
  }

  lemma SameNodesKeepExchange(s: System, s': System)
    requires ExchangeInv(s) && s'.nodes == s.nodes && s'.used == s.used
    ensures ExchangeInv(s')
  {
    forall e, q | e in s'.nodes && q in s'.nodes[e].t.cursors ensures CursorOk(s', e, q) { assert CursorOk(s, e, q); }
    forall e | e in s'.nodes && s'.nodes[e].session.Some? ensures SessionOk(s', e) { assert SessionOk(s, e); }
  }
}
