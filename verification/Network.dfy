/**
 Any number of devices sharing one folder: local scans, reviewed deletions, choices, applications,
 metadata sessions that may stop anywhere, checkpoints, and index rollbacks under a fresh epoch
 (src/share.rs, src/sync.rs, src/share/backup.rs). Steps act on one path or one record at a time, so
 every transaction of the original is a sequence of steps.
 */
module Network {
  import opened Results
  import opened Clocks
  import opened Ordering
  import opened Paths
  import opened Register
  import opened Lattice
  import opened Causality
  import opened Index
  import opened ApplyOrder

  /**
   The receiving side of a session: the sender and its epoch and sequence as its hello gave them, how
   far the sender has read its rows, the records on the wire, and how far the receiver has staged.
   */
  datatype Session = Session(peer: Peer, epoch: Epoch, ceiling: nat, last: nat, wire: seq<Record>,
                             staged: nat, ended: bool, committed: bool)

  datatype Node = Node(t: Tables, mode: Mode, session: Option<Session>)

  datatype System = System(nodes: map<Peer, Node>, logs: map<Path, Log>, checkpoints: set<Tables>, used: set<Epoch>)

  function LogAt(logs: map<Path, Log>, p: Path): Log {
    if p in logs then logs[p] else map[]
  }

  /** Whether the two direction modes let rows travel. */
  predicate Flows(sender: Mode, receiver: Mode) {
    sender != ReceiveOnly && receiver != SendOnly
  }

  function WithTables(s: System, d: Peer, t: Tables): System
    requires d in s.nodes
  {
    s.(nodes := s.nodes[d := s.nodes[d].(t := t)])
  }

  function WithSession(s: System, d: Peer, session: Option<Session>): System
    requires d in s.nodes
  {
    s.(nodes := s.nodes[d := s.nodes[d].(session := session)])
  }

  /** The log after `d` issues `content` at `p` on top of `base`. */
  function LogIssue(s: System, d: Peer, p: Path, base: Heads, content: Content, cause: Cause): map<Path, Log>
    requires d in s.nodes && NextRevision(base, s.nodes[d].t.epoch, content).Ok?
  {
    var epoch := s.nodes[d].t.epoch;
    s.logs[p := Recorded(LogAt(s.logs, p), NextRevision(base, epoch, content).value, epoch, base, cause)]
  }

  // ---- Steps ----

  datatype Step =
    | Create(d: Peer, epoch: Epoch, mode: Mode)
    | Scan(d: Peer, p: Path, found: Option<Content>, approve: bool)
    | Approve(d: Peer, p: Path, expected: Heads)
    | Resolving(d: Peer, p: Path, content: Content, actual: Option<Content>)
    | Apply(d: Peer, p: Path)
    | Checkpoint(d: Peer)
    | Rollback(d: Peer, saved: Tables, epoch: Epoch, recovering: bool)
    | Begin(d: Peer, from: Peer)
    | Send(d: Peer, p: Path)
    | Stage(d: Peer)
    | End(d: Peer)
    | Pull(d: Peer, hash: Hash)
    | Commit(d: Peer, p: Path)
    | CommitDone(d: Peer)
    | SetCursor(d: Peer)
    | Drop(d: Peer)

  function ScanCause(found: Option<Content>, approve: bool): Cause {
    if found.Some? then ScannedEdit else if approve then ApprovedScan else UnapprovedScan
  }

  ghost predicate ScanStep(c: Codec, s: System, s': System, d: Peer, p: Path, found: Option<Content>, approve: bool)
    requires Faithful(c)
  {
    && d in s.nodes && OnDisk(found) && (found.Some? || p in s.nodes[d].t.rows)
    && var t := Captured(s.nodes[d].t, found);
    && var after := ScanPath(c, t, p, found, approve);
    && after.Ok?
    && var decision := Decide(c, t, p, found, approve);
    && (decision.Issue? ==> NextRevision(ObservedAt(t, p), t.epoch, decision.content).Ok?)
    && s' == WithTables(s, d, after.value).(logs :=
         if decision.Issue? then
           LogIssue(s, d, p, ObservedAt(t, p), decision.content, ScanCause(found, approve))
         else s.logs)
  }

  ghost predicate ApproveStep(c: Codec, s: System, s': System, d: Peer, p: Path, expected: Heads)
    requires Faithful(c)
  {
    && d in s.nodes
    && var t := s.nodes[d].t;
    && var after := ApproveReviewed(c, t, p, expected, None);
    && after.Ok?
    && NextRevision(ObservedAt(t, p), t.epoch, Deleted).Ok?
    && s' == WithTables(s, d, after.value).(logs := LogIssue(s, d, p, ObservedAt(t, p), Deleted, ReviewedDeletion))
  }

  ghost predicate Retained(t: Tables, p: Path, content: Content) {
    exists r :: (p, r) in t.history && r.content == content
  }

  /** `choose` as one step: the chosen content is that of a head or of a retained older revision. */
  ghost predicate ChooseStep(c: Codec, s: System, s': System, d: Peer, p: Path, content: Content, actual: Option<Content>)
    requires Faithful(c)
  {
    && d in s.nodes && OnDisk(actual)
    && var t := Captured(s.nodes[d].t, actual);
    && Retained(t, p, content)
    && var after := Index.Choose(c, t, p, content, actual);
    && after.Ok?
    && NextRevision(VersionsAt(t, p), t.epoch, content).Ok?
    && s' == WithTables(s, d, after.value).(logs := LogIssue(s, d, p, VersionsAt(t, p), content, Choice))
  }

  ghost predicate ApplyStep(c: Codec, s: System, s': System, d: Peer, p: Path) {
    && d in s.nodes && p in Candidates(s.nodes[d].t)
    && Acknowledge(c, s.nodes[d].t, p).Ok?
    && s' == WithTables(s, d, Acknowledge(c, s.nodes[d].t, p).value)
  }

  /** What a checkpoint keeps: everything but exchanges in flight (backup.rs:127). */
  function Snapshot(t: Tables): Tables {
    t.(incoming := map[], needed := {})
  }

  /** The replacement index (backup.rs:435-445): a checkpoint under a fresh epoch, without cursors. */
  function Restored(saved: Tables, epoch: Epoch, recovering: bool, objects: set<Hash>): Tables {
    saved.(cursors := map[], incoming := map[], needed := {}, epoch := epoch, recovering := recovering,
           objects := objects + saved.objects)
  }

  function EmptyTables(epoch: Epoch): Tables {
    Tables(map[], {}, map[], {}, {}, map[], 0, epoch, false, {})
  }

  ghost predicate CreateStep(s: System, s': System, d: Peer, epoch: Epoch, mode: Mode) {
    && d !in s.nodes && epoch !in s.used && ValidDevice(epoch)
    && s' == s.(nodes := s.nodes[d := Node(EmptyTables(epoch), mode, None)], used := s.used + {epoch})
  }

  ghost predicate RollbackStep(s: System, s': System, d: Peer, saved: Tables, epoch: Epoch, recovering: bool) {
    && d in s.nodes && saved in s.checkpoints && epoch !in s.used && ValidDevice(epoch)
    && s' == s.(nodes := s.nodes[d := Node(Restored(saved, epoch, recovering, s.nodes[d].t.objects), s.nodes[d].mode, None)],
                used := s.used + {epoch})
  }

  /** Where the sender starts: the receiver's cursor, if it is for the sender's current epoch (sync.rs:66-70). */
  function Since(receiver: Tables, from: Peer, sender: Tables): nat {
    if from in receiver.cursors && receiver.cursors[from].epoch == sender.epoch then receiver.cursors[from].sequence else 0
  }

  ghost predicate BeginStep(s: System, s': System, d: Peer, from: Peer) {
    && d in s.nodes && from in s.nodes && d != from
    && var t, sender := s.nodes[d].t, s.nodes[from].t;
    && (Flows(s.nodes[from].mode, s.nodes[d].mode) ==> Since(t, from, sender) <= sender.sequence)
    && s' == s.(nodes := s.nodes[d := Node(t.(incoming := map[], needed := {}), s.nodes[d].mode,
         Some(Session(from, sender.epoch, sender.sequence, Since(t, from, sender), [], 0, false, false)))])
  }

  /** A session in which rows flow, whose sender is still the same incarnation. */
  predicate Live(s: System, d: Peer) {
    && d in s.nodes && s.nodes[d].session.Some?
    && var session := s.nodes[d].session.value;
    && session.peer in s.nodes && s.nodes[session.peer].t.epoch == session.epoch
  }

  predicate Sendable(sender: Tables, session: Session, p: Path) {
    p in sender.rows && session.last < sender.rows[p].sequence <= session.ceiling
  }

  /** The next row in sequence order goes on the wire. */
  ghost predicate SendStep(s: System, s': System, d: Peer, p: Path) {
    && Live(s, d)
    && var session := s.nodes[d].session.value;
    && var sender := s.nodes[session.peer].t;
    && !session.ended && Flows(s.nodes[session.peer].mode, s.nodes[d].mode)
    && Sendable(sender, session, p)
    && (forall q :: Sendable(sender, session, q) ==> sender.rows[p].sequence <= sender.rows[q].sequence)
    && var row := sender.rows[p];
    && s' == WithSession(s, d, Some(session.(last := row.sequence,
         wire := session.wire + [Record(p, row.versions, row.sequence)])))
  }

  ghost predicate StageStep(c: Codec, s: System, s': System, d: Peer)
    requires Faithful(c)
  {
    && d in s.nodes && s.nodes[d].session.Some?
    && var session := s.nodes[d].session.value;
    && session.wire != []
    && var record := session.wire[0];
    && session.staged < record.sequence <= session.ceiling
    && var after := StageOne(c, s.nodes[d].t, record.path, record.versions);
    && after.Ok?
    && s' == s.(nodes := s.nodes[d := Node(after.value, s.nodes[d].mode,
         Some(session.(wire := session.wire[1..], staged := record.sequence)))])
  }

  /** The sender has no further row up to its hello's sequence (or the modes let none travel). */
  ghost predicate EndStep(s: System, s': System, d: Peer) {
    && Live(s, d)
    && var session := s.nodes[d].session.value;
    && session.wire == [] && !session.ended
    && (Flows(s.nodes[session.peer].mode, s.nodes[d].mode) ==>
          forall q :: !Sendable(s.nodes[session.peer].t, session, q))
    && s' == WithSession(s, d, Some(session.(ended := true)))
  }

  ghost predicate PullStep(s: System, s': System, d: Peer, hash: Hash) {
    && d in s.nodes && s.nodes[d].session.Some? && hash in s.nodes[d].t.needed
    && var session := s.nodes[d].session.value;
    && session.peer in s.nodes && hash in s.nodes[session.peer].t.objects
    && s' == WithTables(s, d, Received(s.nodes[d].t, hash))
  }

  ghost predicate Committable(s: System, d: Peer) {
    && d in s.nodes && s.nodes[d].session.Some?
    && s.nodes[d].session.value.ended && !s.nodes[d].session.value.committed
    && s.nodes[d].t.needed == {}
  }

  ghost predicate CommitStep(c: Codec, s: System, s': System, d: Peer, p: Path)
    requires Faithful(c)
  {
    && Committable(s, d) && s.nodes[d].mode != SendOnly && p in s.nodes[d].t.incoming
    && CommitOne(c, s.nodes[d].t, p).Ok?
    && s' == WithTables(s, d, CommitOne(c, s.nodes[d].t, p).value)
  }

  /** The end of the commit transaction: every staged path has been joined. */
  ghost predicate CommitDoneStep(s: System, s': System, d: Peer) {
    && Committable(s, d)
    && var t := s.nodes[d].t;
    && (s.nodes[d].mode != SendOnly ==>
          forall p :: p in t.incoming ==> Below(Elements(t.incoming[p]), Elements(VersionsAt(t, p))))
    && s' == s.(nodes := s.nodes[d := Node(t.(incoming := map[]), s.nodes[d].mode,
         Some(s.nodes[d].session.value.(committed := true)))])
  }

  ghost predicate SetCursorStep(s: System, s': System, d: Peer) {
    && d in s.nodes && s.nodes[d].session.Some?
    && var session := s.nodes[d].session.value;
    && session.committed
    && var t := s.nodes[d].t;
    && s' == s.(nodes := s.nodes[d := Node(t.(cursors := t.cursors[session.peer := Cursor(session.epoch, session.ceiling)]),
         s.nodes[d].mode, None)])
  }

  ghost predicate Next(c: Codec, s: System, step: Step, s': System)
    requires Faithful(c)
  {
    match step
    case Create(d, epoch, mode) => CreateStep(s, s', d, epoch, mode)
    case Scan(d, p, found, approve) => ScanStep(c, s, s', d, p, found, approve)
    case Approve(d, p, expected) => ApproveStep(c, s, s', d, p, expected)
    case Resolving(d, p, content, actual) => ChooseStep(c, s, s', d, p, content, actual)
    case Apply(d, p) => ApplyStep(c, s, s', d, p)
    case Checkpoint(d) => d in s.nodes && s' == s.(checkpoints := s.checkpoints + {Snapshot(s.nodes[d].t)})
    case Rollback(d, saved, epoch, recovering) => RollbackStep(s, s', d, saved, epoch, recovering)
    case Begin(d, from) => BeginStep(s, s', d, from)
    case Send(d, p) => SendStep(s, s', d, p)
    case Stage(d) => StageStep(c, s, s', d)
    case End(d) => EndStep(s, s', d)
    case Pull(d, hash) => PullStep(s, s', d, hash)
    case Commit(d, p) => CommitStep(c, s, s', d, p)
    case CommitDone(d) => CommitDoneStep(s, s', d)
    case SetCursor(d) => SetCursorStep(s, s', d)
    case Drop(d) => d in s.nodes && s' == WithSession(s, d, None)
  }

  ghost predicate Initial(s: System) {
    s == System(map[], map[], {}, {})
  }
}
