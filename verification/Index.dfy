/**
 The tables of one folder index as a value, and what one path's worth of each operation does to them
 (src/share.rs). The class `Share` performs these operations page by page; `Network` interleaves them.
 */
module Index {
  import opened Results
  import opened Clocks
  import opened Ordering
  import opened Paths
  import opened Register
  import opened Lattice

  type Peer = string
  type Epoch = string

  datatype Mode = SendOnly | ReceiveOnly | Bidirectional

  datatype Row = Row(versions: Heads, materialized: Option<Content>, observed: Heads, sequence: nat)

  /** One row as it travels. */
  datatype Record = Record(path: Path, versions: Heads, sequence: nat)

  datatype Cursor = Cursor(epoch: Epoch, sequence: nat)

  datatype Tables = Tables(
    rows: map<Path, Row>,
    pending: set<Path>,
    incoming: map<Path, Heads>,
    needed: set<Hash>,
    history: set<(Path, Revision)>,
    cursors: map<Peer, Cursor>,
    sequence: nat,
    epoch: Epoch,
    recovering: bool,
    objects: set<Hash>)

  const SEQUENCE_LIMIT := 0x7FFF_FFFF_FFFF_FFFF

  function RowAt(t: Tables, p: Path): Option<Row> {
    if p in t.rows then Some(t.rows[p]) else None
  }

  function VersionsAt(t: Tables, p: Path): Heads {
    if p in t.rows then t.rows[p].versions else []
  }

  function ObservedAt(t: Tables, p: Path): Heads {
    if p in t.rows then t.rows[p].observed else []
  }

  function IncomingAt(t: Tables, p: Path): Heads {
    if p in t.incoming then t.incoming[p] else []
  }

  function Revisions(p: Path, heads: Heads): set<(Path, Revision)> {
    set r | r in heads :: (p, r)
  }

  function Hashes(heads: Heads): set<Hash> {
    set r | r in heads && r.content.File? :: r.content.hash
  }

  /** `save`: replace a row, retain superseded revisions, and renumber the row when its heads changed. */
  function Save(t: Tables, p: Path, versions: Heads, materialized: Option<Content>, observed: Heads): Result<Tables> {
    var changed := p !in t.rows || t.rows[p].versions != versions;
    if changed && t.sequence + 1 > SEQUENCE_LIMIT then Err(SequenceExhausted)
    else
      var number := if changed then t.sequence + 1 else t.rows[p].sequence;
      Ok(t.(
        rows := t.rows[p := Row(versions, materialized, observed, number)],
        history := t.history + Revisions(p, VersionsAt(t, p)) + Revisions(p, versions),
        sequence := if changed then t.sequence + 1 else t.sequence))
  }

  // ---- Scanning one path ----

  datatype Decision =
    | Keep                    // nothing to record
    | Adopt(observed: Heads)  // record what is on disk without a new revision
    | Issue(content: Content) // a local change: a new revision on top of what was observed
    | Review                  // a missing path awaits explicit approval

  predicate HasContent(heads: Heads, content: Content) {
    exists r :: r in heads && r.content == content
  }

  predicate Selects(c: Codec, heads: Heads, content: Content) {
    Selected(c, heads).Some? && Selected(c, heads).value.content == content
  }

  function DecidePresent(c: Codec, prior: Option<Row>, content: Content): Decision {
    if prior.Some? && prior.value.versions != prior.value.observed && HasContent(prior.value.versions, content) then
      Adopt(if Selects(c, prior.value.versions, content) then prior.value.versions else prior.value.observed)
    else if prior.Some? && prior.value.materialized == Some(content) then Keep
    else Issue(content)
  }

  function DecideMissing(c: Codec, prior: Row, approve: bool): Decision {
    if prior.versions != prior.observed && Selects(c, prior.versions, Deleted) then Adopt(prior.versions)
    else if prior.materialized.None? then Keep
    else if approve then Issue(Deleted)
    else Review
  }

  /** What a scan does about `p`, given what it found there. Only recorded paths can be missing. */
  function Decide(c: Codec, t: Tables, p: Path, found: Option<Content>, approve: bool): Decision
    requires found.Some? || p in t.rows
  {
    if found.Some? then DecidePresent(c, RowAt(t, p), found.value)
    else DecideMissing(c, t.rows[p], approve)
  }

  /** Issue `content` on top of what was observed at `p`, beside every head not observed. */
  ghost function IssueAt(c: Codec, t: Tables, p: Path, content: Content, found: Option<Content>): Result<Tables>
    requires Faithful(c)
  {
    var local :- Edited(c, ObservedAt(t, p), t.epoch, content);
    var combined :- if p in t.rows then Joined(c, t.rows[p].versions, local) else Ok(local);
    var saved :- Save(t, p, combined, found, local);
    Ok(saved.(pending := saved.pending - {p}))
  }

  ghost function ScanPath(c: Codec, t: Tables, p: Path, found: Option<Content>, approve: bool): Result<Tables>
    requires Faithful(c) && (found.Some? || p in t.rows)
  {
    match Decide(c, t, p, found, approve)
    case Keep => Ok(if found.Some? then t.(pending := t.pending - {p}) else t)
    case Adopt(observed) =>
      var saved :- Save(t, p, VersionsAt(t, p), found, observed);
      Ok(saved.(pending := saved.pending - {p}))
    case Issue(content) => IssueAt(c, t, p, content, found)
    case Review => Ok(t.(pending := t.pending + {p}))
  }

  // ---- Reviewed deletions, choices, application ----

  /** `approve_deletion`, after its scan; `found` is what is on disk at `p`. */
  ghost function ApproveReviewed(c: Codec, t: Tables, p: Path, expected: Heads, found: Option<Content>): Result<Tables>
    requires Faithful(c)
  {
    if p !in t.rows then Err(Unknown)
    else if p !in t.pending || t.rows[p].versions != expected || found.Some? then Err(StaleReview)
    else IssueAt(c, t, p, Deleted, None)
  }

  function Visible(content: Content): Option<Content> {
    if content == Deleted then None else Some(content)
  }

  /** The index half of `apply_local`, after the folder has been changed. */
  function Acknowledge(c: Codec, t: Tables, p: Path): Result<Tables> {
    if p !in t.rows then Err(Unknown)
    else if t.rows[p].versions == [] then Err(EmptyVersions)
    else
      var versions := t.rows[p].versions;
      Save(t, p, versions, Visible(Selected(c, versions).value.content), versions)
  }

  /** The first transaction of `choose`: one revision that observes every head. */
  ghost function Resolve(c: Codec, t: Tables, p: Path, content: Content, actual: Option<Content>): Result<Tables>
    requires Faithful(c)
  {
    if p !in t.rows then Err(Unknown)
    else
      var versions :- Edited(c, t.rows[p].versions, t.epoch, content);
      var saved :- Save(t, p, versions, actual, t.rows[p].observed);
      Ok(saved.(pending := saved.pending - {p}))
  }

  /** `choose` carried through to the end. */
  ghost function Choose(c: Codec, t: Tables, p: Path, content: Content, actual: Option<Content>): Result<Tables>
    requires Faithful(c)
  {
    var resolved :- Resolve(c, t, p, content, actual);
    Acknowledge(c, resolved, p)
  }

  // ---- Receiving ----

  ghost function StageOne(c: Codec, t: Tables, p: Path, remote: Heads): Result<Tables>
    requires Faithful(c)
  {
    var validated :- Joined(c, [], remote);
    if validated == [] then Err(EmptyVersions)
    else Ok(t.(incoming := t.incoming[p := validated], needed := t.needed + (Hashes(validated) - t.objects)))
  }

  ghost function CommitOne(c: Codec, t: Tables, p: Path): Result<Tables>
    requires Faithful(c) && p in t.incoming
  {
    var versions :- if p in t.rows then Joined(c, t.rows[p].versions, t.incoming[p]) else Ok(t.incoming[p]);
    Save(t, p, versions, if p in t.rows then t.rows[p].materialized else None, ObservedAt(t, p))
  }

  function Received(t: Tables, hash: Hash): Tables {
    t.(objects := t.objects + {hash}, needed := t.needed - {hash})
  }

  function Captured(t: Tables, found: Option<Content>): Tables {
    if found.Some? && found.value.File? then t.(objects := t.objects + {found.value.hash}) else t
  }

  // ---- The checkpoint validator's conditions (validate.rs) and object closure ----

  /** What a directory entry can hold: never a deletion, and hashes are hashes. */
  predicate OnDisk(found: Option<Content>) {
    found.Some? ==> found.value != Deleted && (found.value.File? ==> ValidHash(found.value.hash))
  }

  predicate Stored(t: Tables, found: Option<Content>) {
    found.Some? && found.value.File? ==> found.value.hash in t.objects
  }

  ghost predicate RowSound(c: Codec, t: Tables, p: Path)
    requires Faithful(c) && p in t.rows
  {
    var row := t.rows[p];
    && Normal(c, row.versions) && row.versions != []
    && Normal(c, row.observed)
    && OnDisk(row.materialized) && Stored(t, row.materialized)
    && 0 < row.sequence <= t.sequence
    && Revisions(p, row.versions) <= t.history
    && Hashes(row.versions) + Hashes(row.observed) <= t.objects
  }

  ghost predicate IncomingSound(c: Codec, t: Tables, p: Path)
    requires Faithful(c) && p in t.incoming
  {
    && Normal(c, t.incoming[p]) && t.incoming[p] != []
    && Hashes(t.incoming[p]) <= t.objects + t.needed
  }

  ghost predicate Sound(c: Codec, t: Tables)
    requires Faithful(c)
  {
    && (forall p {:trigger RowSound(c, t, p)} :: p in t.rows ==> RowSound(c, t, p))
    && (forall p, q :: p in t.rows && q in t.rows && p != q ==> t.rows[p].sequence != t.rows[q].sequence)
    && t.pending <= t.rows.Keys
    && (forall p {:trigger IncomingSound(c, t, p)} :: p in t.incoming ==> IncomingSound(c, t, p))
    && (forall h :: h in t.history ==> Defect(h.1).None? && Stored(t, Some(h.1.content)))
    && t.sequence <= SEQUENCE_LIMIT
  }

  ghost predicate Savable(c: Codec, t: Tables, versions: Heads, materialized: Option<Content>, observed: Heads)
    requires Faithful(c)
  {
    && Normal(c, versions) && versions != [] && Normal(c, observed)
    && OnDisk(materialized) && Stored(t, materialized)
    && Hashes(versions) + Hashes(observed) <= t.objects
  }

  /** The one place where rows change. */
  lemma SaveKeepsSound(c: Codec, t: Tables, p: Path, versions: Heads, materialized: Option<Content>, observed: Heads)
    requires Faithful(c) && Sound(c, t) && Save(t, p, versions, materialized, observed).Ok?
    requires Savable(c, t, versions, materialized, observed)
    ensures Sound(c, Save(t, p, versions, materialized, observed).value)
  {
    var after := Save(t, p, versions, materialized, observed).value;
    forall q | q in after.rows ensures RowSound(c, after, q) {
      SavedRowSound(c, t, p, versions, materialized, observed, q);
    }
    forall q, r | q in after.rows && r in after.rows && q != r
      ensures after.rows[q].sequence != after.rows[r].sequence
    {
      if q in t.rows { assert RowSound(c, t, q); }
      if r in t.rows { assert RowSound(c, t, r); }
    }
    forall q | q in after.incoming ensures IncomingSound(c, after, q) {
      assert IncomingSound(c, t, q);
    }
    forall h | h in after.history ensures Defect(h.1).None? && Stored(after, Some(h.1.content)) {
      SavedHistorySound(c, t, p, versions, materialized, observed, h);
    }
  }

  lemma SavedRowSound(c: Codec, t: Tables, p: Path, versions: Heads, materialized: Option<Content>, observed: Heads, q: Path)
    requires Faithful(c) && Sound(c, t) && Save(t, p, versions, materialized, observed).Ok?
    requires Savable(c, t, versions, materialized, observed)
    requires q in Save(t, p, versions, materialized, observed).value.rows
    ensures RowSound(c, Save(t, p, versions, materialized, observed).value, q)
  {
    if q in t.rows { assert RowSound(c, t, q); }
  }

  lemma SavedHistorySound(c: Codec, t: Tables, p: Path, versions: Heads, materialized: Option<Content>, observed: Heads, h: (Path, Revision))
    requires Faithful(c) && Sound(c, t) && Save(t, p, versions, materialized, observed).Ok?
    requires Savable(c, t, versions, materialized, observed)
    requires h in Save(t, p, versions, materialized, observed).value.history
    ensures Defect(h.1).None? && Stored(t, Some(h.1.content))
  {
    if p in t.rows { assert RowSound(c, t, p); }
    if h !in t.history {
      NormalForm(c, versions);
      assert h.1 in versions;
      if h.1.content.File? { assert h.1.content.hash in Hashes(versions); }
    }
  }

  lemma WithPendingKeepsSound(c: Codec, t: Tables, pending: set<Path>)
    requires Faithful(c) && Sound(c, t) && pending <= t.rows.Keys
    ensures Sound(c, t.(pending := pending))
  {
    var after := t.(pending := pending);
    forall q | q in after.rows ensures RowSound(c, after, q) { assert RowSound(c, t, q); }
    forall q | q in after.incoming ensures IncomingSound(c, after, q) { assert IncomingSound(c, t, q); }
  }

  lemma JoinedHashes(c: Codec, a: Heads, b: Heads)
    requires Faithful(c) && Joined(c, a, b).Ok?
    ensures Hashes(Joined(c, a, b).value) <= Hashes(a) + Hashes(b)
    ensures a != [] || b != [] ==> Joined(c, a, b).value != []
  {
    JoinedHeads(c, a, b);
    var j := Joined(c, a, b).value;
    var s := Elements(a) + Elements(b);
    assert forall r :: r in j ==> r in Elements(j);
    if a + b != [] {
      assert (a + b)[0] in s;
      var m := MaximalAbove(s, (a + b)[0]);
      assert m in Elements(j);
    }
  }

  lemma EditedHeads(c: Codec, heads: Heads, device: Device, content: Content)
    requires Faithful(c) && Edited(c, heads, device, content).Ok?
    ensures NextRevision(heads, device, content).Ok?
    ensures Edited(c, heads, device, content).value == [NextRevision(heads, device, content).value]
    ensures Normal(c, Edited(c, heads, device, content).value)
    ensures Defect(NextRevision(heads, device, content).value).None?
  {
    var next := NextRevision(heads, device, content).value;
    JoinIsNormal(c, [], [next]);
    JoinedHeads(c, [], [next]);
    assert next in [] + [next];
    var j := Joined(c, [], [next]).value;
    assert Compare(next.clock, next.clock) == Equal;
    assert Elements(j) == {next};
    ByIdIsStrictTotal(c);
    assert Elements([next]) == {next};
    AscendingIsUnique(ById(c), j, [next]);
  }

  lemma IssueKeepsSound(c: Codec, t: Tables, p: Path, content: Content, found: Option<Content>)
    requires Faithful(c) && Sound(c, t) && IssueAt(c, t, p, content, found).Ok?
    requires OnDisk(found) && Stored(t, found) && (content.File? ==> content.hash in t.objects)
    ensures Sound(c, IssueAt(c, t, p, content, found).value)
  {
    EditedHeads(c, ObservedAt(t, p), t.epoch, content);
    var local := Edited(c, ObservedAt(t, p), t.epoch, content).value;
    var combined := local;
    assert Hashes(local) <= t.objects;
    if p in t.rows {
      assert RowSound(c, t, p);
      combined := Joined(c, t.rows[p].versions, local).value;
      JoinIsNormal(c, t.rows[p].versions, local);
      JoinedHashes(c, t.rows[p].versions, local);
    }
    SaveKeepsSound(c, t, p, combined, found, local);
    var saved := Save(t, p, combined, found, local).value;
    WithPendingKeepsSound(c, saved, saved.pending - {p});
  }

  lemma AdoptKeepsSound(c: Codec, t: Tables, p: Path, found: Option<Content>, observed: Heads)
    requires Faithful(c) && Sound(c, t) && p in t.rows && OnDisk(found) && Stored(t, found)
    requires observed == t.rows[p].versions || observed == t.rows[p].observed
    requires Save(t, p, t.rows[p].versions, found, observed).Ok?
    ensures var saved := Save(t, p, t.rows[p].versions, found, observed).value;
      Sound(c, saved.(pending := saved.pending - {p}))
  {
    assert RowSound(c, t, p);
    SaveKeepsSound(c, t, p, t.rows[p].versions, found, observed);
    var saved := Save(t, p, t.rows[p].versions, found, observed).value;
    WithPendingKeepsSound(c, saved, saved.pending - {p});
  }

  /** Scanning keeps the index well-formed and closed under objects, whatever is on disk. */
  lemma ScanKeepsSound(c: Codec, t: Tables, p: Path, found: Option<Content>, approve: bool)
    requires Faithful(c) && Sound(c, t) && (found.Some? || p in t.rows)
    requires OnDisk(found) && Stored(t, found) && ScanPath(c, t, p, found, approve).Ok?
    ensures Sound(c, ScanPath(c, t, p, found, approve).value)
  {
    match Decide(c, t, p, found, approve)
    case Keep => WithPendingKeepsSound(c, t, t.pending - {p});
    case Adopt(observed) => AdoptKeepsSound(c, t, p, found, observed);
    case Issue(content) => IssueKeepsSound(c, t, p, content, found);
    case Review => WithPendingKeepsSound(c, t, t.pending + {p});
  }

  lemma AcknowledgeKeepsSound(c: Codec, t: Tables, p: Path)
    requires Faithful(c) && Sound(c, t) && Acknowledge(c, t, p).Ok?
    ensures Sound(c, Acknowledge(c, t, p).value)
  {
    assert RowSound(c, t, p);
    var versions := t.rows[p].versions;
    var content := Selected(c, versions).value.content;
    NormalForm(c, versions);
    assert Defect(Selected(c, versions).value).None?;
    if content.File? { assert content.hash in Hashes(versions); }
    SaveKeepsSound(c, t, p, versions, Visible(content), versions);
  }

  lemma ResolveKeepsSound(c: Codec, t: Tables, p: Path, content: Content, actual: Option<Content>)
    requires Faithful(c) && Sound(c, t) && Resolve(c, t, p, content, actual).Ok?
    requires OnDisk(actual) && Stored(t, actual) && (content.File? ==> content.hash in t.objects)
    ensures Sound(c, Resolve(c, t, p, content, actual).value)
  {
    assert RowSound(c, t, p);
    EditedHeads(c, t.rows[p].versions, t.epoch, content);
    var versions := Edited(c, t.rows[p].versions, t.epoch, content).value;
    SaveKeepsSound(c, t, p, versions, actual, t.rows[p].observed);
    var saved := Save(t, p, versions, actual, t.rows[p].observed).value;
    WithPendingKeepsSound(c, saved, saved.pending - {p});
  }

  lemma ChooseKeepsSound(c: Codec, t: Tables, p: Path, content: Content, actual: Option<Content>)
    requires Faithful(c) && Sound(c, t) && Choose(c, t, p, content, actual).Ok?
    requires OnDisk(actual) && Stored(t, actual) && (content.File? ==> content.hash in t.objects)
    ensures Sound(c, Choose(c, t, p, content, actual).value)
  {
    ResolveKeepsSound(c, t, p, content, actual);
    AcknowledgeKeepsSound(c, Resolve(c, t, p, content, actual).value, p);
  }

  lemma StageKeepsSound(c: Codec, t: Tables, p: Path, remote: Heads)
    requires Faithful(c) && Sound(c, t) && StageOne(c, t, p, remote).Ok?
    ensures Sound(c, StageOne(c, t, p, remote).value)
  {
    var after := StageOne(c, t, p, remote).value;
    JoinIsNormal(c, [], remote);
    forall q | q in after.rows ensures RowSound(c, after, q) { assert RowSound(c, t, q); }
    forall q | q in after.incoming ensures IncomingSound(c, after, q) {
      if q != p { assert IncomingSound(c, t, q); }
    }
  }

  /** An object may only be dropped from the request list once it is present, so closure survives commit. */
  lemma CommitKeepsSound(c: Codec, t: Tables, p: Path)
    requires Faithful(c) && Sound(c, t) && p in t.incoming && t.needed == {} && CommitOne(c, t, p).Ok?
    ensures Sound(c, CommitOne(c, t, p).value)
  {
    assert IncomingSound(c, t, p);
    if p in t.rows {
      assert RowSound(c, t, p);
      JoinIsNormal(c, t.rows[p].versions, t.incoming[p]);
      JoinedHashes(c, t.rows[p].versions, t.incoming[p]);
      SaveKeepsSound(c, t, p, Joined(c, t.rows[p].versions, t.incoming[p]).value, t.rows[p].materialized, t.rows[p].observed);
    } else {
      NormalForm(c, []);
      SaveKeepsSound(c, t, p, t.incoming[p], None, []);
    }
  }

  lemma ReceivedKeepsSound(c: Codec, t: Tables, hash: Hash)
    requires Faithful(c) && Sound(c, t)
    ensures Sound(c, Received(t, hash))
    ensures Sound(c, t.(objects := t.objects + {hash}))
  {
    forall after | after == Received(t, hash) || after == t.(objects := t.objects + {hash})
      ensures Sound(c, after)
    {
      forall q | q in after.rows ensures RowSound(c, after, q) { assert RowSound(c, t, q); }
      forall q | q in after.incoming ensures IncomingSound(c, after, q) { assert IncomingSound(c, t, q); }
    }
  }
}
