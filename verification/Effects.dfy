/** What the operations on one path have in common: other rows stay, and heads only move forward. */
module Effects {
  import opened Results
  import opened Clocks
  import opened Ordering
  import opened Paths
  import opened Register
  import opened Lattice
  import opened Index

  /** Only the row at `p`, reviews and the sequence may differ; history and the object cache may grow. */
  predicate RowOnly(t: Tables, t': Tables, p: Path) {
    && t'.epoch == t.epoch && t'.incoming == t.incoming && t'.cursors == t.cursors && t'.needed == t.needed
    && t.objects <= t'.objects && t.history <= t'.history
    && t'.rows.Keys <= t.rows.Keys + {p} && t.rows.Keys <= t'.rows.Keys
    && (forall q :: q in t.rows && q != p ==> t'.rows[q] == t.rows[q])
  }

  /** The heads at `p` cover the old ones, and a row with new heads is numbered past every cursor. */
  ghost predicate Forward(t: Tables, t': Tables, p: Path) {
    && t.sequence <= t'.sequence
    && Below(Elements(VersionsAt(t, p)), Elements(VersionsAt(t', p)))
    && (p in t'.rows ==>
          || (p in t.rows && t'.rows[p].versions == t.rows[p].versions && t'.rows[p].sequence == t.rows[p].sequence)
          || t'.rows[p].sequence > t.sequence)
  }

  ghost predicate Moves(t: Tables, t': Tables, p: Path) {
    RowOnly(t, t', p) && Forward(t, t', p)
  }

  lemma SaveMoves(t: Tables, p: Path, versions: Heads, materialized: Option<Content>, observed: Heads, pending: set<Path>)
    requires Save(t, p, versions, materialized, observed).Ok?
    requires Below(Elements(VersionsAt(t, p)), Elements(versions))
    ensures Moves(t, Save(t, p, versions, materialized, observed).value.(pending := pending), p)
  {}

  lemma StillMoves(t: Tables, pending: set<Path>, p: Path)
    ensures Moves(t, t.(pending := pending), p)
  {
    BelowReflexive(Elements(VersionsAt(t, p)));
  }

  /** The row an issue leaves: observed is the new revision, which sits beside or above the old heads. */
  ghost predicate IssuedRow(c: Codec, t: Tables, after: Tables, p: Path, base: Heads, content: Content)
    requires Faithful(c)
  {
    && NextRevision(base, t.epoch, content).Ok?
    && var next := NextRevision(base, t.epoch, content).value;
    && Defect(next).None?
    && p in after.rows && after.rows[p].observed == [next]
    && Elements(after.rows[p].versions) == Maximal(Elements(VersionsAt(t, p)) + {next})
  }

  lemma IssueEffect(c: Codec, t: Tables, p: Path, content: Content, found: Option<Content>)
    requires Faithful(c) && IssueAt(c, t, p, content, found).Ok?
    ensures var after := IssueAt(c, t, p, content, found).value;
      Moves(t, after, p) && IssuedRow(c, t, after, p, ObservedAt(t, p), content) && after.rows[p].materialized == found
  {
    EditedHeads(c, ObservedAt(t, p), t.epoch, content);
    var local := Edited(c, ObservedAt(t, p), t.epoch, content).value;
    var combined := if p in t.rows then Joined(c, t.rows[p].versions, local).value else local;
    CombinedHeads(c, t, p, NextRevision(ObservedAt(t, p), t.epoch, content).value);
    var saved := Save(t, p, combined, found, local).value;
    SaveMoves(t, p, combined, found, local, saved.pending - {p});
  }

  lemma CombinedHeads(c: Codec, t: Tables, p: Path, next: Revision)
    requires Faithful(c) && (p in t.rows ==> Joined(c, t.rows[p].versions, [next]).Ok?)
    ensures var combined := if p in t.rows then Joined(c, t.rows[p].versions, [next]).value else [next];
      && Elements(combined) == Maximal(Elements(VersionsAt(t, p)) + {next})
      && Below(Elements(VersionsAt(t, p)), Elements(combined))
  {
    assert Elements([next]) == {next};
    if p in t.rows {
      JoinedHeads(c, t.rows[p].versions, [next]);
      JoinIsLeastUpperBound(c, t.rows[p].versions, [next], []);
    } else {
      assert Compare(next.clock, next.clock) == Equal;
      assert Elements<Revision>([]) + {next} == {next};
    }
  }

  /** The row stays, and with it its heads; what is observed stays or becomes all the heads. */
  predicate Quiet(t: Tables, t': Tables, p: Path) {
    && p in t.rows && p in t'.rows && t'.rows[p].versions == t.rows[p].versions
    && (t'.rows[p].observed == t.rows[p].observed || t'.rows[p].observed == t.rows[p].versions)
  }

  /** A scan issues on top of what was observed, or leaves the heads alone. */
  lemma ScanEffect(c: Codec, t: Tables, p: Path, found: Option<Content>, approve: bool)
    requires Faithful(c) && (found.Some? || p in t.rows) && found != Some(Deleted)
    requires ScanPath(c, t, p, found, approve).Ok?
    ensures var after := ScanPath(c, t, p, found, approve).value;
      && Moves(t, after, p)
      && match Decide(c, t, p, found, approve)
         case Issue(content) =>
           IssuedRow(c, t, after, p, ObservedAt(t, p), content) && (content == Deleted <==> found.None?) && (found.None? ==> approve)
         case _ => Quiet(t, after, p)
  {
    BelowReflexive(Elements(VersionsAt(t, p)));
    match Decide(c, t, p, found, approve)
    case Keep => StillMoves(t, t.pending - {p}, p);
    case Adopt(observed) =>
      var saved := Save(t, p, VersionsAt(t, p), found, observed).value;
      SaveMoves(t, p, VersionsAt(t, p), found, observed, saved.pending - {p});
    case Issue(content) => IssueEffect(c, t, p, content, found);
    case Review => StillMoves(t, t.pending + {p}, p);
  }

  lemma AcknowledgeMoves(c: Codec, t: Tables, p: Path)
    requires Acknowledge(c, t, p).Ok?
    ensures Moves(t, Acknowledge(c, t, p).value, p)
    ensures VersionsAt(Acknowledge(c, t, p).value, p) == VersionsAt(t, p) == ObservedAt(Acknowledge(c, t, p).value, p)
  {
    BelowReflexive(Elements(VersionsAt(t, p)));
    var versions := t.rows[p].versions;
    SaveMoves(t, p, versions, Visible(Selected(c, versions).value.content), versions, t.pending);
  }

  lemma ChooseEffect(c: Codec, t: Tables, p: Path, content: Content, actual: Option<Content>)
    requires Faithful(c) && Choose(c, t, p, content, actual).Ok?
    ensures var after := Choose(c, t, p, content, actual).value;
      && Moves(t, after, p)
      && NextRevision(VersionsAt(t, p), t.epoch, content).Ok?
      && Defect(NextRevision(VersionsAt(t, p), t.epoch, content).value).None?
      && p in after.rows
      && after.rows[p].versions == after.rows[p].observed == [NextRevision(VersionsAt(t, p), t.epoch, content).value]
  {
    var heads := t.rows[p].versions;
    EditedHeads(c, heads, t.epoch, content);
    EditSupersedesItsBase(c, heads, t.epoch, content);
    var next := NextRevision(heads, t.epoch, content).value;
    assert Elements([next]) == {next};
    forall h | h in Elements(heads) ensures Covered(h, {next}) {
      assert Leq(h.clock, next.clock);
    }
    var saved := Save(t, p, [next], actual, t.rows[p].observed).value;
    SaveMoves(t, p, [next], actual, t.rows[p].observed, saved.pending - {p});
    AcknowledgeMoves(c, Resolve(c, t, p, content, actual).value, p);
  }

  lemma CommitMoves(c: Codec, t: Tables, p: Path)
    requires Faithful(c) && p in t.incoming && CommitOne(c, t, p).Ok?
    ensures var after := CommitOne(c, t, p).value;
      && Moves(t, after, p) && p in after.rows
      && after.rows[p].observed == ObservedAt(t, p)
      && Below(Elements(t.incoming[p]), Elements(after.rows[p].versions))
      && (forall h :: h in after.rows[p].versions ==> h in VersionsAt(t, p) || h in t.incoming[p])
  {
    var remote := t.incoming[p];
    var versions := if p in t.rows then Joined(c, t.rows[p].versions, remote).value else remote;
    ReceivedHeads(c, t, p, remote);
    SaveMoves(t, p, versions, if p in t.rows then t.rows[p].materialized else None, ObservedAt(t, p), t.pending);
  }

  lemma ReceivedHeads(c: Codec, t: Tables, p: Path, remote: Heads)
    requires Faithful(c) && (p in t.rows ==> Joined(c, t.rows[p].versions, remote).Ok?)
    ensures var versions := if p in t.rows then Joined(c, t.rows[p].versions, remote).value else remote;
      && Below(Elements(VersionsAt(t, p)), Elements(versions)) && Below(Elements(remote), Elements(versions))
      && (forall h :: h in versions ==> h in VersionsAt(t, p) || h in remote)
  {
    BelowReflexive(Elements(remote));
    if p in t.rows {
      JoinedHeads(c, t.rows[p].versions, remote);
      JoinIsLeastUpperBound(c, t.rows[p].versions, remote, []);
      var versions := Joined(c, t.rows[p].versions, remote).value;
      assert forall h :: h in versions ==> h in Elements(versions);
    }
  }
}
