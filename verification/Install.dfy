/**
 Installing a received file over the one at the destination (src/storage.rs): saved version, install intent,
 displacement, no-clobber publication. The process may die between any two calls; nobody else edits the files.
 A manifest is identified with the one content that it describes (`Blocks.ContentIsUnique`).
 */
module Install {
  import opened Results

  type Inode = nat
  type Content = string

  datatype Name = Target | Part | Version(content: Content) | Quarantine(content: Content, suffix: nat)
    | Incoming(id: nat) | Previous(id: nat)

  /** The install intent; its incoming manifest is the receiver's own. */
  datatype Intent = Intent(id: nat, original: Content)

  datatype Outcome = Done | Crashed | Failed

  type Names = map<Name, Inode>
  type Files = map<Inode, Content>

  /** The journal file records the destination's content when the transfer began. */
  datatype Disk = Disk(names: Names, files: Files, intent: Option<Intent>, journal: Option<Option<Content>>)

  function At(d: Disk, name: Name): Option<Content> {
    if name in d.names && d.names[name] in d.files then Some(d.files[d.names[name]]) else None
  }

  /** What the destination holds or what reopening puts back. */
  function Current(d: Disk): Option<Content> {
    if Target in d.names then At(d, Target) else if d.intent.Some? then Some(d.intent.value.original) else None
  }

  predicate Linked(d: Disk) {
    forall name :: name in d.names ==> d.names[name] in d.files
  }

  /** An unfinished part file has no second name, so writing it writes nothing else. */
  predicate PartIsPrivate(d: Disk, incoming: Content) {
    Part in d.names && At(d, Part) != Some(incoming) ==>
      forall name :: name in d.names && name != Part ==> d.names[name] != d.names[Part]
  }

  predicate IntentMatches(d: Disk, incoming: Content) {
    d.intent.Some? ==>
      if Target in d.names then At(d, Target) in {Some(d.intent.value.original), Some(incoming)}
      else At(d, Previous(d.intent.value.id)) == Some(d.intent.value.original)
  }

  /** The original is still at the destination, or a verified copy of it is among the versions. */
  predicate Kept(d: Disk, original: Option<Content>) {
    original.Some? ==> At(d, Target) == original || At(d, Version(original.value)) == original
  }

  /** Installing `incoming` over `original`, cut off anywhere. */
  predicate Safe(d: Disk, original: Option<Content>, incoming: Content) {
    && Linked(d)
    && PartIsPrivate(d, incoming)
    && IntentMatches(d, incoming)
    && Kept(d, original)
    && Current(d) in {original, Some(incoming)}
    && (d.journal.Some? ==> d.journal.value == Current(d) || Current(d) == Some(incoming))
    && (Part in d.names ==> d.journal.Some?)
  }

  /** Displaced files and verified versions stay where they are. */
  ghost predicate NothingRemoved(d: Disk, d': Disk) {
    && (forall id: nat :: Previous(id) in d.names ==> At(d', Previous(id)) == At(d, Previous(id)))
    && (forall c :: At(d, Version(c)) == Some(c) ==> At(d', Version(c)) == Some(c))
  }

  class Receiver {
    const incoming: Content
    /** Whether the process lives. */
    const reliable: bool
    var names: Names
    var files: Files
    var intent: Option<Intent>
    var journal: Option<Option<Content>>
    var next: nat

    function View(): Disk
      reads this
    {
      Disk(names, files, intent, journal)
    }

    ghost predicate Fresh()
      reads this
    {
      && (forall i :: i in files ==> i < next)
      && (forall id: nat :: Previous(id) in names || Incoming(id) in names ==> id < next)
    }

    /** `recover_install`: put a displaced original back if nothing was published, then drop the intent. */
    method RecoverInstall(ghost original: Option<Content>) returns (outcome: Outcome)
      requires Safe(View(), original, incoming) && Fresh()
      modifies `names, `intent
      ensures Safe(View(), original, incoming) && Fresh() && outcome in {Done, Crashed} && (reliable ==> outcome == Done)
      ensures outcome == Done ==> intent == None
      ensures Current(View()) == Current(old(View())) && NothingRemoved(old(View()), View())
      ensures Part in names <==> Part in old(names)
      ensures Part in names ==> names[Part] == old(names)[Part]
    {
      if intent == None {
        return Done;
      }
      var plan := intent.value;
      if Target !in names {
        if Previous(plan.id) !in names {
          return Failed;
        }
        names := names[Target := names[Previous(plan.id)]];
        var crash: bool := *;
        crash := crash && !reliable;
        if crash {
          return Crashed;
        }
      }
      var current := files[names[Target]];
      if current != plan.original && current != incoming {
        return Failed;
      }
      intent := None;
      var crash: bool := *;
      crash := crash && !reliable;
      outcome := if crash then Crashed else Done;
    }

    /** `open`: recover, take the snapshot, check or write the journal, create the part file. */
    method Open(ghost original: Option<Content>) returns (outcome: Outcome, found: Option<Content>)
      requires Safe(View(), original, incoming) && Fresh()
      modifies this
      ensures Safe(View(), original, incoming) && Fresh() && outcome in {Done, Crashed} && (reliable ==> outcome == Done)
      ensures Current(View()) == Current(old(View())) && NothingRemoved(old(View()), View())
      ensures outcome == Done ==> intent == None && Part in names && journal.Some?
      ensures outcome == Done ==> found == At(View(), Target) && found in {original, Some(incoming)}
    {
      found := None;
      outcome := RecoverInstall(original);
      if outcome != Done {
        return;
      }
      found := if Target in names then Some(files[names[Target]]) else None;
      if journal.Some? {
        if journal.value != found && found != Some(incoming) {
          return Failed, found;
        }
      } else {
        if Part in names {
          return Failed, found;
        }
        journal := Some(found);
        var crash: bool := *;
        crash := crash && !reliable;
        if crash {
          return Crashed, found;
        }
      }
      if Part !in names {
        CreatePart(original);
      }
      outcome := Done;
    }

    method CreatePart(ghost original: Option<Content>)
      requires Safe(View(), original, incoming) && Fresh() && Part !in names && journal.Some?
      modifies `names, `files, `next
      ensures Safe(View(), original, incoming) && Fresh() && Part in names
      ensures At(View(), Target) == At(old(View()), Target) && (Target in names <==> Target in old(names))
      ensures NothingRemoved(old(View()), View())
    {
      files := files[next := ""];
      names := names[Part := next];
      next := next + 1;
    }

    /** Puts change the part file only while it is unfinished; a crash may leave any content there. */
    method Transfer(content: Content, ghost original: Option<Content>)
      requires Safe(View(), original, incoming) && Fresh() && Part in names
      modifies `files
      ensures Safe(View(), original, incoming) && Fresh()
      ensures forall name :: name in names && name != Part ==> At(View(), name) == At(old(View()), name)
      ensures At(old(View()), Part) == Some(incoming) ==> files == old(files)
      ensures At(old(View()), Part) != Some(incoming) ==> At(View(), Part) == Some(content)
    {
      if files[names[Part]] != incoming {
        files := files[names[Part] := content];
      }
    }

    /** A stale or torn file under the version's name is moved aside, under a suffix not in use. */
    method QuarantineVersion(content: Content, ghost original: Option<Content>) returns (suffix: nat)
      requires Safe(View(), original, incoming) && Fresh()
      requires Version(content) in names && files[names[Version(content)]] != content
      modifies `names
      ensures Safe(View(), original, incoming) && Fresh()
      ensures Quarantine(content, suffix) !in old(names)
      ensures names == old(names)[Quarantine(content, suffix) := old(names)[Version(content)]] - {Version(content)}
      ensures NothingRemoved(old(View()), View())
    {
      suffix := FreeSuffix(content);
      MovingAsideIsSafe(View(), original, incoming, content, suffix);
      names := names[Quarantine(content, suffix) := names[Version(content)]] - {Version(content)};
    }

    method FreeSuffix(content: Content) returns (suffix: nat)
      ensures Quarantine(content, suffix) !in names
    {
      suffix := 0;
      ghost var left := names.Keys;
      while Quarantine(content, suffix) in names
        invariant forall q: nat :: q >= suffix && Quarantine(content, q) in names ==> Quarantine(content, q) in left
        decreases left
      {
        left := left - {Quarantine(content, suffix)};
        suffix := suffix + 1;
      }
    }

    /** Keep a verified copy of the destination; a crash may leave a torn one, which the next attempt moves aside. */
    method SaveVersion(found: Content, ghost original: Option<Content>) returns (outcome: Outcome)
      requires Safe(View(), original, incoming) && Fresh() && At(View(), Target) == Some(found)
      modifies `names, `files, `next
      ensures Safe(View(), original, incoming) && Fresh() && outcome in {Done, Crashed} && (reliable ==> outcome == Done)
      ensures outcome == Done ==> At(View(), Version(found)) == Some(found)
      ensures At(View(), Target) == Some(found) && At(View(), Part) == At(old(View()), Part)
      ensures NothingRemoved(old(View()), View())
    {
      if Version(found) in names && files[names[Version(found)]] != found {
        var _ := QuarantineVersion(found, original);
        var crash: bool := *;
        crash := crash && !reliable;
        if crash {
          return Crashed;
        }
      }
      if Version(found) in names {
        return Done;
      }
      outcome := WriteVersion(found, original);
    }

    method WriteVersion(found: Content, ghost original: Option<Content>) returns (outcome: Outcome)
      requires Safe(View(), original, incoming) && Fresh() && At(View(), Target) == Some(found) && Version(found) !in names
      modifies `names, `files, `next
      ensures Safe(View(), original, incoming) && Fresh() && outcome in {Done, Crashed} && (reliable ==> outcome == Done)
      ensures outcome == Done ==> At(View(), Version(found)) == Some(found)
      ensures At(View(), Target) == Some(found) && At(View(), Part) == At(old(View()), Part)
      ensures NothingRemoved(old(View()), View())
    {
      var torn: Content := *;
      AddVersion(found, torn, original);
      var crash: bool := *;
      crash := crash && !reliable;
      if crash {
        return Crashed;
      }
      FillVersion(found, original);
      outcome := Done;
    }

    method AddVersion(found: Content, torn: Content, ghost original: Option<Content>)
      requires Safe(View(), original, incoming) && Fresh() && Version(found) !in names && At(View(), Target) == Some(found)
      modifies `names, `files, `next
      ensures Safe(View(), original, incoming) && Fresh()
      ensures names == old(names)[Version(found) := old(next)] && files == old(files)[old(next) := torn]
      ensures forall name :: name in old(names) ==> names[name] != old(next)
      ensures NothingRemoved(old(View()), View())
    {
      files := files[next := torn];
      names := names[Version(found) := next];
      next := next + 1;
    }

    method FillVersion(found: Content, ghost original: Option<Content>)
      requires Safe(View(), original, incoming) && Fresh() && Version(found) in names && At(View(), Target) == Some(found)
      requires forall name :: name in names && name != Version(found) ==> names[name] != names[Version(found)]
      modifies `files
      ensures Safe(View(), original, incoming) && Fresh()
      ensures files == old(files)[names[Version(found)] := found]
      ensures NothingRemoved(old(View()), View())
    {
      files := files[names[Version(found)] := found];
    }

    /** `prepare_install`: link the incoming file aside, record the intent, displace the destination. */
    method PrepareInstall(found: Content, ghost original: Option<Content>) returns (outcome: Outcome)
      requires Safe(View(), original, incoming) && Fresh() && At(View(), Target) == Some(found) && intent == None
      requires At(View(), Part) == Some(incoming) && At(View(), Version(found)) == Some(found)
      modifies `names, `intent, `next
      ensures Safe(View(), original, incoming) && Fresh() && outcome in {Done, Crashed} && (reliable ==> outcome == Done)
      ensures outcome == Done ==> Target !in names && intent.Some? && intent.value.original == found
      ensures At(View(), Part) == Some(incoming) && At(View(), Version(found)) == Some(found)
      ensures Current(View()) == Some(found) && NothingRemoved(old(View()), View())
    {
      var id := next;
      next := next + 1;
      LinkIncoming(id, original);
      var crash: bool := *;
      crash := crash && !reliable;
      if crash {
        return Crashed;
      }
      outcome := DisplaceRecorded(id, found, original);
    }

    method DisplaceRecorded(id: nat, found: Content, ghost original: Option<Content>) returns (outcome: Outcome)
      requires Safe(View(), original, incoming) && Fresh() && At(View(), Target) == Some(found) && intent == None && id < next
      requires At(View(), Part) == Some(incoming) && At(View(), Version(found)) == Some(found) && Previous(id) !in names
      modifies `names, `intent
      ensures Safe(View(), original, incoming) && Fresh() && outcome in {Done, Crashed} && (reliable ==> outcome == Done)
      ensures outcome == Done ==> Target !in names && intent.Some? && intent.value.original == found
      ensures At(View(), Part) == Some(incoming) && At(View(), Version(found)) == Some(found)
      ensures Current(View()) == Some(found) && NothingRemoved(old(View()), View())
    {
      RecordIntent(id, found, original);
      var crash: bool := *;
      crash := crash && !reliable;
      if crash {
        return Crashed;
      }
      Displace(id, found, original);
      crash := *;
      crash := crash && !reliable;
      outcome := if crash then Crashed else Done;
    }

    method LinkIncoming(id: nat, ghost original: Option<Content>)
      requires Safe(View(), original, incoming) && id < next && Fresh()
      requires At(View(), Part) == Some(incoming) && Incoming(id) !in names && Previous(id) !in names
      modifies `names
      ensures Safe(View(), original, incoming) && Fresh() && names == old(names)[Incoming(id) := old(names)[Part]]
      ensures NothingRemoved(old(View()), View())
    {
      names := names[Incoming(id) := names[Part]];
    }

    method RecordIntent(id: nat, found: Content, ghost original: Option<Content>)
      requires Safe(View(), original, incoming) && Fresh() && At(View(), Target) == Some(found) && intent == None
      modifies `intent
      ensures Safe(View(), original, incoming) && Fresh() && intent == Some(Intent(id, found))
      ensures NothingRemoved(old(View()), View())
    {
      intent := Some(Intent(id, found));
    }

    method Displace(id: nat, found: Content, ghost original: Option<Content>)
      requires Safe(View(), original, incoming) && Fresh() && At(View(), Target) == Some(found) && id < next
      requires intent == Some(Intent(id, found)) && Previous(id) !in names && At(View(), Version(found)) == Some(found)
      requires At(View(), Part) == Some(incoming)
      modifies `names
      ensures Safe(View(), original, incoming) && Fresh()
      ensures names == old(names)[Previous(id) := old(names)[Target]] - {Target}
      ensures NothingRemoved(old(View()), View())
    {
      DisplacingIsSafe(View(), original, incoming, id, found);
      names := names[Previous(id) := names[Target]] - {Target};
    }

    /** The hard link that publishes, then the three removals. */
    method Publish(ghost original: Option<Content>) returns (outcome: Outcome)
      requires Safe(View(), original, incoming) && Fresh() && Target !in names && At(View(), Part) == Some(incoming)
      requires original.Some? ==> At(View(), Version(original.value)) == original
      modifies `names, `intent, `journal
      ensures Safe(View(), original, incoming) && Fresh() && outcome in {Done, Crashed} && (reliable ==> outcome == Done)
      ensures outcome == Done ==> At(View(), Target) == Some(incoming) && Part !in names && journal == None && intent == None
      ensures NothingRemoved(old(View()), View())
    {
      LinkTarget(original);
      var crash: bool := *;
      crash := crash && !reliable;
      if crash {
        return Crashed;
      }
      outcome := Settle(original);
    }

    method LinkTarget(ghost original: Option<Content>)
      requires Safe(View(), original, incoming) && Fresh() && Target !in names && At(View(), Part) == Some(incoming)
      requires original.Some? ==> At(View(), Version(original.value)) == original
      modifies `names
      ensures Safe(View(), original, incoming) && Fresh() && At(View(), Target) == Some(incoming)
      ensures NothingRemoved(old(View()), View())
    {
      PublishingIsSafe(View(), original, incoming);
      names := names[Target := names[Part]];
    }

    /** With the incoming file in place, the intent, the part file and the journal go, in that order. */
    method Settle(ghost original: Option<Content>) returns (outcome: Outcome)
      requires Safe(View(), original, incoming) && Fresh() && At(View(), Target) == Some(incoming)
      modifies `names, `intent, `journal
      ensures Safe(View(), original, incoming) && Fresh() && outcome in {Done, Crashed} && (reliable ==> outcome == Done)
      ensures At(View(), Target) == Some(incoming) && NothingRemoved(old(View()), View())
      ensures outcome == Done ==> Part !in names && journal == None && intent == None
    {
      intent := None;
      var crash: bool := *;
      crash := crash && !reliable;
      if crash {
        return Crashed;
      }
      names := names - {Part};
      crash := *;
      crash := crash && !reliable;
      if crash {
        return Crashed;
      }
      journal := None;
      outcome := Done;
    }

    /** `finish_checked` of a receiver that found `found` at the destination. */
    method Finish(found: Option<Content>, ghost original: Option<Content>) returns (outcome: Outcome)
      requires Safe(View(), original, incoming) && Fresh() && Part in names && intent == None
      requires found == At(View(), Target)
      modifies this
      ensures Safe(View(), original, incoming) && Fresh() && NothingRemoved(old(View()), View())
      ensures outcome == Failed <==> At(old(View()), Part) != Some(incoming)
      ensures outcome == Failed ==> View() == old(View())
      ensures reliable ==> outcome in {Done, Failed}
      ensures outcome == Done ==> At(View(), Target) == Some(incoming) && Part !in names && journal == None && intent == None
      ensures outcome == Done && found.Some? ==> At(View(), Version(found.value)) == found
    {
      if files[names[Part]] != incoming {
        return Failed;
      }
      if found.Some? {
        outcome := SaveVersion(found.value, original);
        if outcome != Done {
          return;
        }
        outcome := PrepareInstall(found.value, original);
        if outcome != Done {
          return;
        }
      }
      outcome := Publish(original);
    }

    method Attempt(delivery: Content, ghost original: Option<Content>) returns (outcome: Outcome)
      requires Safe(View(), original, incoming) && Fresh()
      modifies this
      ensures Safe(View(), original, incoming) && Fresh() && NothingRemoved(old(View()), View())
      ensures outcome == Done ==> At(View(), Target) == Some(incoming) && Part !in names && journal == None && intent == None
      ensures outcome == Done && original.Some? ==> At(View(), Version(original.value)) == original
      ensures reliable && delivery == incoming ==> outcome == Done
    {
      ghost var start := View();
      var found;
      outcome, found := Open(original);
      ghost var middle := View();
      if outcome == Done {
        Transfer(delivery, original);
        NothingRemovedTwice(start, middle, View());
        middle := View();
        outcome := Finish(found, original);
      }
      NothingRemovedTwice(start, middle, View());
    }

    /**
     Any number of attempts, each cut off anywhere or delivering any bytes. Once one completes, the destination
     holds the incoming file and, if there was an original, a verified copy of it is kept.
     */
    method ReceiveThroughCrashes(deliveries: seq<Content>, ghost original: Option<Content>) returns (outcome: Outcome)
      requires Safe(View(), original, incoming) && Fresh()
      modifies this
      ensures Safe(View(), original, incoming) && Fresh() && NothingRemoved(old(View()), View())
      ensures outcome == Done ==> At(View(), Target) == Some(incoming) && Part !in names && journal == None && intent == None
      ensures outcome == Done && original.Some? ==> At(View(), Version(original.value)) == original
      ensures reliable && incoming in deliveries ==> outcome == Done
    {
      outcome := Crashed;
      for i := 0 to |deliveries|
        invariant Safe(View(), original, incoming) && Fresh() && NothingRemoved(old(View()), View()) && outcome != Done
        invariant reliable ==> incoming !in deliveries[..i]
      {
        ghost var start := View();
        outcome := Attempt(deliveries[i], original);
        NothingRemovedTwice(old(View()), start, View());
        if outcome == Done {
          return;
        }
        assert deliveries[..i + 1] == deliveries[..i] + [deliveries[i]];
      }
      assert deliveries[..|deliveries|] == deliveries;
    }
  }

  lemma NothingRemovedTwice(a: Disk, b: Disk, c: Disk)
    requires NothingRemoved(a, b) && NothingRemoved(b, c) && Linked(a)
    ensures NothingRemoved(a, c)
  {
    assert forall id: nat :: Previous(id) in a.names ==> At(a, Previous(id)).Some?;
  }

  /** Before the first attempt, whatever is at the destination. */
  lemma StartIsSafe(d: Disk, incoming: Content)
    requires Linked(d) && d.intent == None && d.journal == None && Part !in d.names
    ensures Safe(d, At(d, Target), incoming)
  {
  }

  // ---- The delicate calls ----

  lemma MovingAsideIsSafe(d: Disk, original: Option<Content>, incoming: Content, content: Content, suffix: nat)
    requires Safe(d, original, incoming) && At(d, Version(content)) != Some(content)
    requires Version(content) in d.names && Quarantine(content, suffix) !in d.names
    ensures var e := d.(names := d.names[Quarantine(content, suffix) := d.names[Version(content)]] - {Version(content)});
      Safe(e, original, incoming) && NothingRemoved(d, e)
  {
  }

  lemma DisplacingIsSafe(d: Disk, original: Option<Content>, incoming: Content, id: nat, found: Content)
    requires Safe(d, original, incoming) && At(d, Target) == Some(found) && At(d, Part) == Some(incoming)
    requires d.intent == Some(Intent(id, found)) && Previous(id) !in d.names && At(d, Version(found)) == Some(found)
    ensures var e := d.(names := d.names[Previous(id) := d.names[Target]] - {Target});
      Safe(e, original, incoming) && NothingRemoved(d, e)
  {
  }

  lemma PublishingIsSafe(d: Disk, original: Option<Content>, incoming: Content)
    requires Safe(d, original, incoming) && Target !in d.names && At(d, Part) == Some(incoming)
    requires original.Some? ==> At(d, Version(original.value)) == original
    ensures Safe(d.(names := d.names[Target := d.names[Part]]), original, incoming)
  {
  }
}
