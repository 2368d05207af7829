/**
 The folder journal (src/root.rs) over a small filesystem of names and inodes. Between any two calls
 the process may die, and, unless the folder is `quiet`, anybody else may edit, replace or remove
 visible files.
 */
module RootJournal {
  import opened Results
  import opened Paths
  import opened Register
  import opened Index
  import opened FolderHistory

  datatype Outcome = Done | Failed | Ambiguous | Crashed

  function ContentOf(node: Object): Content {
    match node
    case Regular(hash) => File(hash)
    case Folder(_) => Directory
  }

  /** A file where a directory is wanted, or the other way round: "file/directory conflict needs explicit resolution". */
  predicate KindsClash(current: Option<Content>, after: Content) {
    current.Some? && (if after == Directory then current.value.File? else current.value == Directory && after.File?)
  }

  predicate Unfinished(tx: Transaction) {
    tx.record.Some? && !tx.done
  }

  class Root {
    /** Whether nobody else touches the folder. */
    const quiet: bool
    /** Whether every call that can succeed does, and the process lives. */
    const reliable: bool
    var objects: map<Inode, Object>
    var names: map<Path, Inode>
    var journal: map<TxId, Transaction>
    var nextInode: Inode
    var nextTx: TxId
    /** Every change of the visible names so far; only `Others` records somebody else's. */
    ghost var trace: Trace

    function ContentAt(p: Path): Option<Content>
      reads this
    {
      if p in names && names[p] in objects then Some(ContentOf(objects[names[p]])) else None
    }

    predicate InodesExist()
      reads this
    {
      && (forall i :: i in objects ==> i < nextInode)
      && (forall p :: p in names ==> names[p] in objects)
      && (forall t :: t in journal ==> t < nextTx)
      && (forall t :: t in journal && journal[t].previous.Some? ==> journal[t].previous.value in objects)
      && (forall t :: t in journal && journal[t].incoming.Some? ==>
            journal[t].incoming.value in objects && objects[journal[t].incoming.value].Regular?)
    }

    /** The names are what the recorded changes made of them, and the program's own changes were lawful. */
    ghost predicate Recorded()
      reads this
    {
      names == NamesAfter(trace) && LawfulTrace(trace, journal, objects)
    }

    ghost predicate Valid()
      reads this
    {
      InodesExist() && Recorded()
    }

    constructor (quiet: bool, reliable: bool)
      ensures Valid() && this.quiet == quiet && this.reliable == reliable && names == map[] && journal == map[] && trace == []
    {
      this.quiet, this.reliable := quiet, reliable;
      objects, names, journal, nextInode, nextTx := map[], map[], map[], 0, 0;
      trace := [];
    }

    // ---- Everybody else ----

    predicate Plausible(names': map<Path, Inode>, objects': map<Inode, Object>, next': Inode)
      reads this
    {
      && nextInode <= next'
      && (forall i :: i in objects' ==> i < next')
      && SameKinds(objects, objects')
      && (forall p :: p in names' ==> names'[p] in objects')
    }

    method Others()
      requires Valid()
      modifies `names, `objects, `nextInode, `trace
      ensures Valid() && SameKinds(old(objects), objects)
      ensures quiet ==> names == old(names) && objects == old(objects)
      ensures Onward(old(trace), trace, quiet) && Idle(old(trace), trace, old(objects), objects)
    {
      MakesNothing(trace);
      if quiet {
        return;
      }
      var names': Names := *;
      var objects': map<Inode, Object> := *;
      var next': Inode := *;
      if Plausible(names', objects', next') {
        LawfulStays(trace, journal, objects, journal, objects');
        ghost var change := Theirs(names, names', set i | i in objects && objects'[i] != objects[i]);
        LawfulAppend(trace, change, journal, objects');
        MakesOne(trace, change);
        assert (trace + [change])[|trace|] == change;
        trace := trace + [change];
        names, objects, nextInode := names', objects', next';
      }
    }

    /** Time passes between two calls; the process may die. */
    method Pause() returns (alive: bool)
      requires Valid()
      modifies `names, `objects, `nextInode, `trace
      ensures Valid() && SameKinds(old(objects), objects)
      ensures quiet ==> names == old(names) && objects == old(objects)
      ensures Onward(old(trace), trace, quiet) && Idle(old(trace), trace, old(objects), objects)
      ensures reliable ==> alive
    {
      Others();
      alive := *;
      alive := alive || reliable;
    }

    // ---- Filesystem calls: each may fail, and then changes nothing ----

    /** `hard_link` into the folder: refuses an existing name and refuses directories. */
    method Link(i: Inode, p: Path) returns (ok: bool)
      requires Valid() && i in objects
      modifies `names, `trace
      ensures Valid()
      ensures ok ==> p !in old(names) && objects[i].Regular? && names == old(names)[p := i]
      ensures reliable ==> (ok <==> p !in old(names) && objects[i].Regular?)
      ensures !ok ==> names == old(names)
      ensures Onward(old(trace), trace, quiet) && Makes(old(trace), trace, [LinkEvent(ok, p, i)])
    {
      ok := *;
      ok := ok || reliable;
      if p in names || objects[i].Folder? {
        ok := false;
      }
      LawfulAppend(trace, LinkEvent(ok, p, i), journal, objects);
      OwnChange(trace, LinkEvent(ok, p, i), quiet);
      trace := trace + [LinkEvent(ok, p, i)];
      if ok {
        names := names[p := i];
      }
    }

    /** `rename` of a visible entry to `previous`; like the system call, it would replace an older `previous`. */
    method Displace(p: Path, t: TxId) returns (ok: bool)
      requires Valid() && t in journal && journal[t].previous.None?
      modifies `names, `journal, `trace
      ensures Valid() && JournalGrows(old(journal), journal)
      ensures ok ==> p in old(names) && names == old(names) - {p}
      ensures reliable ==> (ok <==> p in old(names))
      ensures ok ==> journal == old(journal)[t := old(journal)[t].(previous := Some(old(names)[p]))]
      ensures !ok ==> names == old(names) && journal == old(journal)
      ensures trace == if ok then old(trace) + [Taken(p, t, old(names)[p])] else old(trace)
    {
      ok := *;
      ok := ok || reliable;
      if p !in names {
        ok := false;
      }
      if ok {
        var journal' := journal[t := journal[t].(previous := Some(names[p]))];
        LawfulStays(trace, journal, objects, journal', objects);
        LawfulAppend(trace, Taken(p, t, names[p]), journal', objects);
        trace := trace + [Taken(p, t, names[p])];
        journal := journal';
        names := names - {p};
      }
    }

    method MakeDirectory(p: Path) returns (ok: bool)
      requires Valid()
      modifies `names, `objects, `nextInode, `trace
      ensures Valid()
      ensures ok ==> p !in old(names) && ContentAt(p) == Some(Directory) && names == old(names)[p := old(nextInode)]
      ensures reliable ==> (ok <==> p !in old(names))
      ensures ok ==> objects == old(objects)[old(nextInode) := Folder(true)]
      ensures !ok ==> names == old(names) && objects == old(objects)
      ensures trace == if ok then old(trace) + [Made(p, old(nextInode))] else old(trace)
    {
      ok := *;
      ok := ok || reliable;
      if p in names {
        ok := false;
      }
      if ok {
        var i := nextInode;
        var objects' := objects[i := Folder(true)];
        LawfulStays(trace, journal, objects, journal, objects');
        LawfulAppend(trace, Made(p, i), journal, objects');
        trace := trace + [Made(p, i)];
        objects := objects';
        nextInode := i + 1;
        names := names[p := i];
      }
    }

    /** `remove_dir`: only an empty directory goes. */
    method RemoveDirectory(p: Path) returns (ok: bool)
      requires Valid()
      modifies `names, `trace
      ensures Valid()
      ensures ok ==> p in old(names) && objects[old(names)[p]] == Folder(true) && names == old(names) - {p}
      ensures reliable ==> (ok <==> p in old(names) && objects[old(names)[p]] == Folder(true))
      ensures !ok ==> names == old(names)
      ensures trace == if ok then old(trace) + [Removed(p, old(names)[p], Folder(true))] else old(trace)
    {
      ok := *;
      ok := ok || reliable;
      if p !in names || objects[names[p]] != Folder(true) {
        ok := false;
      }
      if ok {
        LawfulAppend(trace, Removed(p, names[p], Folder(true)), journal, objects);
        trace := trace + [Removed(p, names[p], Folder(true))];
        names := names - {p};
      }
    }

    // ---- Calls inside `.everywhere-recovery` ----

    /** `create_dir` of a fresh transaction; nobody else uses its random name. */
    method NewTransaction() returns (t: TxId)
      requires Valid()
      modifies `journal, `nextTx
      ensures Valid() && t !in old(journal)
      ensures journal == old(journal)[t := Transaction(None, None, None, false)]
    {
      t := nextTx;
      nextTx := t + 1;
      var journal' := journal[t := Transaction(None, None, None, false)];
      LawfulStays(trace, journal, objects, journal', objects);
      journal := journal';
    }

    /** Copy the content object in and check its hash; a corrupt object is refused. */
    method WriteIncoming(t: TxId, hash: Hash) returns (ok: bool)
      requires Valid() && t in journal && journal[t].incoming.None?
      modifies `journal, `objects, `nextInode
      ensures Valid() && JournalGrows(old(journal), journal)
      ensures ok ==> journal == old(journal)[t := old(journal)[t].(incoming := Some(old(nextInode)))]
      ensures ok ==> old(nextInode) !in old(objects) && objects == old(objects)[old(nextInode) := Regular(hash)]
      ensures !ok ==> journal == old(journal) && objects == old(objects)
      ensures reliable ==> ok
    {
      ok := *;
      ok := ok || reliable;
      if ok {
        var i := nextInode;
        var journal' := journal[t := journal[t].(incoming := Some(i))];
        LawfulStays(trace, journal, objects, journal', objects[i := Regular(hash)]);
        objects := objects[i := Regular(hash)];
        nextInode := i + 1;
        journal := journal';
      }
    }

    method WriteRecord(t: TxId, intent: Intent) returns (ok: bool)
      requires Valid() && t in journal && journal[t].record.None?
      modifies `journal
      ensures Valid() && JournalGrows(old(journal), journal)
      ensures journal == if ok then old(journal)[t := old(journal)[t].(record := Some(intent))] else old(journal)
      ensures reliable ==> ok
    {
      ok := *;
      ok := ok || reliable;
      if ok {
        var journal' := journal[t := journal[t].(record := Some(intent))];
        LawfulStays(trace, journal, objects, journal', objects);
        journal := journal';
      }
    }

    /** `finish_record`: mark the transaction done, then drop its staging link; the displaced file stays. */
    method FinishRecord(t: TxId) returns (outcome: Outcome, ghost marked: bool, ghost dropped: bool)
      requires Valid() && t in journal && !journal[t].done
      modifies this
      ensures Valid() && JournalGrows(old(journal), journal)
      ensures Onward(old(trace), trace, quiet)
      ensures outcome in {Done, Failed, Crashed} && (outcome == Done ==> marked) && (reliable ==> outcome == Done)
      ensures Idle(old(trace), trace, old(objects), objects)
      ensures journal == if marked then Finished(old(journal), t, dropped) else old(journal)
      ensures outcome == Done ==> journal == old(journal)[t := old(journal)[t].(incoming := None, done := true)]
      ensures quiet ==> names == old(names) && objects == old(objects)
    {
      marked, dropped := false, false;
      MakesNothing(trace);
      var ok := Mark(t, false);
      if !ok {
        return Failed, marked, dropped;
      }
      marked := true;
      var alive := Pause();
      if !alive {
        return Crashed, marked, dropped;
      }
      ok := Mark(t, true);
      dropped := ok;
      outcome := if ok then Done else Failed;
    }

    /** The last call of an application and of a recovery, if the process lives to make it. */
    method Complete(t: TxId) returns (outcome: Outcome, ghost marked: bool, ghost dropped: bool)
      requires Valid() && t in journal && !journal[t].done
      modifies this
      ensures Valid() && JournalGrows(old(journal), journal)
      ensures Onward(old(trace), trace, quiet)
      ensures outcome in {Done, Failed, Crashed} && (outcome == Done ==> marked) && (reliable ==> outcome == Done)
      ensures Idle(old(trace), trace, old(objects), objects)
      ensures journal == if marked then Finished(old(journal), t, dropped) else old(journal)
      ensures outcome == Done ==> journal == old(journal)[t := old(journal)[t].(incoming := None, done := true)]
      ensures quiet ==> names == old(names) && objects == old(objects)
    {
      var alive := Pause();
      if !alive {
        return Crashed, false, false;
      }
      ghost var start, paused, first, second := old(trace), trace, old(objects), objects;
      outcome, marked, dropped := FinishRecord(t);
      IdleTwice(start, paused, trace, first, second, objects);
    }

    /** Create `done`, and on the second call unlink `incoming`. */
    method Mark(t: TxId, dropped: bool) returns (ok: bool)
      requires Valid() && t in journal
      modifies `journal
      ensures Valid() && JournalGrows(old(journal), journal)
      ensures journal == if ok then Finished(old(journal), t, dropped) else old(journal)
      ensures reliable ==> ok
    {
      ok := *;
      ok := ok || reliable;
      if ok {
        LawfulStays(trace, journal, objects, Finished(journal, t, dropped), objects);
        journal := Finished(journal, t, dropped);
      }
    }

    function View(): Disk
      reads this
    {
      Disk(objects, names, journal)
    }

    // ---- Application ----

    /** `apply`: change `p` from `before` to `after`. */
    method Apply(p: Path, before: Option<Content>, after: Content) returns (outcome: Outcome, ghost own: Trace)
      requires Valid()
      modifies this
      ensures Valid() && JournalGrows(old(journal), journal) && outcome != Ambiguous
      ensures Onward(old(trace), trace, quiet)
      ensures NothingLost(old(trace), trace, names, journal, objects)
      ensures quiet ==> Elsewhere(old(View()), View(), p)
      ensures quiet && SettledIn(old(View()), p) ==>
        && Recoverable(View(), p, old(ContentAt(p)), after)
        && (outcome == Done ==> ContentAt(p) == Index.Visible(after) && SettledIn(View(), p))
      ensures quiet && old(ContentAt(p)) !in {before, Index.Visible(after)} ==> outcome in {Failed, Crashed} && View() == old(View())
      ensures quiet && KindsClash(old(ContentAt(p)), after) ==> outcome in {Failed, Crashed} && View() == old(View())
      ensures quiet && reliable ==> (outcome == Done <==> Applicable(old(View()), p, before, after))
      ensures Makes(old(trace), trace, own) && (own != [] ==> old(ContentAt(p)) == before != Index.Visible(after))
      ensures Ends(p, after, outcome, own, View(), reliable,
        (own == [] && old(ContentAt(p)) == Index.Visible(after)) || Carried(p, before, after, own, View(), trace, |old(trace)|))
    {
      ghost var start := trace;
      var current := ContentAt(p);
      var alive := Pause();
      if alive {
        ghost var paused := trace;
        outcome, own := ApplyFound(p, current, before, after);
        MakesLater(start, paused, trace, own);
        if Carried(p, before, after, own, View(), trace, |paused|) {
          CarriedEarlier(p, before, after, own, View(), trace, |start|, |paused|);
        }
      } else {
        outcome, own := Crashed, [];
      }
      LawfulLosesNothing(old(trace), trace, journal, objects);
    }

    /** What is done about the content that was found. */
    method ApplyFound(p: Path, current: Option<Content>, before: Option<Content>, after: Content) returns (outcome: Outcome, ghost own: Trace)
      requires Valid() && current != Some(Deleted) && (quiet ==> current == ContentAt(p))
      modifies this
      ensures Valid() && JournalGrows(old(journal), journal) && outcome != Ambiguous
      ensures Onward(old(trace), trace, quiet)
      ensures quiet ==> Elsewhere(old(View()), View(), p)
      ensures quiet && SettledIn(old(View()), p) ==>
        && Recoverable(View(), p, current, after)
        && (outcome == Done ==> ContentAt(p) == Index.Visible(after) && SettledIn(View(), p))
      ensures quiet && current !in {before, Index.Visible(after)} ==> outcome in {Failed, Crashed} && View() == old(View())
      ensures quiet && KindsClash(current, after) ==> outcome in {Failed, Crashed} && View() == old(View())
      ensures quiet && reliable ==> (outcome == Done <==> Applicable(old(View()), p, before, after))
      ensures Makes(old(trace), trace, own) && (own != [] ==> current == before != Index.Visible(after))
      ensures Ends(p, after, outcome, own, View(), reliable,
        (own == [] && current == Index.Visible(after)) || Carried(p, before, after, own, View(), trace, |old(trace)|))
    {
      own := [];
      MakesNothing(trace);
      if current == Some(after) || (current == None && after == Deleted) {
        outcome := Done;
      } else if current != before {
        outcome := Failed;
      } else if after == Directory || current == Some(Directory) {
        outcome, own := ApplyToDirectory(p, current, after);
      } else {
        outcome, own := ApplyJournaled(p, current, after);
      }
    }

    /** A directory is made where nothing is, and removed when it is empty; a file never takes its place or yields it. */
    method ApplyToDirectory(p: Path, current: Option<Content>, after: Content) returns (outcome: Outcome, ghost own: Trace)
      requires Valid() && (after == Directory || current == Some(Directory)) && current != Index.Visible(after)
      modifies `names, `objects, `nextInode, `trace
      ensures Valid() && outcome in {Done, Failed}
      ensures Onward(old(trace), trace, quiet)
      ensures outcome == Failed ==> View() == old(View())
      ensures outcome == Done ==> if after == Directory then current == None else after == Deleted
      ensures outcome == Done ==> Elsewhere(old(View()), View(), p) && ContentAt(p) == Index.Visible(after)
      ensures quiet && reliable && old(ContentAt(p)) == current ==>
        (outcome == Done <==> (after == Directory && current == None) || (after == Deleted && EmptyAt(old(View()), p)))
      ensures Makes(old(trace), trace, own)
      ensures Ends(p, after, outcome, own, View(), reliable, Carried(p, current, after, own, View(), trace, |old(trace)|))
    {
      if after == Directory && current == None {
        outcome, own := ApplyNewDirectory(p);
      } else if after == Deleted {
        outcome, own := ApplyNoDirectory(p);
      } else {
        outcome, own := Failed, [];
        MakesNothing(trace);
      }
    }

    method ApplyNewDirectory(p: Path) returns (outcome: Outcome, ghost own: Trace)
      requires Valid()
      modifies `names, `objects, `nextInode, `trace
      ensures Valid() && outcome in {Done, Failed}
      ensures Onward(old(trace), trace, quiet)
      ensures outcome == Failed ==> View() == old(View())
      ensures outcome == Done ==> Elsewhere(old(View()), View(), p) && ContentAt(p) == Some(Directory)
      ensures Makes(old(trace), trace, own)
      ensures if outcome == Done then own == [Made(p, old(nextInode))] else own == []
      ensures reliable ==> (outcome == Done <==> p !in old(names))
    {
      ghost var start, before := View(), trace;
      MakesNothing(trace);
      var made := MakeDirectory(p);
      outcome := if made then Done else Failed;
      own := [];
      if made {
        DirectoryElsewhere(start, View(), p);
        own := [Made(p, old(nextInode))];
        OwnChange(before, own[0], quiet);
      }
    }

    method ApplyNoDirectory(p: Path) returns (outcome: Outcome, ghost own: Trace)
      requires Valid()
      modifies `names, `trace
      ensures Valid() && outcome in {Done, Failed}
      ensures Onward(old(trace), trace, quiet)
      ensures outcome == Failed ==> View() == old(View())
      ensures outcome == Done ==> Elsewhere(old(View()), View(), p) && ContentAt(p) == None
      ensures Makes(old(trace), trace, own)
      ensures if outcome == Done then p in old(names) && own == [Removed(p, old(names)[p], Folder(true))] else own == []
      ensures reliable ==> (outcome == Done <==> EmptyAt(old(View()), p))
    {
      ghost var start, before := View(), trace;
      MakesNothing(trace);
      var removed := RemoveDirectory(p);
      outcome := if removed then Done else Failed;
      own := [];
      if removed {
        DirectoryElsewhere(start, View(), p);
        own := [Removed(p, old(names)[p], Folder(true))];
        OwnChange(before, own[0], quiet);
      }
    }

    method ApplyJournaled(p: Path, current: Option<Content>, after: Content) returns (outcome: Outcome, ghost own: Trace)
      requires Valid() && after != Directory && current != Some(Directory) && current != Index.Visible(after)
      modifies this
      ensures Valid() && JournalGrows(old(journal), journal) && outcome != Ambiguous
      ensures Onward(old(trace), trace, quiet)
      ensures quiet ==> Elsewhere(old(View()), View(), p)
      ensures quiet && old(ContentAt(p)) == current && SettledIn(old(View()), p) ==>
        && Recoverable(View(), p, current, after)
        && (outcome == Done ==> ContentAt(p) == Index.Visible(after) && SettledIn(View(), p))
      ensures Makes(old(trace), trace, own)
      ensures Ends(p, after, outcome, own, View(), reliable, Carried(p, current, after, own, View(), trace, |old(trace)|))
      ensures quiet && reliable && old(ContentAt(p)) == current ==> outcome == Done
    {
      ghost var start, before := View(), trace;
      var t;
      outcome, t := PrepareReady(p, current, after);
      own := [];
      if outcome == Done {
        ghost var prepared, middle := View(), trace;
        outcome, own := Publish(t, p, current, after);
        if quiet { StillElsewhere(start, prepared, View(), t, p); }
        MakesLater(before, middle, trace, own);
        if Swapped(p, current, after, own, View(), trace, |middle|) && EndsWith(own, Placing(p, after, prepared.journal[t].incoming)) {
          SwappedIsCarried(p, current, after, own, prepared.journal[t].incoming, prepared, View(), |before|, middle, trace);
        }
      }
    }

    /** What `Prepare` means for the path: recoverable if cut off, ready to publish if done. */
    method PrepareReady(p: Path, current: Option<Content>, after: Content) returns (outcome: Outcome, t: TxId)
      requires Valid() && after != Directory && current != Some(Directory)
      modifies this
      ensures Valid() && JournalGrows(old(journal), journal) && outcome in {Done, Failed, Crashed}
      ensures Onward(old(trace), trace, quiet)
      ensures t !in old(journal) && t in journal && journal[t].previous.None? && !journal[t].done
      ensures outcome == Done ==> journal[t].record == Some(Intent(p, current, after)) && (after.File? ==> journal[t].incoming.Some?)
      ensures quiet ==> Elsewhere(old(View()), View(), p)
      ensures quiet && old(ContentAt(p)) == current && SettledIn(old(View()), p) ==>
        Recoverable(View(), p, current, after) && (outcome == Done ==> Ready(View(), t, p, current, after))
      ensures Idle(old(trace), trace, old(objects), objects)
      ensures outcome == Done && after.File? ==>
        HasOrWritten(trace, |old(trace)|, objects, journal[t].incoming.value, Regular(after.hash))
      ensures reliable ==> outcome == Done
      ensures quiet ==> ContentAt(p) == old(ContentAt(p))
    {
      ghost var start := View();
      outcome, t := Prepare(p, current, after);
      if quiet { PreparedIsRecoverable(start, View(), t, p, current, after); }
    }

    /** Copy the new file in and probe that it can be linked. */
    method StageIncoming(t: TxId, hash: Hash) returns (outcome: Outcome)
      requires Valid() && t in journal && journal[t] == Transaction(None, None, None, false)
      modifies this
      ensures Valid() && outcome in {Done, Failed, Crashed}
      ensures Onward(old(trace), trace, quiet)
      ensures journal.Keys == old(journal).Keys && forall u :: u in journal && u != t ==> journal[u] == old(journal)[u]
      ensures journal[t].record.None? && journal[t].previous.None? && !journal[t].done
      ensures quiet ==> names == old(names) && forall i :: i in old(objects) ==> i in objects && objects[i] == old(objects)[i]
      ensures outcome == Done ==> journal[t].incoming.Some?
      ensures Idle(old(trace), trace, old(objects), objects)
      ensures outcome == Done ==> HasOrWritten(trace, |old(trace)|, objects, journal[t].incoming.value, Regular(hash))
      ensures reliable ==> outcome == Done
    {
      ghost var start, first := trace, objects;
      MakesNothing(start);
      var copied := WriteIncoming(t, hash);
      if !copied {
        return Failed;
      }
      ghost var second := objects;
      var alive := Pause();
      IdleTwice(start, start, trace, first, second, objects);
      // The hard-link probe inside the transaction may be refused; it leaves nothing behind.
      var probed: bool := *;
      outcome := if !alive then Crashed else if probed || reliable then Done else Failed;
    }

    /** Stage the incoming file and record the intent, touching nothing visible. */
    method Prepare(p: Path, current: Option<Content>, after: Content) returns (outcome: Outcome, t: TxId)
      requires Valid() && after != Directory && current != Some(Directory)
      modifies this
      ensures Valid() && JournalGrows(old(journal), journal) && outcome in {Done, Failed, Crashed}
      ensures Onward(old(trace), trace, quiet)
      ensures t !in old(journal) && journal.Keys == old(journal).Keys + {t}
      ensures forall u :: u in old(journal) ==> journal[u] == old(journal)[u]
      ensures journal[t].previous.None? && !journal[t].done && journal[t].record in {None, Some(Intent(p, current, after))}
      ensures quiet ==> names == old(names) && forall i :: i in old(objects) ==> i in objects && objects[i] == old(objects)[i]
      ensures outcome == Done ==> journal[t].record.Some? && (after.File? ==> journal[t].incoming.Some?)
      ensures Idle(old(trace), trace, old(objects), objects)
      ensures outcome == Done && after.File? ==>
        HasOrWritten(trace, |old(trace)|, objects, journal[t].incoming.value, Regular(after.hash))
      ensures reliable ==> outcome == Done
    {
      t := NewTransaction();
      outcome := Fill(t, p, current, after);
    }

    /** The two files of a transaction, in order. */
    method Fill(t: TxId, p: Path, current: Option<Content>, after: Content) returns (outcome: Outcome)
      requires Valid() && t in journal && journal[t] == Transaction(None, None, None, false) && after != Directory
      modifies this
      ensures Valid() && outcome in {Done, Failed, Crashed}
      ensures Onward(old(trace), trace, quiet)
      ensures journal.Keys == old(journal).Keys && forall u :: u in journal && u != t ==> journal[u] == old(journal)[u]
      ensures journal[t].previous.None? && !journal[t].done && journal[t].record in {None, Some(Intent(p, current, after))}
      ensures quiet ==> names == old(names) && forall i :: i in old(objects) ==> i in objects && objects[i] == old(objects)[i]
      ensures outcome == Done ==> journal[t].record.Some? && (after.File? ==> journal[t].incoming.Some?)
      ensures Idle(old(trace), trace, old(objects), objects)
      ensures outcome == Done && after.File? ==>
        HasOrWritten(trace, |old(trace)|, objects, journal[t].incoming.value, Regular(after.hash))
      ensures reliable ==> outcome == Done
    {
      ghost var start, first := trace, objects;
      outcome := FillIncoming(t, after);
      if outcome != Done {
        return;
      }
      var recorded := WriteRecord(t, Intent(p, current, after));
      if !recorded {
        return Failed;
      }
      ghost var middle, second := trace, objects;
      var alive := Pause();
      outcome := if alive then Done else Crashed;
      IdleTwice(start, middle, trace, first, second, objects);
      if after.File? { StillHas(middle, trace, |start|, second, objects, journal[t].incoming.value, Regular(after.hash)); }
    }

    /** Only a file has something to stage. */
    method FillIncoming(t: TxId, after: Content) returns (outcome: Outcome)
      requires Valid() && t in journal && journal[t] == Transaction(None, None, None, false)
      modifies this
      ensures Valid() && outcome in {Done, Failed, Crashed}
      ensures Onward(old(trace), trace, quiet)
      ensures journal.Keys == old(journal).Keys && forall u :: u in journal && u != t ==> journal[u] == old(journal)[u]
      ensures journal[t].record.None? && journal[t].previous.None? && !journal[t].done
      ensures quiet ==> names == old(names) && forall i :: i in old(objects) ==> i in objects && objects[i] == old(objects)[i]
      ensures Idle(old(trace), trace, old(objects), objects)
      ensures outcome == Done && after.File? ==>
        journal[t].incoming.Some? && HasOrWritten(trace, |old(trace)|, objects, journal[t].incoming.value, Regular(after.hash))
      ensures reliable ==> outcome == Done
    {
      ghost var start, first := trace, objects;
      var alive := Pause();
      outcome := if alive then Done else Crashed;
      if alive && after.File? {
        ghost var middle, second := trace, objects;
        outcome := StageIncoming(t, after.hash);
        IdleTwice(start, middle, trace, first, second, objects);
        if outcome == Done { HasEarlier(trace, |start|, |middle|, objects, journal[t].incoming.value, Regular(after.hash)); }
      }
    }

    /** Displace the old file, publish the new one without replacing anything, and finish. */
    method Publish(t: TxId, p: Path, current: Option<Content>, after: Content) returns (outcome: Outcome, ghost own: Trace)
      requires Valid() && t in journal && journal[t].record == Some(Intent(p, current, after))
      requires journal[t].previous.None? && !journal[t].done
      requires after != Directory && current != Some(Directory) && current != Index.Visible(after)
      requires after.File? ==> journal[t].incoming.Some?
      modifies this
      ensures Valid() && JournalGrows(old(journal), journal) && outcome != Ambiguous
      ensures Onward(old(trace), trace, quiet)
      ensures journal.Keys == old(journal).Keys && (quiet ==> OnlyWithin(old(View()), View(), t, p))
      ensures quiet && Ready(old(View()), t, p, current, after) ==>
        && Recoverable(View(), p, current, after)
        && (outcome == Done ==> ContentAt(p) == Index.Visible(after) && SettledIn(View(), p))
      ensures quiet && reliable && old(ContentAt(p)) == current ==> outcome == Done
      ensures Makes(old(trace), trace, own) && Untampered(old(trace), trace, old(objects), objects)
      ensures Ends(p, after, outcome, own, View(), reliable,
        Swapped(p, current, after, own, View(), trace, |old(trace)|) && EndsWith(own, Placing(p, after, old(journal)[t].incoming)))
    {
      ghost var ready, start := View(), trace;
      outcome, own := TakeAside(t, p, current, after);
      if outcome == Done {
        ghost var cleared := View();
        outcome, own := PublishTaken(t, p, current, after, ready, start, own);
        if quiet { WithinTwice(ready, cleared, View(), t, p); }
      } else {
        TakenBack(t, p, current, after, outcome, own, View());
      }
    }

    /** `PublishNew`, as the end of what began at `start` with `taken`. */
    method PublishTaken(t: TxId, p: Path, current: Option<Content>, after: Content, ghost ready: Disk, ghost start: Trace, ghost taken: Trace)
      returns (outcome: Outcome, ghost own: Trace)
      requires Valid() && t in journal && journal[t].record == Some(Intent(p, current, after)) && !journal[t].done
      requires current.Some? ==> journal[t].previous.Some?
      requires after != Directory && current != Some(Directory) && (after.File? ==> journal[t].incoming.Some?)
      requires TookAside(t, p, current, Done, taken, View()) && Makes(start, trace, taken)
      requires Untampered(start, trace, ready.objects, objects) && t in ready.journal && ready.journal[t].incoming == journal[t].incoming
      modifies this
      ensures Valid() && JournalGrows(old(journal), journal) && outcome != Ambiguous
      ensures Onward(old(trace), trace, quiet)
      ensures journal.Keys == old(journal).Keys && (quiet ==> OnlyWithin(old(View()), View(), t, p))
      ensures quiet && Cleared(old(View()), t, p, current, after) ==>
        && Recoverable(View(), p, current, after)
        && (outcome == Done ==> ContentAt(p) == Index.Visible(after) && SettledIn(View(), p))
      ensures reliable && p !in old(names) ==> outcome == Done
      ensures Makes(start, trace, own) && Untampered(start, trace, ready.objects, objects)
      ensures Ends(p, after, outcome, own, View(), reliable,
        Swapped(p, current, after, own, View(), trace, |start|) && EndsWith(own, Placing(p, after, ready.journal[t].incoming)))
    {
      ghost var cleared, middle, placed := View(), trace, [];
      outcome, placed := PublishNew(t, p, current, after);
      TakenThenPlaced(p, current, after, taken, placed, outcome, t, ready, cleared, View(), start, middle, trace, reliable);
      own := taken + placed;
    }

    /** Move the old file into the transaction, and put it back if it is not the one expected. */
    method TakeAside(t: TxId, p: Path, current: Option<Content>, after: Content) returns (outcome: Outcome, ghost own: Trace)
      requires Valid() && t in journal && journal[t].record == Some(Intent(p, current, after))
      requires journal[t].previous.None? && !journal[t].done
      requires current != Some(Directory)
      modifies this
      ensures Valid() && JournalGrows(old(journal), journal) && outcome in {Done, Failed, Crashed}
      ensures Onward(old(trace), trace, quiet)
      ensures journal.Keys == old(journal).Keys && (quiet ==> OnlyWithin(old(View()), View(), t, p))
      ensures !journal[t].done && journal[t].incoming == old(journal)[t].incoming && (outcome == Done && current.Some? ==> journal[t].previous.Some?)
      ensures quiet && Ready(old(View()), t, p, current, after) ==> Recoverable(View(), p, current, after)
      ensures quiet && Ready(old(View()), t, p, current, after) && outcome == Done ==> Cleared(View(), t, p, current, after)
      ensures quiet && outcome == Done && old(ContentAt(p)) == current ==> p !in names
      ensures Makes(old(trace), trace, own) && Untampered(old(trace), trace, old(objects), objects)
      ensures TookAside(t, p, current, outcome, own, View())
      ensures quiet && reliable && old(ContentAt(p)) == current ==> outcome == Done
    {
      ghost var ready := View();
      MakesNothing(trace);
      if current.None? {
        return Done, [];
      }
      outcome, own := MoveAside(t, p, current);
      if quiet && Ready(ready, t, p, current, after) {
        ReadyIsRecoverable(ready, t, p, current, after);
        if own != [] { DisplacedIsCleared(ready, t, p, current, after); }
      }
    }

    method MoveAside(t: TxId, p: Path, current: Option<Content>) returns (outcome: Outcome, ghost own: Trace)
      requires Valid() && t in journal && journal[t].previous.None? && current.Some?
      modifies this
      ensures Valid() && JournalGrows(old(journal), journal) && outcome in {Done, Failed, Crashed}
      ensures Onward(old(trace), trace, quiet)
      ensures Makes(old(trace), trace, own) && Untampered(old(trace), trace, old(objects), objects)
      ensures TookAside(t, p, current, outcome, own, View())
      ensures if own == [] then journal == old(journal)
        else p in old(names) && journal == old(journal)[t := old(journal)[t].(previous := Some(old(names)[p]))]
      ensures quiet ==> objects == old(objects)
      ensures quiet ==> names == if own == [] || (|own| == 2 && own[1].Linked?) then old(names) else old(names) - {p}
      ensures quiet && own != [] && old(ContentAt(p)) == current ==> outcome != Failed
      ensures reliable && p in old(names) ==> own != [] && outcome != Crashed
    {
      MakesNothing(trace);
      var displaced := Displace(p, t);
      outcome, own := Failed, [];
      if displaced {
        ghost var taken, back := Taken(p, t, old(names)[p]), [];
        PuttingBack(old(names), p);
        outcome, back := CheckTaken(t, p, current);
        own := [taken] + back;
        ChangeThen(old(trace), taken, trace, back, old(objects), objects);
      }
    }

    /** An edit made just before the rename is put back at its name. */
    method CheckTaken(t: TxId, p: Path, current: Option<Content>) returns (outcome: Outcome, ghost own: Trace)
      requires Valid() && t in journal && journal[t].previous.Some?
      modifies `names, `objects, `nextInode, `trace
      ensures Valid() && outcome in {Done, Failed, Crashed}
      ensures Onward(old(trace), trace, quiet)
      ensures quiet ==> objects == old(objects)
      ensures quiet && Some(ContentOf(old(objects)[journal[t].previous.value])) == current ==> names == old(names) && outcome != Failed
      ensures quiet ==> names == if own != [] && own[0].Linked? then old(names)[p := journal[t].previous.value] else old(names)
      ensures outcome == Failed <==> outcome != Crashed && Some(ContentOf(objects[journal[t].previous.value])) != current
      ensures Makes(old(trace), trace, own) && Untampered(old(trace), trace, old(objects), objects)
      ensures if outcome == Failed then LinkTried(own, p, journal[t].previous.value) else own == []
      ensures reliable ==> outcome != Crashed
    {
      var alive := Pause();
      own := [];
      if !alive {
        return Crashed, own;
      }
      if Some(ContentOf(objects[journal[t].previous.value])) == current {
        outcome := Done;
      } else {
        outcome := Failed;
        ghost var start, paused := old(trace), trace;
        var restored := Link(journal[t].previous.value, p);
        own := [LinkEvent(restored, p, journal[t].previous.value)];
        MakesLater(start, paused, trace, own);
        UntamperedTwice(start, paused, trace, old(objects), objects, objects);
      }
    }

    method PublishNew(t: TxId, p: Path, current: Option<Content>, after: Content) returns (outcome: Outcome, ghost own: Trace)
      requires Valid() && t in journal && journal[t].record == Some(Intent(p, current, after)) && !journal[t].done
      requires current.Some? ==> journal[t].previous.Some?
      requires after != Directory && (after.File? ==> journal[t].incoming.Some?)
      modifies this
      ensures Valid() && JournalGrows(old(journal), journal) && outcome != Ambiguous
      ensures Onward(old(trace), trace, quiet)
      ensures journal.Keys == old(journal).Keys && (quiet ==> OnlyWithin(old(View()), View(), t, p))
      ensures quiet && Cleared(old(View()), t, p, current, after) ==>
        && Recoverable(View(), p, current, after)
        && (outcome == Done ==> ContentAt(p) == Index.Visible(after) && SettledIn(View(), p))
      ensures reliable && p !in old(names) ==> outcome == Done
      ensures Makes(old(trace), trace, own) && Untampered(old(trace), trace, old(objects), objects)
      ensures PlacedBy(p, after, old(journal)[t].incoming, if current.Some? then old(journal)[t].previous else None, outcome, own, View(), reliable)
    {
      var exposed;
      exposed, own := ExposeCleared(t, p, current, after);
      if !exposed {
        return Failed, own;
      }
      ghost var start, middle := old(trace), trace;
      outcome := FinishPublished(t, p, current, after);
      MakesTwice(start, middle, trace, own, []);
      assert own + [] == own;
    }

    /** What the link means for the path, once it is cleared. */
    method ExposeCleared(t: TxId, p: Path, current: Option<Content>, after: Content) returns (exposed: bool, ghost own: Trace)
      requires Valid() && t in journal && after != Directory
      requires current.Some? ==> journal[t].previous.Some?
      requires after.File? ==> journal[t].incoming.Some?
      modifies `names, `trace
      ensures Valid()
      ensures Onward(old(trace), trace, quiet) && Makes(old(trace), trace, own)
      ensures quiet ==> OnlyWithin(old(View()), View(), t, p)
      ensures quiet && Cleared(old(View()), t, p, current, after) ==>
        if exposed then Published(View(), t, p, current, after) else Recoverable(View(), p, current, after)
      ensures reliable && p !in old(names) ==> exposed
      ensures Placed(p, after, journal[t].incoming, if current.Some? then journal[t].previous else None, exposed, own, View())
    {
      ghost var cleared := View();
      exposed, own := Expose(t, p, current, after);
      NamedAtMost(cleared, View(), t, p);
      if quiet && Cleared(cleared, t, p, current, after) { ExposedOrNot(cleared, View(), t, p, current, after, exposed); }
    }

    method FinishPublished(t: TxId, p: Path, ghost current: Option<Content>, ghost after: Content) returns (outcome: Outcome)
      requires Valid() && t in journal && !journal[t].done
      modifies this
      ensures Valid() && JournalGrows(old(journal), journal) && outcome != Ambiguous
      ensures Onward(old(trace), trace, quiet)
      ensures journal.Keys == old(journal).Keys && (quiet ==> OnlyWithin(old(View()), View(), t, p))
      ensures quiet && Published(old(View()), t, p, current, after) ==>
        && Recoverable(View(), p, current, after)
        && (outcome == Done ==> ContentAt(p) == Index.Visible(after) && SettledIn(View(), p))
      ensures Idle(old(trace), trace, old(objects), objects)
      ensures reliable ==> outcome == Done
    {
      ghost var published := View();
      ghost var marked, dropped;
      outcome, marked, dropped := Complete(t);
      if quiet && Published(published, t, p, current, after) {
        FinishedIsSettled(published, t, dropped, p, current, after);
      }
    }

    /** Link the new file, or make sure nothing stands where a deletion was applied. */
    method Expose(t: TxId, p: Path, current: Option<Content>, after: Content) returns (exposed: bool, ghost own: Trace)
      requires Valid() && t in journal
      requires current.Some? ==> journal[t].previous.Some?
      requires after.File? ==> journal[t].incoming.Some?
      modifies `names, `trace
      ensures Valid()
      ensures Onward(old(trace), trace, quiet)
      ensures exposed && after.File? ==> p !in old(names) && names == old(names)[p := journal[t].incoming.value]
      ensures exposed && !after.File? ==> names == old(names) && ContentAt(p) == None
      ensures reliable ==> (exposed <==> p !in old(names))
      ensures !exposed ==> names == old(names) || (current.Some? && names == old(names)[p := journal[t].previous.value])
      ensures !exposed ==> old(names).Keys <= names.Keys && forall q :: q in old(names) ==> names[q] == old(names)[q]
      ensures Makes(old(trace), trace, own) && Untampered(old(trace), trace, objects, objects)
      ensures Placed(p, after, journal[t].incoming, if current.Some? then journal[t].previous else None, exposed, own, View())
    {
      own := [];
      MakesNothing(trace);
      if !after.File? {
        return ContentAt(p) == None, own;
      }
      exposed := Link(journal[t].incoming.value, p);
      own := [LinkEvent(exposed, p, journal[t].incoming.value)];
      if !exposed && current.Some? {
        // A failure here leaves the old file in recovery only.
        ghost var start, middle := old(trace), trace;
        var restored := Link(journal[t].previous.value, p);
        ghost var back := [LinkEvent(restored, p, journal[t].previous.value)];
        MakesTwice(start, middle, trace, own, back);
        own := own + back;
      }
    }

    // ---- Recovery ----

    /** Look at the path, then settle the transaction. */
    method SettleOne(t: TxId) returns (outcome: Outcome)
      requires Valid() && t in journal && Unfinished(journal[t])
      modifies this
      ensures Valid() && JournalGrows(old(journal), journal) && journal.Keys == old(journal).Keys
      ensures Onward(old(trace), trace, quiet)
      ensures forall u :: u in journal && u != t ==> journal[u] == old(journal)[u]
      ensures outcome == Done ==> journal[t].done
      ensures Settles(old(View()), t, outcome, journal, old(trace), trace)
      ensures quiet ==> KeepsRecoverable(old(View()), View()) && Steps(old(View()), View(), t)
      ensures RecoverableByRecord(old(View()), t) ==> outcome != Ambiguous
      ensures quiet && reliable && RecoverableByRecord(old(View()), t) ==> outcome == Done
    {
      ghost var before := View();
      var actual := ContentAt(journal[t].record.value.path);
      assert OpenIn(before, t, journal[t].record.value.path) && actual == ContentIn(before, journal[t].record.value.path);
      var alive := Pause();
      if alive {
        ghost var paused := trace;
        outcome := SettleFound(t, actual);
        SettledLater(actual, before.journal[t], outcome, before.journal, journal, old(trace), paused, trace);
      } else {
        outcome := Crashed;
      }
    }

    /** Finish it, put the displaced file back, or give up. */
    method SettleFound(t: TxId, actual: Option<Content>) returns (outcome: Outcome)
      requires Valid() && t in journal && Unfinished(journal[t])
      requires actual != Some(Deleted) && (quiet ==> actual == ContentAt(journal[t].record.value.path))
      modifies this
      ensures Valid() && JournalGrows(old(journal), journal) && journal.Keys == old(journal).Keys
      ensures Onward(old(trace), trace, quiet)
      ensures forall u :: u in journal && u != t ==> journal[u] == old(journal)[u]
      ensures outcome == Done ==> journal[t].done
      ensures SettlesAs(actual, old(journal)[t], outcome, old(journal), journal, old(trace), trace)
      ensures quiet ==> KeepsRecoverable(old(View()), View()) && Steps(old(View()), View(), t)
      ensures quiet && reliable && RecoverableByRecord(old(View()), t) ==> outcome == Done
    {
      ghost var before := View();
      var intent := journal[t].record.value;
      MakesNothing(trace);
      if quiet { QuietContent(before, t, actual); }
      if actual == Some(intent.after) || (actual == None && intent.after == Deleted) || actual == intent.before {
        if quiet { FinishingKeepsRecoverable(before, t); }
        ghost var marked, dropped;
        outcome, marked, dropped := FinishRecord(t);
      } else if actual == None && journal[t].previous.Some? {
        ghost var own;
        outcome, own := RestorePrevious(t);
      } else {
        outcome := Ambiguous;
      }
    }

    /** What `recover` does about one recorded, unfinished transaction. */
    method RecoverOne(t: TxId) returns (outcome: Outcome)
      requires Valid() && t in journal && Unfinished(journal[t])
      modifies this
      ensures Valid() && JournalGrows(old(journal), journal) && journal.Keys == old(journal).Keys
      ensures Onward(old(trace), trace, quiet)
      ensures NothingLost(old(trace), trace, names, journal, objects)
      ensures forall u :: u in journal && u != t ==> journal[u] == old(journal)[u]
      ensures outcome == Done ==> journal[t].done && Decidable(old(View()), t)
      ensures outcome == Ambiguous ==> !Decidable(old(View()), t)
      ensures !Decidable(old(View()), t) ==> outcome in {Ambiguous, Crashed} && journal == old(journal)
      ensures Settles(old(View()), t, outcome, journal, old(trace), trace)
      ensures quiet ==> KeepsRecoverable(old(View()), View()) && Steps(old(View()), View(), t)
      ensures RecoverableByRecord(old(View()), t) ==> outcome != Ambiguous
      ensures quiet && reliable && RecoverableByRecord(old(View()), t) ==> outcome == Done
    {
      outcome := SettleOne(t);
      LawfulLosesNothing(old(trace), trace, journal, objects);
    }

    method RestorePrevious(t: TxId) returns (outcome: Outcome, ghost own: Trace)
      requires Valid() && t in journal && Unfinished(journal[t]) && journal[t].previous.Some?
      requires quiet ==> ContentAt(journal[t].record.value.path) == None && journal[t].record.value.before != None
      requires quiet ==> journal[t].record.value.after != Deleted
      modifies this
      ensures Valid() && JournalGrows(old(journal), journal) && journal.Keys == old(journal).Keys
      ensures Onward(old(trace), trace, quiet)
      ensures forall u :: u in journal && u != t ==> journal[u] == old(journal)[u]
      ensures outcome != Ambiguous && (outcome == Done ==> journal[t].done)
      ensures Makes(old(trace), trace, own)
      ensures own == [LinkedBack(old(journal)[t], true)] || (outcome == Failed && own == [LinkedBack(old(journal)[t], false)])
      ensures quiet && reliable && old(objects)[old(journal)[t].previous.value].Regular? ==> outcome == Done
      ensures quiet ==> KeepsRecoverable(old(View()), View()) && Steps(old(View()), View(), t)
    {
      ghost var before := View();
      ghost var linked, marked, dropped;
      outcome, linked, marked, dropped := LinkBack(t);
      own := [LinkedBack(before.journal[t], linked)];
      if quiet && linked { RestoringKeepsRecoverable(before, t, marked, dropped); }
    }

    /** Link the displaced file to its old name and complete the transaction. */
    method LinkBack(t: TxId) returns (outcome: Outcome, ghost linked: bool, ghost marked: bool, ghost dropped: bool)
      requires Valid() && t in journal && Unfinished(journal[t]) && journal[t].previous.Some?
      modifies this
      ensures Valid() && JournalGrows(old(journal), journal)
      ensures Onward(old(trace), trace, quiet)
      ensures outcome in {Done, Failed, Crashed} && (outcome == Done ==> linked && marked)
      ensures Makes(old(trace), trace, [LinkedBack(old(journal)[t], linked)]) && (!linked ==> outcome == Failed)
      ensures journal == if linked && marked then Finished(old(journal), t, dropped) else old(journal)
      ensures reliable && old(journal)[t].record.value.path !in old(names) && old(objects)[old(journal)[t].previous.value].Regular? ==>
        outcome == Done
      ensures quiet ==> objects == old(objects)
      ensures quiet ==> names == if linked then old(names)[old(journal)[t].record.value.path := old(journal)[t].previous.value] else old(names)
    {
      outcome, marked, dropped := Failed, false, false;
      MakesNothing(trace);
      var ok := Link(journal[t].previous.value, journal[t].record.value.path);
      linked := ok;
      ghost var link := LinkedBack(journal[t], linked);
      if ok {
        ghost var start, after := old(trace), trace;
        outcome, marked, dropped := Complete(t);
        MakesTwice(start, after, trace, [link], []);
        assert [link] + [] == [link];
      }
    }

    /**
     `recover`: every recorded transaction in turn, stopping at the first that is ambiguous. `seen` is what the folder
     looked like when a transaction's turn came.
     */
    method Recover() returns (outcome: Outcome, ghost seen: map<TxId, Disk>)
      requires Valid()
      modifies this
      ensures Valid() && JournalGrows(old(journal), journal)
      ensures Onward(old(trace), trace, quiet)
      ensures NothingLost(old(trace), trace, names, journal, objects)
      ensures outcome == Done ==> forall t :: t in journal ==> !Unfinished(journal[t])
      ensures outcome == Done ==> AllDecided(old(View()), old(trace), trace, seen)
      ensures quiet ==> KeepsRecoverable(old(View()), View())
      ensures quiet && AllRecoverable(old(View())) ==> outcome != Ambiguous && (reliable ==> outcome == Done)
      ensures quiet && (exists t :: t in old(journal) && AloneUndecidable(old(View()), t)) ==> outcome != Done
      ensures (forall t :: t in old(journal) ==> !Unfinished(old(journal)[t])) ==>
        outcome == Done && View() == old(View())
    {
      outcome, seen := RecoverEach();
      LawfulLosesNothing(old(trace), trace, journal, objects);
      if quiet && outcome == Done {
        forall t | t in old(journal) ensures !AloneUndecidable(old(View()), t) {
          if Unfinished(old(journal)[t]) && Alone(old(View()), t) { assert StillAlone(old(View()), seen[t], t); }
        }
      }
    }

    method RecoverEach() returns (outcome: Outcome, ghost seen: map<TxId, Disk>)
      requires Valid()
      modifies this
      ensures Valid() && JournalGrows(old(journal), journal)
      ensures Onward(old(trace), trace, quiet)
      ensures outcome == Done ==> forall t :: t in journal ==> !Unfinished(journal[t])
      ensures outcome == Done ==> AllDecided(old(View()), old(trace), trace, seen)
      ensures outcome == Done && quiet ==> forall t :: t in seen ==> StillAlone(old(View()), seen[t], t)
      ensures quiet ==> KeepsRecoverable(old(View()), View())
      ensures quiet && AllRecoverable(old(View())) ==> outcome != Ambiguous && (reliable ==> outcome == Done)
      ensures (forall t :: t in old(journal) ==> !Unfinished(old(journal)[t])) ==>
        outcome == Done && View() == old(View())
    {
      ghost var start := View();
      var todo := journal.Keys;
      outcome, seen := Done, map[];
      while todo != {} && outcome == Done
        invariant Valid() && Onward(old(trace), trace, quiet)
        invariant Underway(start, old(trace), View(), trace, todo, outcome, seen, quiet, reliable)
        decreases todo
      {
        var t :| t in todo;
        ghost var before, trace' := View(), trace;
        outcome := RecoverNext(t, start);
        TurnTaken(start, old(trace), before, trace', View(), trace, todo, t, outcome, seen, quiet, reliable);
        if Unfinished(before.journal[t]) { seen := seen[t := before]; }
        todo := todo - {t};
      }
    }

    /** One entry of the recovery directory. */
    method RecoverNext(t: TxId, ghost start: Disk) returns (outcome: Outcome)
      requires Valid() && t in journal && t in start.journal && journal[t] == start.journal[t]
      requires quiet ==> KeepsRecoverable(start, View())
      modifies this
      ensures Valid() && JournalGrows(old(journal), journal) && journal.Keys == old(journal).Keys
      ensures Onward(old(trace), trace, quiet)
      ensures forall u :: u in journal && u != t ==> journal[u] == old(journal)[u]
      ensures outcome == Done ==> !Unfinished(journal[t])
      ensures outcome == Done && Unfinished(old(journal)[t]) ==> Decidable(old(View()), t)
      ensures quiet ==> KeepsRecoverable(start, View()) && Steps(old(View()), View(), t)
      ensures quiet && AllRecoverable(start) ==> outcome != Ambiguous && (reliable ==> outcome == Done)
      ensures !Unfinished(old(journal)[t]) ==> outcome == Done && View() == old(View())
    {
      outcome := Done;
      if Unfinished(journal[t]) {
        if quiet { StillByRecord(start, View(), t); }
        outcome := SettleOne(t);
      }
    }

    // ---- Whole runs ----

    /** Any number of applications and recoveries, each of which may die anywhere, among anybody else's changes. */
    method Live(calls: nat) returns (outcome: Outcome)
      requires Valid()
      modifies this
      ensures Valid() && JournalGrows(old(journal), journal)
      ensures Onward(old(trace), trace, quiet)
      ensures NothingLost(old(trace), trace, names, journal, objects)
    {
      outcome := Done;
      for n := 0 to calls
        invariant Valid() && JournalGrows(old(journal), journal) && Onward(old(trace), trace, quiet)
      {
        outcome := ApplyOrRecover();
        Others();
      }
      LawfulLosesNothing(old(trace), trace, journal, objects);
    }

    method ApplyOrRecover() returns (outcome: Outcome)
      requires Valid()
      modifies this
      ensures Valid() && JournalGrows(old(journal), journal) && Onward(old(trace), trace, quiet)
    {
      var applying: bool := *;
      if applying {
        var p: Path, before: Option<Content>, after: Content := *, *, *;
        ghost var own;
        outcome, own := Apply(p, before, after);
      } else {
        ghost var seen;
        outcome, seen := Recover();
      }
    }

    /** Recoveries that may each die anywhere. */
    method RecoverRepeatedly(crashes: nat)
      requires Valid()
      modifies this
      ensures Valid() && JournalGrows(old(journal), journal)
      ensures Onward(old(trace), trace, quiet)
      ensures quiet ==> KeepsRecoverable(old(View()), View())
    {
      for n := 0 to crashes
        invariant Valid() && JournalGrows(old(journal), journal) && Onward(old(trace), trace, quiet)
        invariant quiet ==> KeepsRecoverable(old(View()), View())
      {
        var _, _ := Recover();
      }
    }

    /** One application, then recoveries that keep dying until one completes. */
    method ApplyThroughCrashes(p: Path, before: Option<Content>, after: Content, crashes: nat) returns (outcome: Outcome)
      requires Valid() && SettledIn(View(), p)
      modifies this
      ensures Valid() && JournalGrows(old(journal), journal)
      ensures Onward(old(trace), trace, quiet)
      ensures NothingLost(old(trace), trace, names, journal, objects)
      ensures quiet && outcome == Done ==>
        ContentAt(p) in {old(ContentAt(p)), Index.Visible(after)} && forall t :: t in journal ==> !Unfinished(journal[t])
    {
      ghost var own;
      outcome, own := Apply(p, before, after);
      ghost var start := old(ContentAt(p));
      RecoverRepeatedly(crashes);
      ghost var seen;
      outcome, seen := Recover();
      LawfulLosesNothing(old(trace), trace, journal, objects);
      if quiet && outcome == Done { NothingLeftOpen(View(), p, start, after); }
    }
  }

  // ---- What an undisturbed crash leaves behind ----

  /** The folder and its journal at one moment. */
  datatype Disk = Disk(objects: map<Inode, Object>, names: Names, journal: Journal)

  function ContentIn(d: Disk, p: Path): Option<Content> {
    if p in d.names && d.names[p] in d.objects then Some(ContentOf(d.objects[d.names[p]])) else None
  }

  predicate EmptyAt(d: Disk, p: Path) {
    p in d.names && d.names[p] in d.objects && d.objects[d.names[p]] == Folder(true)
  }

  /**
   What an application can do: nothing if the new content is there already; else only from the content it expects, never
   between a file and a directory, and removing a directory only when it is empty.
   */
  predicate Applicable(d: Disk, p: Path, before: Option<Content>, after: Content) {
    var current := ContentIn(d, p);
    || current == Index.Visible(after)
    || (current == before && !KindsClash(current, after) && (current == Some(Directory) ==> EmptyAt(d, p)))
  }

  predicate OpenIn(d: Disk, t: TxId, p: Path) {
    t in d.journal && Unfinished(d.journal[t]) && d.journal[t].record.value.path == p
  }

  predicate SettledIn(d: Disk, p: Path) {
    forall t :: t in d.journal ==> !OpenIn(d, t, p)
  }

  /** The displaced file of `t` is intact and holds `b`. */
  predicate Holds(d: Disk, t: TxId, b: Option<Content>) {
    && t in d.journal && d.journal[t].previous.Some? && d.journal[t].previous.value in d.objects
    && d.objects[d.journal[t].previous.value].Regular? && b == Some(ContentOf(d.objects[d.journal[t].previous.value]))
  }

  /**
   `p` was being changed from `b` to `a`: it shows one of them, or nothing while an open transaction
   still holds `b`.
   */
  ghost predicate Recoverable(d: Disk, p: Path, b: Option<Content>, a: Content) {
    && (forall t :: OpenIn(d, t, p) ==> d.journal[t].record == Some(Intent(p, b, a)))
    && (|| ContentIn(d, p) == b
        || ContentIn(d, p) == Index.Visible(a)
        || (ContentIn(d, p) == None && (exists t :: OpenIn(d, t, p)) && forall t :: OpenIn(d, t, p) ==> Holds(d, t, b)))
  }

  lemma NothingLeftOpen(d: Disk, p: Path, b: Option<Content>, a: Content)
    requires Recoverable(d, p, b, a) && forall t :: t in d.journal ==> !Unfinished(d.journal[t])
    ensures ContentIn(d, p) in {b, Index.Visible(a)}
  {
    assert forall t :: !OpenIn(d, t, p);
  }

  ghost predicate RecoverableByRecord(d: Disk, t: TxId)
    requires t in d.journal && d.journal[t].record.Some?
  {
    var intent := d.journal[t].record.value;
    Recoverable(d, intent.path, intent.before, intent.after)
  }

  ghost predicate KeepsRecoverable(d: Disk, d': Disk) {
    forall p, b, a :: Recoverable(d, p, b, a) ==> Recoverable(d', p, b, a)
  }

  /** Every interrupted change on disk is of the recoverable kind. */
  ghost predicate AllRecoverable(d: Disk) {
    forall t :: t in d.journal && Unfinished(d.journal[t]) ==> RecoverableByRecord(d, t)
  }

  /** Only `p` and new transactions for `p` have changed. */
  // ---- What an application does itself, whoever else acts ----

  /** The entry of `p` was moved into a transaction. */
  predicate Takes(e: Event, p: Path, d: Disk) {
    e.Taken? && e.path == p && e.tx in d.journal && d.journal[e.tx].previous == Some(e.inode) && e.inode in d.objects
  }

  /** The old file was linked back, unless the system refused it. */
  predicate LinkTried(own: Trace, p: Path, previous: Inode) {
    own == [Linked(p, previous)] || own == [Refused(p, previous)]
  }

  /** The old file is in the transaction and was the one expected, or it was linked back. */
  predicate TookAside(t: TxId, p: Path, current: Option<Content>, outcome: Outcome, own: Trace, d: Disk) {
    if own == [] then outcome == if current.None? then Done else Failed
    else
      && current.Some? && Takes(own[0], p, d) && own[0].tx == t
      && match outcome
         case Done => own == [own[0]] && Some(ContentOf(d.objects[own[0].inode])) == current
         case Failed => Some(ContentOf(d.objects[own[0].inode])) != current && LinkTried(own[1..], p, own[0].inode)
         case Crashed => own == [own[0]]
         case Ambiguous => false
  }

  /** What puts the new content in its place. */
  function Placing(p: Path, after: Content, incoming: Option<Inode>): Trace {
    if after.File? && incoming.Some? then [Linked(p, incoming.value)] else []
  }

  /** The new content has its name, or the old one was linked back; a deletion fails where something stands again. */
  predicate Placed(p: Path, after: Content, incoming: Option<Inode>, previous: Option<Inode>, exposed: bool, own: Trace, d: Disk) {
    if exposed then own == Placing(p, after, incoming)
    else if !after.File? then own == [] && p in d.names
    else
      && incoming.Some? && own != [] && own[0] == Refused(p, incoming.value)
      && (if previous.Some? then LinkTried(own[1..], p, previous.value) else |own| == 1)
  }

  /** The calls after the link fail only if the system refuses them or the process dies. */
  predicate PlacedBy(p: Path, after: Content, incoming: Option<Inode>, previous: Option<Inode>, outcome: Outcome, own: Trace, d: Disk,
                     reliable: bool) {
    || ((outcome == Done || !reliable) && Placed(p, after, incoming, previous, true, own, d))
    || (outcome == Failed && Placed(p, after, incoming, previous, false, own, d))
  }

  predicate EndsWith(own: Trace, last: Trace) {
    |last| <= |own| && own[|own| - |last|..] == last
  }

  /**
   The old file, if any, was taken aside, with the content expected of it unless somebody wrote into it since event
   `n`, and then the new file, if any, was linked at its name.
   */
  ghost predicate Swapped(p: Path, before: Option<Content>, after: Content, own: Trace, d: Disk, trace: Trace, n: nat) {
    var k := if before.Some? then 1 else 0;
    && |own| == k + (if after.File? then 1 else 0)
    && (before.Some? ==>
          Takes(own[0], p, d) && before.value.File?
          && HasOrWritten(trace, n, d.objects, own[0].inode, Regular(before.value.hash)))
    && (after.File? ==> own[k].Linked? && own[k].path == p)
  }

  /** The change of the folder that an application asks for, with the requested bytes unless somebody wrote into the file. */
  ghost predicate Carried(p: Path, before: Option<Content>, after: Content, own: Trace, d: Disk, trace: Trace, n: nat) {
    if after == Directory then |own| == 1 && own[0].Made? && own[0].path == p
    else if before == Some(Directory) then |own| == 1 && own[0].Removed? && own[0].path == p && own[0].was == Folder(true)
    else
      && own != [] && Swapped(p, before, after, own, d, trace, n)
      && (after.File? ==> HasOrWritten(trace, n, d.objects, own[|own| - 1].inode, Regular(after.hash)))
  }

  lemma CarriedEarlier(p: Path, before: Option<Content>, after: Content, own: Trace, d: Disk, trace: Trace, n: nat, m: nat)
    requires n <= m && Carried(p, before, after, own, d, trace, m)
    ensures Carried(p, before, after, own, d, trace, n)
  {
    if after != Directory && before != Some(Directory) {
      if before.Some? { HasEarlier(trace, n, m, d.objects, own[0].inode, Regular(before.value.hash)); }
      if after.File? { HasEarlier(trace, n, m, d.objects, own[|own| - 1].inode, Regular(after.hash)); }
    }
  }

  lemma SwappedIsCarried(p: Path, before: Option<Content>, after: Content, own: Trace, incoming: Option<Inode>, d: Disk, d': Disk,
                         n: nat, trace: Trace, trace': Trace)
    requires n <= |trace| && Swapped(p, before, after, own, d', trace', |trace|) && EndsWith(own, Placing(p, after, incoming))
    requires after != Directory && before != Some(Directory) && before != Index.Visible(after)
    requires after.File? ==> incoming.Some? && HasOrWritten(trace, n, d.objects, incoming.value, Regular(after.hash))
    requires Untampered(trace, trace', d.objects, d'.objects)
    ensures Carried(p, before, after, own, d', trace', n)
  {
    if before.Some? { HasEarlier(trace', n, |trace|, d'.objects, own[0].inode, Regular(before.value.hash)); }
    if after.File? {
      StillHas(trace, trace', n, d.objects, d'.objects, incoming.value, Regular(after.hash));
      assert own[|own| - 1] == own[|own| - 1..][0];
    }
  }

  /** A failure with nothing changed, or with the old file linked back; only a crash leaves it aside untried. */
  predicate Undone(p: Path, after: Content, outcome: Outcome, own: Trace, d: Disk) {
    if own == [] then true
    else if !Takes(own[0], p, d) then |own| == 1 && own[0].Refused? && own[0].path == p
    else if |own| == 1 then outcome == Crashed || (after == Deleted && p in d.names)
    else LinkTried(own[|own| - 1..], p, own[0].inode) && (|own| == 2 || (|own| == 3 && own[1].Refused? && own[1].path == p))
  }

  /** A success does the `whole` change. A failure undoes it, unless a call after it was refused or the process died. */
  ghost predicate Ends(p: Path, after: Content, outcome: Outcome, own: Trace, d: Disk, reliable: bool, whole: bool) {
    if outcome == Done then whole else Undone(p, after, outcome, own, d) || (!reliable && whole)
  }

  lemma TakenBack(t: TxId, p: Path, current: Option<Content>, after: Content, outcome: Outcome, own: Trace, d: Disk)
    requires TookAside(t, p, current, outcome, own, d) && outcome in {Failed, Crashed}
    ensures Undone(p, after, outcome, own, d)
  {
    if own != [] && outcome == Failed {
      assert |own[1..]| == 1;
      assert own[|own| - 1..] == own[1..];
    }
  }

  lemma TakenThenPlaced(p: Path, current: Option<Content>, after: Content, taken: Trace, placed: Trace, outcome: Outcome, t: TxId,
                        ready: Disk, d: Disk, d': Disk, start: Trace, trace: Trace, trace': Trace, reliable: bool)
    requires t in ready.journal && t in d.journal && JournalGrows(d.journal, d'.journal) && after != Directory
    requires (after.File? ==> ready.journal[t].incoming.Some?) && current != Some(Directory) && outcome != Ambiguous
    requires TookAside(t, p, current, Done, taken, d)
    requires Makes(start, trace, taken) && Untampered(start, trace, ready.objects, d.objects)
    requires Makes(trace, trace', placed) && Untampered(trace, trace', d.objects, d'.objects)
    requires PlacedBy(p, after, ready.journal[t].incoming, if current.Some? then d.journal[t].previous else None, outcome, placed, d', reliable)
    ensures Makes(start, trace', taken + placed) && Untampered(start, trace', ready.objects, d'.objects)
    ensures Ends(p, after, outcome, taken + placed, d', reliable,
      Swapped(p, current, after, taken + placed, d', trace', |start|)
        && EndsWith(taken + placed, Placing(p, after, ready.journal[t].incoming)))
  {
    var incoming, n := ready.journal[t].incoming, |start|;
    MakesTwice(start, trace, trace', taken, placed);
    UntamperedTwice(start, trace, trace', ready.objects, d.objects, d'.objects);
    if current.Some? {
      assert Takes(taken[0], p, d');
      StillHas(trace, trace', n, d.objects, d'.objects, taken[0].inode, d.objects[taken[0].inode]);
      assert d.objects[taken[0].inode] == Regular(current.value.hash);
    }
    if (outcome == Done || !reliable) && placed == Placing(p, after, incoming) {
      TakenAndPlaced(p, current, after, taken, placed, incoming, d', n, trace');
    } else {
      TakenNotPlaced(p, current, after, taken, placed, incoming, d');
    }
  }

  lemma TakenNotPlaced(p: Path, current: Option<Content>, after: Content, taken: Trace, placed: Trace, incoming: Option<Inode>, d: Disk)
    requires after != Directory && if current.None? then taken == [] else |taken| == 1 && Takes(taken[0], p, d)
    requires Placed(p, after, incoming, if current.Some? then Some(taken[0].inode) else None, false, placed, d)
    ensures Undone(p, after, Failed, taken + placed, d)
  {
    var own := taken + placed;
    if current.Some? && after.File? {
      assert placed[1..] == own[2..] && own[|own| - 1..] == own[2..];
    }
  }

  lemma TakenAndPlaced(p: Path, current: Option<Content>, after: Content, taken: Trace, placed: Trace, incoming: Option<Inode>,
                       d: Disk, n: nat, trace: Trace)
    requires placed == Placing(p, after, incoming) && (after.File? ==> incoming.Some?)
    requires if current.None? then taken == [] else
      |taken| == 1 && Takes(taken[0], p, d) && current.value.File?
      && HasOrWritten(trace, n, d.objects, taken[0].inode, Regular(current.value.hash))
    ensures Swapped(p, current, after, taken + placed, d, trace, n) && EndsWith(taken + placed, placed)
  {
    assert (taken + placed)[|taken|..] == placed;
  }

  lemma PuttingBack(names: Names, p: Path)
    requires p in names
    ensures (names - {p})[p := names[p]] == names
  {
  }

  ghost predicate Elsewhere(d: Disk, d': Disk, p: Path) {
    && (forall i :: i in d.objects ==> i in d'.objects && d'.objects[i] == d.objects[i])
    && (forall q :: q != p ==> (q in d.names <==> q in d'.names) && (q in d.names ==> d.names[q] == d'.names[q]))
    && (forall t :: t in d.journal ==> t in d'.journal && d'.journal[t] == d.journal[t])
    && (forall t :: t in d'.journal && t !in d.journal && d'.journal[t].record.Some? ==> d'.journal[t].record.value.path == p)
  }

  /** `t` is the only open transaction for `p`, nothing has happened to `p` yet, and the new file is staged. */
  ghost predicate Ready(d: Disk, t: TxId, p: Path, current: Option<Content>, after: Content) {
    && OpenIn(d, t, p) && (forall u :: OpenIn(d, u, p) ==> u == t)
    && ContentIn(d, p) == current
    && (after.File? ==>
          && d.journal[t].incoming.Some? && d.journal[t].incoming.value in d.objects
          && d.objects[d.journal[t].incoming.value] == Regular(after.hash))
  }

  /** Only transaction `t` and the name `p` have changed. */
  ghost predicate OnlyWithin(d: Disk, d': Disk, t: TxId, p: Path) {
    && d'.objects == d.objects && t in d.journal && d'.journal.Keys == d.journal.Keys
    && d'.journal[t].record == d.journal[t].record
    && (forall u :: u in d.journal && u != t ==> d'.journal[u] == d.journal[u])
    && (forall q :: q != p ==> (q in d.names <==> q in d'.names) && (q in d.names ==> d.names[q] == d'.names[q]))
  }

  lemma DirectoryElsewhere(d: Disk, d': Disk, p: Path)
    requires d'.journal == d.journal && forall i :: i in d.objects ==> i in d'.objects && d'.objects[i] == d.objects[i]
    requires d'.names - {p} == d.names - {p}
    ensures Elsewhere(d, d', p)
  {
    forall q | q != p ensures (q in d.names <==> q in d'.names) && (q in d.names ==> d.names[q] == d'.names[q]) {
      assert q in d.names - {p} <==> q in d.names;
      assert q in d'.names - {p} <==> q in d'.names;
    }
  }

  lemma WithinTwice(a: Disk, b: Disk, c: Disk, t: TxId, p: Path)
    requires OnlyWithin(a, b, t, p) && OnlyWithin(b, c, t, p)
    ensures OnlyWithin(a, c, t, p)
  {}

  lemma StillElsewhere(d0: Disk, d: Disk, d': Disk, t: TxId, p: Path)
    requires Elsewhere(d0, d, p) && OnlyWithin(d, d', t, p) && t !in d0.journal
    ensures Elsewhere(d0, d', p)
  {}

  /** `p` is out of the way: nothing is visible there, and what was is held by `t`. */
  ghost predicate Cleared(d: Disk, t: TxId, p: Path, current: Option<Content>, after: Content) {
    && OpenIn(d, t, p) && (forall u :: OpenIn(d, u, p) ==> u == t)
    && d.journal[t].record == Some(Intent(p, current, after))
    && ContentIn(d, p) == None && (current.Some? ==> Holds(d, t, current))
    && (after.File? ==>
          && d.journal[t].incoming.Some? && d.journal[t].incoming.value in d.objects
          && d.objects[d.journal[t].incoming.value] == Regular(after.hash))
  }

  lemma PreparedIsRecoverable(d: Disk, d': Disk, t: TxId, p: Path, current: Option<Content>, after: Content)
    requires t !in d.journal && d'.journal.Keys == d.journal.Keys + {t} && d'.names == d.names
    requires forall u :: u in d.journal ==> d'.journal[u] == d.journal[u]
    requires d'.journal[t].record in {None, Some(Intent(p, current, after))} && !d'.journal[t].done
    requires forall i :: i in d.objects ==> i in d'.objects && d'.objects[i] == d.objects[i]
    requires forall q :: q in d.names ==> d.names[q] in d.objects
    ensures SettledIn(d, p) && ContentIn(d, p) == current ==> Recoverable(d', p, current, after)
    ensures SettledIn(d, p) && ContentIn(d, p) == current && d'.journal[t].record.Some? ==>
      OpenIn(d', t, p) && ContentIn(d', p) == current && forall u :: OpenIn(d', u, p) ==> u == t
    ensures Elsewhere(d, d', p)
  {
    forall u | OpenIn(d', u, p) && u != t ensures OpenIn(d, u, p) {}
  }

  lemma ReadyIsRecoverable(d: Disk, t: TxId, p: Path, current: Option<Content>, after: Content)
    requires Ready(d, t, p, current, after) && d.journal[t].record == Some(Intent(p, current, after))
    ensures Recoverable(d, p, current, after)
    ensures current.None? ==> Cleared(d, t, p, current, after)
  {}

  lemma DisplacedIsCleared(d: Disk, t: TxId, p: Path, current: Option<Content>, after: Content)
    requires Ready(d, t, p, current, after) && d.journal[t].record == Some(Intent(p, current, after))
    requires p in d.names && current.Some? && current.value.File?
    ensures var d' := Disk(d.objects, d.names - {p}, d.journal[t := d.journal[t].(previous := Some(d.names[p]))]);
      Cleared(d', t, p, current, after) && Recoverable(d', p, current, after)
  {
    var d' := Disk(d.objects, d.names - {p}, d.journal[t := d.journal[t].(previous := Some(d.names[p]))]);
    forall u ensures OpenIn(d', u, p) <==> OpenIn(d, u, p) {}
    ClearedIsRecoverable(d', t, p, current, after);
  }

  /** From a cleared path, nothing, the old file or the new file may be linked. */
  lemma ClearedIsRecoverable(d: Disk, t: TxId, p: Path, current: Option<Content>, after: Content)
    requires Cleared(d, t, p, current, after)
    ensures Recoverable(d, p, current, after)
    ensures current.Some? ==> Recoverable(d.(names := d.names[p := d.journal[t].previous.value]), p, current, after)
  {
    if current.Some? {
      var d' := d.(names := d.names[p := d.journal[t].previous.value]);
      forall u ensures OpenIn(d', u, p) <==> OpenIn(d, u, p) {}
      assert ContentIn(d', p) == current;
    }
  }

  /** The new content of `p` stands; `t` need only be marked done. */
  ghost predicate Published(d: Disk, t: TxId, p: Path, current: Option<Content>, after: Content) {
    && OpenIn(d, t, p) && (forall u :: OpenIn(d, u, p) ==> u == t)
    && d.journal[t].record == Some(Intent(p, current, after))
    && ContentIn(d, p) == Index.Visible(after)
  }

  lemma NamedAtMost(d: Disk, d': Disk, t: TxId, p: Path)
    requires t in d.journal && d' == d.(names := d'.names) && (d'.names == d.names || (p in d'.names && d'.names == d.names[p := d'.names[p]]))
    ensures OnlyWithin(d, d', t, p)
  {
  }

  lemma ExposedOrNot(d: Disk, d': Disk, t: TxId, p: Path, current: Option<Content>, after: Content, exposed: bool)
    requires Cleared(d, t, p, current, after) && after != Directory && d' == d.(names := d'.names)
    requires if exposed then d'.names == if after.File? then d.names[p := d.journal[t].incoming.value] else d.names
      else d'.names == d.names || (current.Some? && d'.names == d.names[p := d.journal[t].previous.value])
    ensures if exposed then Published(d', t, p, current, after) else Recoverable(d', p, current, after)
  {
    ClearedIsRecoverable(d, t, p, current, after);
    ExposedIsPublished(d, t, p, current, after);
  }

  lemma ExposedIsPublished(d: Disk, t: TxId, p: Path, current: Option<Content>, after: Content)
    requires Cleared(d, t, p, current, after) && (after == Deleted || after.File?)
    ensures Published(d.(names := if after.File? then d.names[p := d.journal[t].incoming.value] else d.names), t, p, current, after)
  {
    var d' := d.(names := if after.File? then d.names[p := d.journal[t].incoming.value] else d.names);
    forall u ensures OpenIn(d', u, p) <==> OpenIn(d, u, p) {}
  }

  lemma FinishedIsSettled(d: Disk, t: TxId, dropped: bool, p: Path, current: Option<Content>, after: Content)
    requires Published(d, t, p, current, after)
    ensures var d' := d.(journal := Finished(d.journal, t, dropped));
      Recoverable(d', p, current, after) && ContentIn(d', p) == Index.Visible(after) && SettledIn(d', p)
    ensures Recoverable(d, p, current, after)
  {
    var d' := d.(journal := Finished(d.journal, t, dropped));
    forall u ensures !OpenIn(d', u, p) {
      if OpenIn(d', u, p) { assert u != t && OpenIn(d, u, p); }
    }
  }

  /** The entries not in `todo` are finished, unless recovery has stopped; nothing recoverable became less so. */
  ghost predicate Recovering(start: Disk, d: Disk, todo: set<TxId>, outcome: Outcome, quiet: bool, reliable: bool) {
    && JournalGrows(start.journal, d.journal) && todo <= d.journal.Keys == start.journal.Keys
    && (outcome == Done ==> forall t :: t in d.journal.Keys - todo ==> !Unfinished(d.journal[t]))
    && (quiet && AllRecoverable(start) ==> outcome != Ambiguous && (reliable ==> outcome == Done))
    && (forall t :: t in todo ==> d.journal[t] == start.journal[t])
    && (quiet ==> KeepsRecoverable(start, d))
    && ((forall t :: t in start.journal ==> !Unfinished(start.journal[t])) ==> outcome == Done && d == start)
  }

  lemma RecoveringContinues(start: Disk, d: Disk, d': Disk, todo: set<TxId>, t: TxId, outcome: Outcome,
                            quiet: bool, reliable: bool)
    requires t !in todo && Recovering(start, d, todo + {t}, Done, quiet, reliable)
    requires JournalGrows(d.journal, d'.journal) && d'.journal.Keys == d.journal.Keys
    requires forall u :: u in d'.journal && u != t ==> d'.journal[u] == d.journal[u]
    requires outcome == Done ==> !Unfinished(d'.journal[t])
    requires quiet ==> KeepsRecoverable(start, d')
    requires quiet && AllRecoverable(start) ==> outcome != Ambiguous && (reliable ==> outcome == Done)
    requires !Unfinished(d.journal[t]) ==> outcome == Done && d' == d
    ensures Recovering(start, d', todo, outcome, quiet, reliable)
  {
  }

  // ---- What recovery may decide ----

  /** The path shows the old or the new content, or nothing while the displaced file is kept. */
  predicate DecidableAs(actual: Option<Content>, tx: Transaction)
    requires tx.record.Some?
  {
    || actual == tx.record.value.before || actual == Index.Visible(tx.record.value.after)
    || (actual == None && tx.previous.Some?)
  }

  predicate Decidable(d: Disk, t: TxId)
    requires t in d.journal && d.journal[t].record.Some?
  {
    DecidableAs(ContentIn(d, d.journal[t].record.value.path), d.journal[t])
  }

  /**
   What recovery does about a transaction whose path shows `actual`: an undecidable one is left as it is; one whose
   path shows the old or the new content is finished without a change of names; otherwise the displaced file is linked
   back.
   */
  ghost predicate SettlesAs(actual: Option<Content>, tx: Transaction, outcome: Outcome, journal: Journal, journal': Journal,
                            trace: Trace, trace': Trace)
    requires tx.record.Some?
  {
    var intent := tx.record.value;
    if !DecidableAs(actual, tx) then
      outcome in {Ambiguous, Crashed} && journal' == journal && Makes(trace, trace', [])
    else if actual == intent.before || actual == Index.Visible(intent.after) then
      outcome != Ambiguous && Makes(trace, trace', [])
    else
      && outcome != Ambiguous
      && (|| Makes(trace, trace', [Linked(intent.path, tx.previous.value)])
          || (outcome == Failed && Makes(trace, trace', [Refused(intent.path, tx.previous.value)]))
          || (outcome == Crashed && Makes(trace, trace', [])))
  }

  function LinkedBack(tx: Transaction, linked: bool): Event
    requires tx.record.Some? && tx.previous.Some?
  {
    LinkEvent(linked, tx.record.value.path, tx.previous.value)
  }

  ghost predicate Settles(d: Disk, t: TxId, outcome: Outcome, journal': Journal, trace: Trace, trace': Trace)
    requires t in d.journal && d.journal[t].record.Some?
  {
    SettlesAs(ContentIn(d, d.journal[t].record.value.path), d.journal[t], outcome, d.journal, journal', trace, trace')
  }

  lemma SettledLater(actual: Option<Content>, tx: Transaction, outcome: Outcome, journal: Journal, journal': Journal,
                     trace: Trace, paused: Trace, trace': Trace)
    requires tx.record.Some? && Makes(trace, paused, []) && SettlesAs(actual, tx, outcome, journal, journal', paused, trace')
    ensures SettlesAs(actual, tx, outcome, journal, journal', trace, trace')
  {
    MakesLater(trace, paused, trace', OwnSince(trace', |paused|));
  }

  lemma QuietContent(d: Disk, t: TxId, actual: Option<Content>)
    requires t in d.journal && Unfinished(d.journal[t]) && actual == ContentIn(d, d.journal[t].record.value.path)
    ensures OpenIn(d, t, d.journal[t].record.value.path)
    ensures RecoverableByRecord(d, t) ==> DecidableAs(actual, d.journal[t])
  {
    var intent := d.journal[t].record.value;
    assert OpenIn(d, t, intent.path);
    if RecoverableByRecord(d, t) && actual != intent.before && actual != Index.Visible(intent.after) {
      assert Holds(d, t, intent.before);
    }
  }

  /** At most transaction `t` and its path have changed, and nothing if it was finished. */
  ghost predicate Steps(d: Disk, d': Disk, t: TxId)
    requires t in d.journal
  {
    if Unfinished(d.journal[t]) then OnlyWithin(d, d', t, d.journal[t].record.value.path) else d' == d
  }

  /** `d` is how the folder looked at some moment, and transaction `t`, still as at the start, could be decided. */
  ghost predicate Decided(start: Disk, trace: Trace, trace': Trace, d: Disk, t: TxId) {
    && t in start.journal && t in d.journal && d.journal[t] == start.journal[t]
    && d.journal[t].record.Some? && Decidable(d, t)
    && exists k :: |trace| <= k <= |trace'| && d.names == NamesAfter(trace'[..k])
  }

  ghost predicate AllDecided(start: Disk, trace: Trace, trace': Trace, seen: map<TxId, Disk>) {
    forall t :: t in start.journal && Unfinished(start.journal[t]) ==> t in seen && Decided(start, trace, trace', seen[t], t)
  }

  /** No other unfinished transaction is about the same path. */
  predicate Alone(d: Disk, t: TxId)
    requires t in d.journal && d.journal[t].record.Some?
  {
    forall u :: u in d.journal && u != t ==> !OpenIn(d, u, d.journal[t].record.value.path)
  }

  predicate AloneUndecidable(d: Disk, t: TxId)
    requires t in d.journal
  {
    Unfinished(d.journal[t]) && Alone(d, t) && !Decidable(d, t)
  }

  /** What is decided about a transaction alone on its path is decided by how the folder looked at the start. */
  ghost predicate StillAlone(start: Disk, d: Disk, t: TxId) {
    t in start.journal && Unfinished(start.journal[t]) && Alone(start, t) ==>
      t in d.journal && d.journal[t] == start.journal[t] && (Decidable(d, t) <==> Decidable(start, t))
  }

  /** Every unfinished entry not in `todo` was decided when its turn came. */
  ghost predicate Deciding(start: Disk, trace: Trace, trace': Trace, todo: set<TxId>, outcome: Outcome, seen: map<TxId, Disk>, quiet: bool) {
    outcome == Done ==>
      && (forall t :: t in start.journal.Keys - todo && Unfinished(start.journal[t]) ==>
            t in seen && Decided(start, trace, trace', seen[t], t))
      && (quiet ==> forall t :: t in seen ==> StillAlone(start, seen[t], t))
  }

  lemma DecidedLater(start: Disk, trace: Trace, trace': Trace, trace'': Trace, d: Disk, t: TxId)
    requires Decided(start, trace, trace', d, t) && trace' <= trace''
    ensures Decided(start, trace, trace'', d, t)
  {
    var k :| |trace| <= k <= |trace'| && d.names == NamesAfter(trace'[..k]);
    assert trace''[..k] == trace'[..k];
  }

  lemma DecidingContinues(start: Disk, d: Disk, trace: Trace, trace': Trace, trace'': Trace, todo: set<TxId>, t: TxId,
                          outcome: Outcome, seen: map<TxId, Disk>, seen': map<TxId, Disk>, quiet: bool)
    requires Deciding(start, trace, trace', todo + {t}, Done, seen, quiet) && t !in todo
    requires trace <= trace' <= trace'' && t in start.journal && t in d.journal && d.journal[t] == start.journal[t]
    requires d.names == NamesAfter(trace') && (quiet ==> Untouched(start, d, todo + {t}))
    requires seen' == if Unfinished(d.journal[t]) then seen[t := d] else seen
    requires outcome == Done && Unfinished(d.journal[t]) ==> Decidable(d, t)
    ensures Deciding(start, trace, trace'', todo, outcome, seen', quiet)
  {
    if outcome == Done {
      forall u | u in start.journal.Keys - todo && Unfinished(start.journal[u])
        ensures u in seen' && Decided(start, trace, trace'', seen'[u], u)
      {
        if u == t {
          assert trace'[..|trace'|] == trace';
          assert Decided(start, trace, trace', d, t);
          DecidedLater(start, trace, trace', trace'', d, t);
        } else {
          DecidedLater(start, trace, trace', trace'', seen[u], u);
        }
      }
      if quiet && Unfinished(d.journal[t]) { TurnOfTheLone(start, d, todo, t); }
    }
  }

  /** The content at `p` is as at the start, if no entry that had its turn was about it. */
  ghost predicate UntouchedAt(start: Disk, d: Disk, todo: set<TxId>, p: Path) {
    (forall u :: u in start.journal.Keys - todo ==> !OpenIn(start, u, p)) ==> ContentIn(d, p) == ContentIn(start, p)
  }

  ghost predicate Untouched(start: Disk, d: Disk, todo: set<TxId>) {
    forall p {:trigger UntouchedAt(start, d, todo, p)} :: UntouchedAt(start, d, todo, p)
  }

  lemma TurnOfTheLone(start: Disk, d: Disk, todo: set<TxId>, t: TxId)
    requires Untouched(start, d, todo + {t}) && t in start.journal && t in d.journal && d.journal[t] == start.journal[t]
    requires Unfinished(d.journal[t])
    ensures StillAlone(start, d, t)
  {
    assert UntouchedAt(start, d, todo + {t}, d.journal[t].record.value.path);
  }

  lemma UntouchedContinues(start: Disk, d: Disk, d': Disk, todo: set<TxId>, t: TxId)
    requires Untouched(start, d, todo + {t}) && t !in todo
    requires t in start.journal && t in d.journal && d.journal[t] == start.journal[t] && Steps(d, d', t)
    ensures Untouched(start, d', todo)
  {
    forall p ensures UntouchedAt(start, d', todo, p) {
      assert UntouchedAt(start, d, todo + {t}, p);
      if forall u :: u in start.journal.Keys - todo ==> !OpenIn(start, u, p) {
        assert !OpenIn(start, t, p);
        assert ContentIn(d', p) == ContentIn(d, p);
      }
    }
  }

  /** What holds between two transactions of a recovery that began with `start` and `trace`. */
  ghost predicate Underway(start: Disk, trace: Trace, d: Disk, trace': Trace, todo: set<TxId>, outcome: Outcome,
                           seen: map<TxId, Disk>, quiet: bool, reliable: bool) {
    && Recovering(start, d, todo, outcome, quiet, reliable)
    && Deciding(start, trace, trace', todo, outcome, seen, quiet)
    && (quiet ==> Untouched(start, d, todo))
  }

  lemma TurnTaken(start: Disk, trace: Trace, d: Disk, trace': Trace, d': Disk, trace'': Trace, todo: set<TxId>, t: TxId,
                  outcome: Outcome, seen: map<TxId, Disk>, quiet: bool, reliable: bool)
    requires t in todo && Underway(start, trace, d, trace', todo, Done, seen, quiet, reliable)
    requires trace <= trace' <= trace'' && d.names == NamesAfter(trace')
    requires JournalGrows(d.journal, d'.journal) && d'.journal.Keys == d.journal.Keys
    requires forall u :: u in d'.journal && u != t ==> d'.journal[u] == d.journal[u]
    requires outcome == Done ==> !Unfinished(d'.journal[t])
    requires outcome == Done && Unfinished(d.journal[t]) ==> Decidable(d, t)
    requires quiet ==> KeepsRecoverable(start, d') && Steps(d, d', t)
    requires quiet && AllRecoverable(start) ==> outcome != Ambiguous && (reliable ==> outcome == Done)
    requires !Unfinished(d.journal[t]) ==> outcome == Done && d' == d
    ensures Underway(start, trace, d', trace'', todo - {t}, outcome,
              if Unfinished(d.journal[t]) then seen[t := d] else seen, quiet, reliable)
  {
    var rest := todo - {t};
    assert todo == rest + {t};
    var seen' := if Unfinished(d.journal[t]) then seen[t := d] else seen;
    DecidingContinues(start, d, trace, trace', trace'', rest, t, outcome, seen, seen', quiet);
    if quiet { UntouchedContinues(start, d, d', rest, t); }
    RecoveringContinues(start, d, d', rest, t, outcome, quiet, reliable);
  }

  lemma StillByRecord(d0: Disk, d: Disk, t: TxId)
    requires KeepsRecoverable(d0, d) && t in d0.journal && t in d.journal && d.journal[t] == d0.journal[t]
    requires d.journal[t].record.Some?
    ensures RecoverableByRecord(d0, t) ==> RecoverableByRecord(d, t)
  {}

  /** Finishing a transaction whose path shows its old or its new content loses nothing. */
  lemma FinishingKeepsRecoverable(d: Disk, t: TxId)
    requires t in d.journal && Unfinished(d.journal[t])
    requires var intent := d.journal[t].record.value;
      RecoverableByRecord(d, t) ==>
        ContentIn(d, intent.path) == intent.before || ContentIn(d, intent.path) == Index.Visible(intent.after)
    ensures forall dropped :: KeepsRecoverable(d, d.(journal := Finished(d.journal, t, dropped)))
    ensures KeepsRecoverable(d, d)
  {
    forall dropped, p, b, a | Recoverable(d, p, b, a)
      ensures Recoverable(d.(journal := Finished(d.journal, t, dropped)), p, b, a)
    {
      FinishedOne(d, t, dropped, p, b, a);
    }
  }

  lemma FinishedOne(d: Disk, t: TxId, dropped: bool, p: Path, b: Option<Content>, a: Content)
    requires t in d.journal && Unfinished(d.journal[t]) && Recoverable(d, p, b, a)
    requires var intent := d.journal[t].record.value;
      RecoverableByRecord(d, t) ==>
        ContentIn(d, intent.path) == intent.before || ContentIn(d, intent.path) == Index.Visible(intent.after)
    ensures Recoverable(d.(journal := Finished(d.journal, t, dropped)), p, b, a)
  {
    var d' := d.(journal := Finished(d.journal, t, dropped));
    assert ContentIn(d', p) == ContentIn(d, p);
    forall u ensures OpenIn(d', u, p) <==> OpenIn(d, u, p) && u != t {}
    if ContentIn(d, p) != b && ContentIn(d, p) != Index.Visible(a) {
      assert !OpenIn(d, t, p);
      var u :| OpenIn(d, u, p);
      assert OpenIn(d', u, p);
      forall v | OpenIn(d', v, p) ensures Holds(d', v, b) { assert Holds(d, v, b); }
    }
  }

  /** Linking the displaced file back puts the old content in place. */
  lemma LinkingKeepsRecoverable(d: Disk, t: TxId)
    requires t in d.journal && Unfinished(d.journal[t]) && d.journal[t].previous.Some?
    requires d.journal[t].previous.value in d.objects
    requires var intent := d.journal[t].record.value;
      ContentIn(d, intent.path) == None && intent.before != None && intent.after != Deleted
    ensures var d' := d.(names := d.names[d.journal[t].record.value.path := d.journal[t].previous.value]);
      KeepsRecoverable(d, d')
    ensures RecoverableByRecord(d, t) ==>
      var intent := d.journal[t].record.value;
      ContentIn(d.(names := d.names[intent.path := d.journal[t].previous.value]), intent.path) == intent.before
  {
    var q := d.journal[t].record.value.path;
    var d' := d.(names := d.names[q := d.journal[t].previous.value]);
    forall p, b, a | Recoverable(d, p, b, a) ensures Recoverable(d', p, b, a) {
      forall u ensures OpenIn(d', u, p) <==> OpenIn(d, u, p) {}
      if p == q {
        assert OpenIn(d, t, p) && Holds(d, t, b);
      } else {
        assert ContentIn(d', p) == ContentIn(d, p);
        if exists u :: OpenIn(d, u, p) {
          var u :| OpenIn(d, u, p);
          assert OpenIn(d', u, p);
        }
        forall v | Holds(d, v, b) ensures Holds(d', v, b) {}
      }
    }
    if RecoverableByRecord(d, t) {
      assert OpenIn(d, t, q) && Holds(d, t, d.journal[t].record.value.before);
    }
  }

  /** Linking back, and marking if the process lives to do it. */
  lemma RestoringKeepsRecoverable(d: Disk, t: TxId, marked: bool, dropped: bool)
    requires t in d.journal && Unfinished(d.journal[t]) && d.journal[t].previous.Some?
    requires d.journal[t].previous.value in d.objects
    requires var intent := d.journal[t].record.value;
      ContentIn(d, intent.path) == None && intent.before != None && intent.after != Deleted
    ensures KeepsRecoverable(d, Disk(d.objects, d.names[d.journal[t].record.value.path := d.journal[t].previous.value],
                                     if marked then Finished(d.journal, t, dropped) else d.journal))
  {
    LinkingKeepsRecoverable(d, t);
    var linked := d.(names := d.names[d.journal[t].record.value.path := d.journal[t].previous.value]);
    FinishingKeepsRecoverable(linked, t);
    assert KeepsRecoverable(linked, linked.(journal := Finished(d.journal, t, dropped)));
  }

  function Finished(journal: Journal, t: TxId, dropped: bool): Journal
    requires t in journal
  {
    journal[t := Transaction(journal[t].record, if dropped then None else journal[t].incoming, journal[t].previous, true)]
  }
}
