/**
 Who changed the names of a folder, and what became of every file that was ever visible. The program's own
 calls may only do what `Lawful` allows; anybody else's changes are recorded as they are.
 */
module FolderHistory {
  import opened Results
  import opened Paths
  import opened Register

  type Inode = nat
  type TxId = nat

  datatype Object = Regular(hash: Hash) | Folder(empty: bool)

  datatype Intent = Intent(path: Path, before: Option<Content>, after: Content)

  /** One directory under `.everywhere-recovery`. */
  datatype Transaction = Transaction(record: Option<Intent>, incoming: Option<Inode>, previous: Option<Inode>, done: bool)

  type Names = map<Path, Inode>
  type Journal = map<TxId, Transaction>
  type Objects = map<Inode, Object>

  /** Nothing a transaction keeps is ever lost: its record, its displaced file, its completion. */
  predicate JournalGrows(a: Journal, b: Journal) {
    forall t :: t in a ==>
      && t in b
      && (a[t].record.Some? ==> b[t].record == a[t].record)
      && (a[t].previous.Some? ==> b[t].previous == a[t].previous)
      && (a[t].done ==> b[t].done)
  }

  /** Inodes stay, and stay files or directories, whatever is written into them. */
  predicate SameKinds(a: Objects, b: Objects) {
    forall i :: i in a ==> i in b && (a[i].Regular? <==> b[i].Regular?)
  }

  // ---- Changes of names ----

  /**
   One change of the folder: by somebody else, who may also write into files, or by one of the program's four calls.
   A link that the system refuses is recorded as well.
   */
  datatype Event =
    | Theirs(before: Names, after: Names, written: set<Inode>)
    | Linked(path: Path, inode: Inode)
    | Refused(path: Path, inode: Inode)
    | Taken(path: Path, tx: TxId, inode: Inode)
    | Made(path: Path, inode: Inode)
    | Removed(path: Path, inode: Inode, was: Object)

  type Trace = seq<Event>

  function LinkEvent(ok: bool, p: Path, i: Inode): Event {
    if ok then Linked(p, i) else Refused(p, i)
  }

  function Changed(names: Names, e: Event): Names {
    match e
    case Theirs(_, after, _) => after
    case Linked(p, i) => names[p := i]
    case Refused(_, _) => names
    case Taken(p, _, _) => names - {p}
    case Made(p, i) => names[p := i]
    case Removed(p, _, _) => names - {p}
  }

  function NamesAfter(trace: Trace): Names {
    if trace == [] then map[] else Changed(NamesAfter(trace[..|trace| - 1]), trace[|trace| - 1])
  }

  /**
   A new name never replaces one that is there; a name that is taken away names a file that the transaction
   keeps as its `previous`, or an empty directory.
   */
  predicate Lawful(names: Names, e: Event, journal: Journal, objects: Objects) {
    match e
    case Theirs(before, _, _) => before == names
    case Linked(p, i) => p !in names && i in objects && objects[i].Regular?
    case Refused(_, _) => true
    case Taken(p, t, i) => p in names && names[p] == i && t in journal && journal[t].previous == Some(i)
    case Made(p, i) => p !in names && i in objects && objects[i].Folder?
    case Removed(p, i, was) => p in names && names[p] == i && was == Folder(true) && i in objects && objects[i].Folder?
  }

  predicate LawfulTrace(trace: Trace, journal: Journal, objects: Objects) {
    trace == []
    || (LawfulTrace(trace[..|trace| - 1], journal, objects)
        && Lawful(NamesAfter(trace[..|trace| - 1]), trace[|trace| - 1], journal, objects))
  }

  lemma LawfulAppend(trace: Trace, e: Event, journal: Journal, objects: Objects)
    requires LawfulTrace(trace, journal, objects) && Lawful(NamesAfter(trace), e, journal, objects)
    ensures LawfulTrace(trace + [e], journal, objects) && NamesAfter(trace + [e]) == Changed(NamesAfter(trace), e)
  {
    assert (trace + [e])[..|trace|] == trace;
  }

  /** What was lawful stays lawful as the journal grows and files are written. */
  lemma {:induction false} LawfulStays(trace: Trace, journal: Journal, objects: Objects, journal': Journal, objects': Objects)
    requires LawfulTrace(trace, journal, objects) && JournalGrows(journal, journal') && SameKinds(objects, objects')
    ensures LawfulTrace(trace, journal', objects')
  {
    if trace != [] {
      LawfulStays(trace[..|trace| - 1], journal, objects, journal', objects');
    }
  }

  /** Nobody else acted from event `n` on. */
  predicate OwnOnly(trace: Trace, n: nat) {
    forall k :: n <= k < |trace| ==> !trace[k].Theirs?
  }

  /** The record only gets longer, by nobody else's changes if the folder is `quiet`. */
  ghost predicate Onward(trace: Trace, trace': Trace, quiet: bool) {
    trace <= trace' && (quiet ==> OwnOnly(trace', |trace|))
  }

  /** The program's own changes from event `n` on. */
  function OwnSince(trace: Trace, n: nat): Trace
    requires n <= |trace|
    decreases |trace|
  {
    if |trace| == n then []
    else
      var e := trace[|trace| - 1];
      OwnSince(trace[..|trace| - 1], n) + (if e.Theirs? then [] else [e])
  }

  /** From `trace` to `trace'` the program itself made exactly the changes `own`. */
  ghost predicate Makes(trace: Trace, trace': Trace, own: Trace) {
    trace <= trace' && OwnSince(trace', |trace|) == own
  }

  lemma MakesNothing(trace: Trace)
    ensures Makes(trace, trace, [])
  {
  }

  lemma MakesOne(trace: Trace, e: Event)
    ensures Makes(trace, trace + [e], if e.Theirs? then [] else [e])
  {
    assert (trace + [e])[..|trace|] == trace;
    assert OwnSince(trace, |trace|) == [];
  }

  lemma OwnChange(trace: Trace, e: Event, quiet: bool)
    requires !e.Theirs?
    ensures Makes(trace, trace + [e], [e]) && Onward(trace, trace + [e], quiet)
  {
    MakesOne(trace, e);
  }

  lemma {:induction false} OwnSplits(trace: Trace, n: nat, m: nat)
    requires n <= m <= |trace|
    ensures OwnSince(trace, n) == OwnSince(trace[..m], n) + OwnSince(trace, m)
    decreases |trace|
  {
    if m == |trace| {
      assert trace[..m] == trace;
    } else {
      var front := trace[..|trace| - 1];
      OwnSplits(front, n, m);
      assert front[..m] == trace[..m];
    }
  }

  lemma MakesTwice(a: Trace, b: Trace, c: Trace, first: Trace, second: Trace)
    requires Makes(a, b, first) && Makes(b, c, second)
    ensures Makes(a, c, first + second)
  {
    OwnSplits(c, |a|, |b|);
    assert c[..|b|] == b;
  }

  /** A change of the program's own between changes of others. */
  lemma MakesAmong(a: Trace, b: Trace, e: Event, c: Trace)
    requires b == a + [e] && !e.Theirs? && Makes(b, c, [])
    ensures Makes(a, c, [e])
  {
    MakesOne(a, e);
    MakesTwice(a, b, c, [e], []);
    assert [e] + [] == [e];
  }

  lemma MakesLater(a: Trace, b: Trace, c: Trace, own: Trace)
    requires Makes(a, b, []) && Makes(b, c, own)
    ensures Makes(a, c, own)
  {
    MakesTwice(a, b, c, [], own);
    assert [] + own == own;
  }

  // ---- What others wrote ----

  /** Somebody else wrote into `i` at event `n` or later. */
  predicate WrittenSince(trace: Trace, n: nat, i: Inode) {
    exists k :: n <= k < |trace| && trace[k].Theirs? && i in trace[k].written
  }

  /** A file has the content it had, or somebody else wrote into it. */
  ghost predicate Untampered(trace: Trace, trace': Trace, objects: Objects, objects': Objects) {
    trace <= trace' && forall i :: i in objects ==> i in objects' && (objects'[i] == objects[i] || WrittenSince(trace', |trace|, i))
  }

  lemma WrittenStays(a: Trace, b: Trace, n: nat, m: nat, i: Inode)
    requires a <= b && n <= m && WrittenSince(a, m, i)
    ensures WrittenSince(b, n, i)
  {
    var k :| m <= k < |a| && a[k].Theirs? && i in a[k].written;
    assert b[k] == a[k];
  }

  lemma UntamperedTwice(a: Trace, b: Trace, c: Trace, first: Objects, second: Objects, third: Objects)
    requires Untampered(a, b, first, second) && Untampered(b, c, second, third)
    ensures Untampered(a, c, first, third)
  {
    forall i | i in first && third[i] != first[i] ensures WrittenSince(c, |a|, i) {
      if second[i] != first[i] { WrittenStays(b, c, |a|, |a|, i); } else { WrittenStays(c, c, |a|, |b|, i); }
    }
  }

  /** A change of the program's own, and what followed. */
  lemma ChangeThen(a: Trace, e: Event, c: Trace, rest: Trace, objects: Objects, objects': Objects)
    requires !e.Theirs? && Makes(a + [e], c, rest) && Untampered(a + [e], c, objects, objects')
    ensures Makes(a, c, [e] + rest) && Untampered(a, c, objects, objects')
  {
    MakesOne(a, e);
    MakesTwice(a, a + [e], c, [e], rest);
    UntamperedTwice(a, a + [e], c, objects, objects, objects');
  }

  /** The program itself changed no name, and files changed only under others' hands. */
  ghost predicate Idle(trace: Trace, trace': Trace, objects: Objects, objects': Objects) {
    Makes(trace, trace', []) && Untampered(trace, trace', objects, objects')
  }

  lemma IdleTwice(a: Trace, b: Trace, c: Trace, first: Objects, second: Objects, third: Objects)
    requires Idle(a, b, first, second) && Idle(b, c, second, third)
    ensures Idle(a, c, first, third)
  {
    MakesTwice(a, b, c, [], []);
    UntamperedTwice(a, b, c, first, second, third);
  }

  /** `i` has the content `x`, or somebody else wrote into it since event `n`. */
  predicate HasOrWritten(trace: Trace, n: nat, objects: Objects, i: Inode, x: Object) {
    i in objects && (objects[i] == x || WrittenSince(trace, n, i))
  }

  lemma StillHas(a: Trace, b: Trace, n: nat, first: Objects, second: Objects, i: Inode, x: Object)
    requires n <= |a| && HasOrWritten(a, n, first, i, x) && Untampered(a, b, first, second)
    ensures HasOrWritten(b, n, second, i, x)
  {
    if second[i] != x {
      if first[i] == x { WrittenStays(b, b, n, |a|, i); } else { WrittenStays(a, b, n, n, i); }
    }
  }

  lemma HasEarlier(trace: Trace, n: nat, m: nat, objects: Objects, i: Inode, x: Object)
    requires n <= m && HasOrWritten(trace, m, objects, i, x)
    ensures HasOrWritten(trace, n, objects, i, x)
  {
    if WrittenSince(trace, m, i) { WrittenStays(trace, trace, n, m, i); }
  }

  // ---- Where every file went ----

  ghost predicate InSight(names: Names, i: Inode) {
    exists p :: p in names && names[p] == i
  }

  ghost predicate Displaced(journal: Journal, i: Inode) {
    exists t :: t in journal && journal[t].previous == Some(i)
  }

  /** The inodes that somebody else's change of the names takes out of sight. */
  ghost function Gone(names: Names, names': Names): set<Inode> {
    set p | p in names && !InSight(names', names[p]) :: names[p]
  }

  /** Somebody else took `i` out of sight at event `n` or later. */
  ghost predicate Discarded(trace: Trace, n: nat, i: Inode) {
    exists k :: n <= k < |trace| && trace[k].Theirs? && i in Gone(trace[k].before, trace[k].after)
  }

  ghost predicate Accounted(trace: Trace, n: nat, names: Names, journal: Journal, i: Inode) {
    InSight(names, i) || Displaced(journal, i) || Discarded(trace, n, i)
  }

  /**
   Every file visible after the first `n` events is visible now, is some transaction's `previous`, or was taken
   out of sight by somebody else since.
   */
  ghost predicate AccountedSince(trace: Trace, n: nat, names: Names, journal: Journal, objects: Objects)
    requires n <= |trace|
  {
    forall i :: InSight(NamesAfter(trace[..n]), i) && i in objects && objects[i].Regular? ==>
      Accounted(trace, n, names, journal, i)
  }

  /** One lawful change hides a file only in a `previous`, or by somebody else's hand. */
  lemma OneChangeAccounts(names: Names, e: Event, journal: Journal, objects: Objects, i: Inode)
    requires Lawful(names, e, journal, objects) && InSight(names, i) && i in objects && objects[i].Regular?
    ensures InSight(Changed(names, e), i) || Displaced(journal, i) || (e.Theirs? && i in Gone(e.before, e.after))
  {
    var p :| p in names && names[p] == i;
    if !e.Theirs? {
      if p in Changed(names, e) {
        assert Changed(names, e)[p] == i;
      } else if e.Taken? {
        assert journal[e.tx].previous == Some(i);
      }
    }
  }

  lemma {:induction false} LawfulTracesAccount(trace: Trace, n: nat, journal: Journal, objects: Objects, i: Inode)
    requires LawfulTrace(trace, journal, objects) && n <= |trace|
    requires InSight(NamesAfter(trace[..n]), i) && i in objects && objects[i].Regular?
    ensures Accounted(trace, n, NamesAfter(trace), journal, i)
    decreases |trace|
  {
    if n == |trace| {
      assert trace[..n] == trace;
    } else {
      var front, e := trace[..|trace| - 1], trace[|trace| - 1];
      assert front[..n] == trace[..n];
      LawfulTracesAccount(front, n, journal, objects, i);
      if InSight(NamesAfter(front), i) {
        OneChangeAccounts(NamesAfter(front), e, journal, objects, i);
      } else if Discarded(front, n, i) {
        var k :| n <= k < |front| && front[k].Theirs? && i in Gone(front[k].before, front[k].after);
        assert trace[k] == front[k];
      }
    }
  }

  /** At every moment of the past. */
  lemma EverythingIsAccounted(trace: Trace, journal: Journal, objects: Objects)
    requires LawfulTrace(trace, journal, objects)
    ensures forall n: nat :: n <= |trace| ==> AccountedSince(trace, n, NamesAfter(trace), journal, objects)
  {
    forall n: nat, i | n <= |trace| && InSight(NamesAfter(trace[..n]), i) && i in objects && objects[i].Regular?
      ensures Accounted(trace, n, NamesAfter(trace), journal, i)
    {
      LawfulTracesAccount(trace, n, journal, objects, i);
    }
  }

  /** An entry stays, or it was a file and is now a `previous`, or it was an empty directory. */
  predicate KeptOrTaken(p: Path, names: Names, e: Event, journal: Journal)
    requires p in names
  {
    || (p in Changed(names, e) && Changed(names, e)[p] == names[p])
    || (e.Taken? && e.path == p && e.tx in journal && journal[e.tx].previous == Some(names[p]))
    || (e.Removed? && e.path == p && e.inode == names[p] && e.was == Folder(true))
  }

  /** The program's own changes from event `n` on replace no name and drop no file. */
  ghost predicate ReplacedNothing(trace: Trace, n: nat, journal: Journal) {
    forall k: nat, p :: n <= k < |trace| && !trace[k].Theirs? && p in NamesAfter(trace[..k]) ==>
      KeptOrTaken(p, NamesAfter(trace[..k]), trace[k], journal)
  }

  lemma {:induction false} LawfulAt(trace: Trace, journal: Journal, objects: Objects, k: nat)
    requires LawfulTrace(trace, journal, objects) && k < |trace|
    ensures Lawful(NamesAfter(trace[..k]), trace[k], journal, objects)
    decreases |trace|
  {
    var front := trace[..|trace| - 1];
    if k == |front| {
      assert trace[..k] == front;
    } else {
      assert front[..k] == trace[..k] && front[k] == trace[k];
      LawfulAt(front, journal, objects, k);
    }
  }

  /**
   What a call leaves, whoever else acts: every file visible when it began, or at any moment since, is accounted
   for, and nothing the program did replaced a name or dropped a file.
   */
  ghost predicate NothingLost(before: Trace, trace: Trace, names: Names, journal: Journal, objects: Objects) {
    && before <= trace
    && (forall n: nat :: |before| <= n <= |trace| ==> AccountedSince(trace, n, names, journal, objects))
    && ReplacedNothing(trace, |before|, journal)
  }

  lemma LawfulLosesNothing(before: Trace, trace: Trace, journal: Journal, objects: Objects)
    requires before <= trace && LawfulTrace(trace, journal, objects)
    ensures NothingLost(before, trace, NamesAfter(trace), journal, objects)
  {
    EverythingIsAccounted(trace, journal, objects);
    forall k: nat, p | |before| <= k < |trace| && !trace[k].Theirs? && p in NamesAfter(trace[..k])
      ensures KeptOrTaken(p, NamesAfter(trace[..k]), trace[k], journal)
    {
      LawfulAt(trace, journal, objects, k);
    }
  }

  /** Read off a call's contract: a file at a path before it is somewhere after it, or somebody else removed it. */
  lemma FileIsSomewhere(before: Trace, trace: Trace, names: Names, journal: Journal, objects: Objects, p: Path)
    requires NothingLost(before, trace, names, journal, objects) && p in NamesAfter(before)
    requires NamesAfter(before)[p] in objects && objects[NamesAfter(before)[p]].Regular?
    ensures Accounted(trace, |before|, names, journal, NamesAfter(before)[p])
    ensures OwnOnly(trace, |before|) ==> InSight(names, NamesAfter(before)[p]) || Displaced(journal, NamesAfter(before)[p])
  {
    assert trace[..|before|] == before;
    assert AccountedSince(trace, |before|, names, journal, objects);
    assert InSight(NamesAfter(before), NamesAfter(before)[p]);
  }
}
