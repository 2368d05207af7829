/**
 * Replacing a share's index by a prepared one (src/share/backup.rs): an intent file, four renames into an
 * archive, a no-clobber link, a config rename. The process may die between any two calls.
 */
module IndexReplacement {
  import opened Results

  type Inode = nat
  type Nonce = nat
  type Hash = string

  /** The index and its SQLite sidecars, in the order in which they are archived. */
  datatype Part = Wal | Shm | Journal | Index {
    function Rank(): nat {
      match this
      case Wal => 0
      case Shm => 1
      case Journal => 2
      case Index => 3
    }
  }

  const PARTS: seq<Part> := [Wal, Shm, Journal, Index]

  datatype Name = Live(part: Part) | Candidate(nonce: Nonce) | Staging(nonce: Nonce) | IntentFile | ConfigFile

  datatype Mode = Bidirectional | SendOnly | ReceiveOnly

  datatype Config = Config(id: string, identity: string, root: string, marker: string, mode: Mode, peers: set<string>, epoch: string)

  datatype Plan = Plan(nonce: Nonce, database: Hash, config: Config)

  /** What a file holds; a digest identifies a database or an object. */
  datatype Data = Database(hash: Hash) | Blob(hash: Hash) | Settings(config: Config) | Intent(plan: Plan)

  datatype Outcome = Done | Crashed | Unbound | Busy | Conflict

  /** The share's directory with its `index-before-<nonce>` archives. */
  datatype Disk = Disk(names: map<Name, Inode>, archives: map<Nonce, map<Part, Inode>>, data: map<Inode, Data>)

  /** What an unfinished replacement is about: its plan, the prepared file, the files and settings it replaces. */
  datatype Job = Job(plan: Plan, candidate: Inode, before: map<Part, Inode>, config: Config)

  function LiveParts(d: Disk): map<Part, Inode> {
    map part | Live(part) in d.names :: d.names[Live(part)]
  }

  predicate HasConfig(d: Disk, config: Config) {
    ConfigFile in d.names && d.names[ConfigFile] in d.data && d.data[d.names[ConfigFile]] == Settings(config)
  }

  predicate HasIntent(d: Disk, plan: Plan) {
    IntentFile in d.names && d.names[IntentFile] in d.data && d.data[d.names[IntentFile]] == Intent(plan)
  }

  /** The parts of rank below `k` are in the archive, the others are still in place. */
  ghost predicate Displaced(d: Disk, job: Job, k: nat) {
    && job.plan.nonce in d.archives
    && (forall part :: part in d.archives[job.plan.nonce] <==> part in job.before && part.Rank() < k)
    && (forall part :: part in d.archives[job.plan.nonce] && part in job.before ==>
          d.archives[job.plan.nonce][part] == job.before[part])
    && (forall part :: Live(part) in d.names ==>
          (part in job.before && part.Rank() >= k && d.names[Live(part)] == job.before[part]) || Published(d, job, k, part))
    && (forall part :: part in job.before && part.Rank() >= k ==> Live(part) in d.names)
  }

  predicate Published(d: Disk, job: Job, k: nat, part: Part) {
    part == Index && k == 4 && Live(Index) in d.names && d.names[Live(Index)] == job.candidate
  }

  /** The settings before and after differ in the epoch only. */
  predicate SameFolder(a: Config, b: Config) {
    a.(epoch := b.epoch) == b
  }

  function Regranted(config: Config, peer: string, remove: bool): Config {
    config.(peers := if remove then config.peers - {peer} else config.peers + {peer})
  }

  predicate Prepared(d: Disk, job: Job) {
    && job.candidate in d.data && d.data[job.candidate] == Database(job.plan.database)
    && job.candidate !in job.before.Values
    && SameFolder(job.config, job.plan.config)
  }

  ghost predicate InProgressAt(d: Disk, job: Job, k: nat) {
    && k <= 4 && Prepared(d, job) && HasIntent(d, job.plan)
    && (HasConfig(d, job.config) || HasConfig(d, job.plan.config))
    && Displaced(d, job, k)
    && (Candidate(job.plan.nonce) in d.names ==> d.names[Candidate(job.plan.nonce)] == job.candidate)
    && (Candidate(job.plan.nonce) !in d.names ==> Published(d, job, k, Index))
  }

  /** An intent is published and the work it describes may have been cut off anywhere. */
  ghost predicate InProgress(d: Disk, job: Job) {
    exists k: nat :: InProgressAt(d, job, k)
  }

  /** The prepared index alone is in place, everything it replaced is in the archive, and the intent is gone. */
  ghost predicate Replaced(d: Disk, job: Job) {
    && IntentFile !in d.names && Candidate(job.plan.nonce) !in d.names
    && LiveParts(d) == map[Index := job.candidate]
    && job.candidate in d.data && d.data[job.candidate] == Database(job.plan.database)
    && job.plan.nonce in d.archives && d.archives[job.plan.nonce] == job.before
    && HasConfig(d, job.plan.config)
  }

  // ---- What the state in between guarantees ----

  /** No sidecar of the old index is ever next to the new one. */
  lemma SidecarsNeverMeetTheNewIndex(d: Disk, job: Job, part: Part)
    requires InProgress(d, job) && part != Index && Live(part) in d.names
    ensures part in job.before && d.names[Live(part)] == job.before[part]
    ensures Index in job.before ==> Live(Index) in d.names && d.names[Live(Index)] == job.before[Index]
  {
    var k: nat :| InProgressAt(d, job, k);
    assert part.Rank() < 3;
  }

  /** Every replaced file is in exactly one of the two places. */
  lemma NothingIsLost(d: Disk, job: Job, part: Part)
    requires InProgress(d, job) && part in job.before
    ensures job.plan.nonce in d.archives
    ensures (Live(part) in d.names && d.names[Live(part)] == job.before[part])
      <==> part !in d.archives[job.plan.nonce]
    ensures part in d.archives[job.plan.nonce] ==> d.archives[job.plan.nonce][part] == job.before[part]
  {
    var k: nat :| InProgressAt(d, job, k);
    if part.Rank() >= k {
      assert Live(part) in d.names;
    } else if Live(part) in d.names {
      assert Published(d, job, k, part);
    }
  }

  /** The check "share configuration changed during index recovery" cannot fail. */
  lemma ConfigStaysCompatible(d: Disk, job: Job, current: Config)
    requires InProgress(d, job) && HasConfig(d, current)
    ensures SameFolder(current, job.plan.config) && current.peers == job.config.peers
  {
    var k: nat :| InProgressAt(d, job, k);
    assert HasConfig(d, job.config) || HasConfig(d, job.plan.config);
  }

  // ---- The single calls ----

  function Archived(d: Disk, nonce: Nonce, part: Part): Disk
    requires Live(part) in d.names && nonce in d.archives
  {
    d.(names := d.names - {Live(part)}, archives := d.archives[nonce := d.archives[nonce][part := d.names[Live(part)]]])
  }

  function LinkedIn(d: Disk, nonce: Nonce): Disk
    requires Candidate(nonce) in d.names
  {
    d.(names := d.names[Live(Index) := d.names[Candidate(nonce)]])
  }

  function WithConfig(d: Disk, inode: Inode, config: Config): Disk {
    d.(names := d.names[ConfigFile := inode], data := d.data[inode := Settings(config)])
  }

  lemma ArchivingKeepsProgress(d: Disk, job: Job, k: nat, part: Part)
    requires InProgressAt(d, job, k) && Live(part) in d.names && part.Rank() == k
    ensures part !in d.archives[job.plan.nonce]
    ensures InProgressAt(Archived(d, job.plan.nonce, part), job, k + 1)
  {
    var e := Archived(d, job.plan.nonce, part);
    assert forall q: Part :: q.Rank() == k ==> q == part;
    assert forall q: Part :: Live(q) in e.names ==> Live(q) in d.names && q != part;
    assert HasIntent(e, job.plan);
    assert HasConfig(d, job.config) ==> HasConfig(e, job.config);
    assert HasConfig(d, job.plan.config) ==> HasConfig(e, job.plan.config);
  }

  /** A missing part is passed over; once the new index is published there is nothing left to pass. */
  lemma PassingKeepsProgress(d: Disk, job: Job, k: nat, part: Part)
    requires InProgressAt(d, job, k) && Live(part) !in d.names && part.Rank() == k
    ensures InProgressAt(d, job, k + 1)
  {
    assert forall q: Part :: q.Rank() == k ==> q == part;
    assert part !in job.before;
  }

  /** Before publication, a part still in place is one whose turn has not passed. */
  lemma StillInPlace(d: Disk, job: Job, k: nat, part: Part)
    requires InProgressAt(d, job, k) && !Published(d, job, k, Index) && Live(part) in d.names
    ensures part.Rank() >= k
  {
    assert part.Rank() >= k || Published(d, job, k, part);
  }

  lemma LinkingKeepsProgress(d: Disk, job: Job)
    requires InProgressAt(d, job, 4) && Live(Index) !in d.names
    ensures Candidate(job.plan.nonce) in d.names
    ensures InProgressAt(LinkedIn(d, job.plan.nonce), job, 4)
  {
    var e := LinkedIn(d, job.plan.nonce);
    assert Published(e, job, 4, Index);
    assert forall q: Part :: Live(q) in e.names ==> q == Index || Live(q) in d.names;
    assert HasIntent(e, job.plan);
    assert HasConfig(d, job.config) ==> HasConfig(e, job.config);
    assert HasConfig(d, job.plan.config) ==> HasConfig(e, job.plan.config);
  }

  lemma UnlinkingKeepsProgress(d: Disk, job: Job)
    requires InProgressAt(d, job, 4) && Published(d, job, 4, Index)
    ensures InProgressAt(d.(names := d.names - {Candidate(job.plan.nonce)}), job, 4)
  {
    var e := d.(names := d.names - {Candidate(job.plan.nonce)});
    assert Published(e, job, 4, Index);
    assert HasConfig(d, job.config) ==> HasConfig(e, job.config);
    assert HasConfig(d, job.plan.config) ==> HasConfig(e, job.plan.config);
  }

  lemma WritingConfigKeepsProgress(d: Disk, job: Job, inode: Inode)
    requires InProgressAt(d, job, 4) && inode !in d.data && Published(d, job, 4, Index)
    ensures InProgressAt(WithConfig(d, inode, job.plan.config), job, 4)
    ensures HasConfig(WithConfig(d, inode, job.plan.config), job.plan.config)
    ensures Published(WithConfig(d, inode, job.plan.config), job, 4, Index)
  {
    var e := WithConfig(d, inode, job.plan.config);
    assert HasIntent(e, job.plan);
    assert forall q: Part :: Live(q) in e.names <==> Live(q) in d.names;
  }

  lemma RemovingIntentCompletes(d: Disk, job: Job)
    requires InProgressAt(d, job, 4) && Published(d, job, 4, Index)
    requires Candidate(job.plan.nonce) !in d.names && HasConfig(d, job.plan.config)
    ensures Replaced(d.(names := d.names - {IntentFile}), job)
  {
    var e := d.(names := d.names - {IntentFile});
    assert forall q: Part :: Live(q) in e.names <==> q == Index;
    assert forall q: Part :: q in job.before ==> q.Rank() < 4;
    assert e.archives[job.plan.nonce] == job.before;
  }

  /** No name is added or rebound. */
  predicate OnlyFewer(names: map<Name, Inode>, names': map<Name, Inode>) {
    forall n :: n in names' ==> n in names && names'[n] == names[n]
  }

  /** Only the two files that a replacement publishes may have become names of the directory. */
  predicate OnlyPublished(names: map<Name, Inode>, names': map<Name, Inode>) {
    forall n :: n in names' ==> n in names || n == Live(Index) || n == ConfigFile
  }

  predicate OtherArchivesKept(archives: map<Nonce, map<Part, Inode>>, archives': map<Nonce, map<Part, Inode>>, nonce: Nonce) {
    archives'.Keys == archives.Keys && forall n :: n in archives && n != nonce ==> archives'[n] == archives[n]
  }

  predicate IntactIn(objects: map<Hash, Inode>, data: map<Inode, Data>, h: Hash) {
    h in objects && objects[h] in data && data[objects[h]] == Blob(h)
  }

  /** An object stays in place, or was corrupt and is now in the archive of this recovery. */
  predicate ObjectKept(objects: map<Hash, Inode>, data: map<Inode, Data>, objects': map<Hash, Inode>,
                       saved': map<(Nonce, Hash), Inode>, nonce: Nonce, h: Hash)
    requires h in objects
  {
    || (h in objects' && objects'[h] == objects[h])
    || (!IntactIn(objects, data, h) && (nonce, h) in saved' && saved'[(nonce, h)] == objects[h])
  }

  class Folder {
    /** Whether the process lives. */
    const reliable: bool
    var names: map<Name, Inode>
    var archives: map<Nonce, map<Part, Inode>>
    var data: map<Inode, Data>
    var next: Inode
    /** The files under `objects`, and the corrupt ones that a recovery moved into its archive. */
    var objects: map<Hash, Inode>
    var saved: map<(Nonce, Hash), Inode>

    function View(): Disk
      reads this
    {
      Disk(names, archives, data)
    }

    ghost predicate Valid()
      reads this
    {
      && (forall i :: i in data ==> i < next)
      && (forall n :: n in names ==> names[n] < next)
      && (forall h :: h in objects ==> objects[h] < next)
    }

    /** `finish`: what a first attempt and every resumed one run. `bound` says the folder's mount is present. */
    method Finish(plan: Plan, bound: bool, ghost job: Job) returns (outcome: Outcome)
      requires Valid() && InProgress(View(), job) && job.plan == plan
      modifies this
      ensures Valid() && outcome != Conflict
      ensures outcome == Unbound ==> !bound
      ensures reliable ==> outcome == if bound then Done else Unbound
      ensures outcome == Done ==> Replaced(View(), job)
      ensures outcome != Done ==> InProgress(View(), job)
      ensures OtherArchivesKept(old(archives), archives, plan.nonce) && OnlyPublished(old(names), names)
      ensures DataKept(old(data), data) && objects == old(objects)
    {
      if !bound {
        return Unbound;
      }
      outcome := CheckConfig(plan, job);
      if outcome != Done {
        return;
      }
      if Candidate(plan.nonce) in names {
        outcome := PublishCandidate(plan, job);
        if outcome != Done {
          return;
        }
        var crash: bool := *;
        crash := crash && !reliable;
        if crash {
          return Crashed;
        }
      }
      outcome := Conclude(plan, job);
    }

    method CheckConfig(plan: Plan, ghost job: Job) returns (outcome: Outcome)
      requires InProgress(View(), job) && job.plan == plan
      ensures outcome == Done
    {
      if ConfigFile !in names || names[ConfigFile] !in data || !data[names[ConfigFile]].Settings? {
        return Conflict;
      }
      var current := data[names[ConfigFile]].config;
      ConfigStaysCompatible(View(), job, current);
      if !SameFolder(current, plan.config) {
        return Conflict;
      }
      outcome := Done;
    }

    /** Displace the old generation, link the prepared index in, drop its prepared name. */
    method PublishCandidate(plan: Plan, ghost job: Job) returns (outcome: Outcome)
      requires Valid() && InProgress(View(), job) && job.plan == plan && Candidate(plan.nonce) in names
      modifies `names, `archives
      ensures Valid() && outcome in {Done, Crashed} && InProgress(View(), job) && (reliable ==> outcome == Done)
      ensures outcome == Done ==> Candidate(plan.nonce) !in names
      ensures OtherArchivesKept(old(archives), archives, plan.nonce) && OnlyPublished(old(names), names)
    {
      ghost var k: nat :| InProgressAt(View(), job, k);
      var candidate := names[Candidate(plan.nonce)];
      if candidate !in data || data[candidate] != Database(plan.database) {
        return Conflict;
      }
      if Live(Index) !in names || names[Live(Index)] != candidate {
        outcome := DisplaceAll(plan, job, k);
        if outcome != Done {
          return;
        }
        LinkIn(plan.nonce, job);
        var crash: bool := *;
        crash := crash && !reliable;
        if crash {
          return Crashed;
        }
      }
      DropCandidate(plan.nonce, job);
      outcome := Done;
    }

    method DropCandidate(nonce: Nonce, ghost job: Job)
      requires InProgressAt(View(), job, 4) && nonce == job.plan.nonce && Published(View(), job, 4, Index)
      modifies `names
      ensures InProgressAt(View(), job, 4) && names == old(names) - {Candidate(nonce)}
    {
      UnlinkingKeepsProgress(View(), job);
      names := names - {Candidate(nonce)};
    }

    /** The hard link fails if the name exists, so nothing is replaced. */
    method LinkIn(nonce: Nonce, ghost job: Job)
      requires InProgressAt(View(), job, 4) && nonce == job.plan.nonce && Live(Index) !in names && Candidate(nonce) in names
      modifies `names
      ensures InProgressAt(View(), job, 4) && Published(View(), job, 4, Index)
      ensures names == old(names)[Live(Index) := old(names)[Candidate(nonce)]]
    {
      LinkingKeepsProgress(View(), job);
      names := names[Live(Index) := names[Candidate(nonce)]];
    }

    method DisplaceAll(plan: Plan, ghost job: Job, ghost start: nat) returns (outcome: Outcome)
      requires InProgressAt(View(), job, start) && job.plan == plan && Candidate(plan.nonce) in names
      requires !Published(View(), job, start, Index)
      modifies `names, `archives
      ensures outcome in {Done, Crashed} && InProgress(View(), job) && (reliable ==> outcome == Done)
      ensures outcome == Done ==> InProgressAt(View(), job, 4) && Live(Index) !in names
      ensures Candidate(plan.nonce) in names && OnlyFewer(old(names), names)
      ensures OtherArchivesKept(old(archives), archives, plan.nonce)
    {
      ghost var k := start;
      outcome := Done;
      for i := 0 to |PARTS|
        invariant i <= k && InProgressAt(View(), job, k) && !Published(View(), job, k, Index) && outcome == Done
        invariant Candidate(plan.nonce) in names && OnlyFewer(old(names), names)
        invariant OtherArchivesKept(old(archives), archives, plan.nonce)
      {
        assert PARTS[i].Rank() == i;
        outcome, k := Displace(plan, PARTS[i], job, k);
        if outcome != Done {
          return;
        }
      }
    }

    /** One turn of the loop. */
    method Displace(plan: Plan, part: Part, ghost job: Job, ghost k: nat) returns (outcome: Outcome, ghost k': nat)
      requires InProgressAt(View(), job, k) && job.plan == plan && !Published(View(), job, k, Index)
      requires part.Rank() <= k && Candidate(plan.nonce) in names
      modifies `names, `archives
      ensures outcome in {Done, Crashed} && InProgressAt(View(), job, k') && !Published(View(), job, k', Index)
      ensures reliable ==> outcome == Done
      ensures part.Rank() < k' && Live(part) !in names
      ensures Candidate(plan.nonce) in names && OnlyFewer(old(names), names)
      ensures OtherArchivesKept(old(archives), archives, plan.nonce)
    {
      k' := k;
      if Live(part) in names {
        StillInPlace(View(), job, k, part);
        ArchivingKeepsProgress(View(), job, k, part);
        if part in archives[plan.nonce] {
          return Conflict, k';
        }
        MoveAside(plan.nonce, part);
        k' := k + 1;
        var crash: bool := *;
        crash := crash && !reliable;
        return if crash then Crashed else Done, k';
      }
      if part.Rank() == k {
        PassingKeepsProgress(View(), job, k, part);
        k' := k + 1;
      }
      outcome := Done;
    }

    method MoveAside(nonce: Nonce, part: Part)
      requires Live(part) in names && nonce in archives
      modifies `names, `archives
      ensures View() == Archived(old(View()), nonce, part)
    {
      archives := archives[nonce := archives[nonce][part := names[Live(part)]]];
      names := names - {Live(part)};
    }

    /** Check the published index, replace the settings, remove the intent. */
    method Conclude(plan: Plan, ghost job: Job) returns (outcome: Outcome)
      requires Valid() && InProgress(View(), job) && job.plan == plan && Candidate(plan.nonce) !in names
      modifies this
      ensures Valid() && outcome in {Done, Crashed} && (reliable ==> outcome == Done)
      ensures outcome == Done ==> Replaced(View(), job)
      ensures outcome != Done ==> InProgress(View(), job)
      ensures archives == old(archives) && OnlyPublished(old(names), names)
      ensures DataKept(old(data), data) && objects == old(objects)
    {
      ghost var k: nat :| InProgressAt(View(), job, k);
      assert Published(View(), job, 4, Index);
      if Live(Index) !in names || names[Live(Index)] !in data || data[names[Live(Index)]] != Database(plan.database) {
        return Conflict;
      }
      // A scratch file may be left behind.
      var crash: bool := *;
      crash := crash && !reliable;
      if crash {
        return Crashed;
      }
      WritingConfigKeepsProgress(View(), job, next);
      WriteConfig(plan.config);
      crash := *;
      crash := crash && !reliable;
      if crash {
        return Crashed;
      }
      RemovingIntentCompletes(View(), job);
      names := names - {IntentFile};
      outcome := Done;
    }

    /** A scratch file renamed over `config.json`. */
    method WriteConfig(config: Config)
      requires Valid()
      modifies this
      ensures Valid() && View() == WithConfig(old(View()), old(next), config)
      ensures next == old(next) + 1 && objects == old(objects)
    {
      data := data[next := Settings(config)];
      names := names[ConfigFile := next];
      next := next + 1;
    }

    /** `resume`, which runs before an index is opened. */
    method Resume(bound: bool, ghost job: Job) returns (outcome: Outcome)
      requires Valid() && (InProgress(View(), job) || IntentFile !in names)
      modifies this
      ensures Valid() && outcome != Conflict
      ensures outcome == Unbound ==> !bound
      ensures old(InProgress(View(), job)) ==> if outcome == Done then Replaced(View(), job) else InProgress(View(), job)
      ensures old(InProgress(View(), job)) ==> OtherArchivesKept(old(archives), archives, job.plan.nonce)
      ensures !old(InProgress(View(), job)) ==> outcome == Done && View() == old(View())
      ensures reliable && bound ==> outcome == Done
      ensures OnlyPublished(old(names), names) && archives.Keys == old(archives).Keys
      ensures DataKept(old(data), data) && objects == old(objects)
    {
      if IntentFile !in names {
        return Done;
      }
      var plan := data[names[IntentFile]].plan;
      outcome := Finish(plan, bound, job);
    }

    /** `grant` and its removal: the peers may change only while no replacement is unfinished. */
    method Grant(peer: string, remove: bool) returns (outcome: Outcome)
      requires Valid() && exists config :: HasConfig(View(), config)
      modifies this
      ensures Valid()
      ensures IntentFile in old(names) ==> outcome == Busy && View() == old(View())
      ensures IntentFile !in old(names) ==> outcome == Done
      ensures IntentFile !in old(names) ==> forall config :: HasConfig(old(View()), config) ==>
        && View() == WithConfig(old(View()), old(next), Regranted(config, peer, remove))
        && HasConfig(View(), config.(peers := if remove then config.peers - {peer} else config.peers + {peer}))
        && (forall name :: name != ConfigFile ==>
              (name in names <==> name in old(names)) && (name in names ==> names[name] == old(names)[name]))
    {
      if IntentFile in names {
        return Busy;
      }
      var config := data[names[ConfigFile]].config;
      WriteConfig(Regranted(config, peer, remove));
      outcome := Done;
    }

    // ---- Preparing a replacement ----

    /**
     Every object of the checkpoint is put in place; an object already intact is kept, a corrupt one is moved
     into the archive, and no object is deleted.
     */
    method RepairObjects(nonce: Nonce, hashes: seq<Hash>) returns (outcome: Outcome)
      requires Valid() && forall i, j :: 0 <= i < j < |hashes| ==> hashes[i] != hashes[j]
      modifies `objects, `saved, `data, `next
      ensures Valid() && outcome in {Done, Crashed} && DataKept(old(data), data) && (reliable ==> outcome == Done)
      ensures outcome == Done ==> forall h :: h in hashes ==> IntactIn(objects, data, h)
      ensures forall h :: h in old(objects) ==> ObjectKept(old(objects), old(data), objects, saved, nonce, h)
    {
      for i := 0 to |hashes|
        invariant Valid() && DataKept(old(data), data)
        invariant forall j :: 0 <= j < i ==> IntactIn(objects, data, hashes[j])
        invariant forall h :: h in old(objects) ==> ObjectKept(old(objects), old(data), objects, saved, nonce, h)
        invariant forall h :: h in old(objects) && h !in hashes[..i] ==> h in objects && objects[h] == old(objects)[h]
      {
        outcome := RepairObject(nonce, hashes[i]);
        if outcome != Done {
          return;
        }
      }
      outcome := Done;
    }

    method RepairObject(nonce: Nonce, h: Hash) returns (outcome: Outcome)
      requires Valid()
      modifies `objects, `saved, `data, `next
      ensures Valid() && outcome in {Done, Crashed} && DataKept(old(data), data) && (reliable ==> outcome == Done)
      ensures outcome == Done ==> IntactIn(objects, data, h)
      ensures forall g :: g != h ==> (g in objects <==> g in old(objects)) && (g in objects ==> objects[g] == old(objects)[g])
      ensures IntactIn(old(objects), old(data), h) ==> objects == old(objects) && saved == old(saved)
      ensures !IntactIn(old(objects), old(data), h) ==>
        saved == if h in old(objects) then old(saved)[(nonce, h) := old(objects)[h]] else old(saved)
    {
      if IntactIn(objects, data, h) {
        return Done;
      }
      if h in objects {
        saved := saved[(nonce, h) := objects[h]];
        objects := objects - {h};
      }
      var crash: bool := *;
      crash := crash && !reliable;
      if crash {
        return Crashed;
      }
      data := data[next := Blob(h)];
      objects := objects[h := next];
      next := next + 1;
      outcome := Done;
    }

    /** `prepare`: nothing that counts changes before the intent appears. */
    method Prepare(database: Hash, hashes: seq<Hash>, nonce: Nonce, epoch: string, bound: bool)
      returns (outcome: Outcome, plan: Plan, ghost job: Job)
      requires Valid() && IntentFile !in names && exists config :: HasConfig(View(), config)
      requires nonce !in archives && Candidate(nonce) !in names && Staging(nonce) !in names
      requires forall i, j :: 0 <= i < j < |hashes| ==> hashes[i] != hashes[j]
      modifies this
      ensures Valid() && outcome in {Done, Crashed, Unbound} && DataKept(old(data), data)
      ensures (outcome == Unbound <==> !bound) && (reliable && bound ==> outcome == Done)
      ensures outcome == Done ==> IntentFile in names && forall h :: h in hashes ==> IntactIn(objects, data, h)
      ensures IntentFile in names ==> InProgressAt(View(), job, 0)
      ensures job.plan == plan && job.before == LiveParts(old(View())) && HasConfig(old(View()), job.config)
      ensures plan == Plan(nonce, database, job.config.(epoch := epoch))
      ensures IntentFile !in names ==> SameParts(old(View()), View()) && HasConfig(View(), job.config)
      ensures forall n :: n in old(archives) ==> n in archives && archives[n] == old(archives)[n]
      ensures forall h :: h in old(objects) ==> ObjectKept(old(objects), old(data), objects, saved, nonce, h)
    {
      var config := data[names[ConfigFile]].config;
      plan := Plan(nonce, database, config.(epoch := epoch));
      job := Job(plan, next, LiveParts(View()), config);
      if !bound {
        return Unbound, plan, job;
      }
      archives := archives[nonce := map[]];
      assert objects == old(objects) && data == old(data);
      outcome := RepairObjects(nonce, hashes);
      assert HasConfig(View(), config);
      if outcome != Done {
        return;
      }
      job := job.(candidate := next);
      outcome := PublishIntent(plan, job);
    }

    /** Write the candidate, then `publish_intent`: a staging file, a no-clobber link, the staging name removed. */
    method PublishIntent(plan: Plan, ghost job: Job) returns (outcome: Outcome)
      requires Valid() && IntentFile !in names && HasConfig(View(), job.config)
      requires Candidate(plan.nonce) !in names && Staging(plan.nonce) !in names
      requires plan.nonce in archives && archives[plan.nonce] == map[]
      requires job == Job(plan, next, job.before, job.config) && job.before == LiveParts(View()) && SameFolder(job.config, plan.config)
      modifies `names, `data, `next
      ensures Valid() && outcome in {Done, Crashed} && DataKept(old(data), data) && (reliable ==> outcome == Done)
      ensures outcome == Done ==> IntentFile in names
      ensures IntentFile in names ==> InProgressAt(View(), job, 0)
      ensures IntentFile !in names ==> SameParts(old(View()), View()) && HasConfig(View(), job.config)
    {
      ghost var start := View();
      AddFile(Candidate(plan.nonce), Database(plan.database));
      assert SameParts(start, View());
      var crash: bool := *;
      crash := crash && !reliable;
      if crash {
        return Crashed;
      }
      AddFile(Staging(plan.nonce), Intent(plan));
      assert SameParts(start, View());
      crash := *;
      crash := crash && !reliable;
      if crash {
        return Crashed;
      }
      assert forall part :: Live(part) in start.names ==> start.names[Live(part)] != job.candidate;
      outcome := LinkIntent(plan, start, job);
    }

    method LinkIntent(plan: Plan, ghost start: Disk, ghost job: Job) returns (outcome: Outcome)
      requires Valid() && IntentFile !in names && job.plan == plan
      requires Staging(plan.nonce) in names && names[Staging(plan.nonce)] in data && data[names[Staging(plan.nonce)]] == Intent(plan)
      requires Candidate(plan.nonce) in names && names[Candidate(plan.nonce)] == job.candidate
      requires job.candidate in data && data[job.candidate] == Database(plan.database)
      requires HasConfig(start, job.config) && DataKept(start.data, data) && SameParts(start, View())
      requires ConfigFile in names && names[ConfigFile] == start.names[ConfigFile]
      requires SameFolder(job.config, plan.config) && job.before == LiveParts(start)
      requires forall part :: Live(part) in start.names ==> start.names[Live(part)] != job.candidate
      requires plan.nonce in archives && archives[plan.nonce] == map[]
      modifies `names
      ensures Valid() && outcome in {Done, Crashed} && IntentFile in names && InProgressAt(View(), job, 0)
      ensures reliable ==> outcome == Done
    {
      names := names[IntentFile := names[Staging(plan.nonce)]];
      PublishedIntentStartsProgress(start, View(), job);
      var crash: bool := *;
      crash := crash && !reliable;
      if crash {
        return Crashed;
      }
      names := names - {Staging(plan.nonce)};
      PublishedIntentStartsProgress(start, View(), job);
      outcome := Done;
    }

    method AddFile(name: Name, content: Data)
      requires Valid() && name !in names
      modifies `names, `data, `next
      ensures Valid() && names == old(names)[name := old(next)] && data == old(data)[old(next) := content]
      ensures next == old(next) + 1
    {
      names := names[name := next];
      data := data[next := content];
      next := next + 1;
    }

    /** `recover`: settle an earlier replacement, prepare this one, finish it. */
    method Recover(database: Hash, hashes: seq<Hash>, nonce: Nonce, epoch: string, bound: bool, ghost earlier: Job)
      returns (outcome: Outcome, ghost job: Job)
      requires Valid() && (InProgress(View(), earlier) || (IntentFile !in names && exists config :: HasConfig(View(), config)))
      requires nonce !in archives && Candidate(nonce) !in names && Staging(nonce) !in names
      requires forall i, j :: 0 <= i < j < |hashes| ==> hashes[i] != hashes[j]
      modifies this
      ensures Valid() && outcome != Conflict
      ensures outcome == Done ==> Replaced(View(), job) && job.plan.database == database && job.plan.config.epoch == epoch
      ensures outcome == Done ==> forall h :: h in hashes ==> IntactIn(objects, data, h)
      ensures outcome != Done ==> IntentFile !in names || InProgress(View(), earlier) || InProgress(View(), job)
      ensures reliable && bound ==> outcome == Done
    {
      job := earlier;
      outcome := Resume(bound, earlier);
      if outcome != Done {
        return;
      }
      assert exists config :: HasConfig(View(), config) by {
        if old(InProgress(View(), earlier)) { assert HasConfig(View(), earlier.plan.config); }
      }
      var plan;
      outcome, plan, job := Prepare(database, hashes, nonce, epoch, bound);
      if outcome != Done {
        return;
      }
      outcome := Finish(plan, bound, job);
    }

    /** Any number of crashes, failed attempts and grants, in any order, until one attempt completes. */
    method ResumeThroughCrashes(attempts: seq<Attempt>, ghost job: Job) returns (outcome: Outcome)
      requires Valid() && InProgress(View(), job)
      modifies this
      ensures Valid() && outcome != Conflict
      ensures outcome == Done ==> Replaced(View(), job) && job.plan.config.peers == job.config.peers
      ensures outcome != Done ==> InProgress(View(), job)
      ensures forall config :: HasConfig(View(), config) ==> config.peers == job.config.peers
      ensures OtherArchivesKept(old(archives), archives, job.plan.nonce)
    {
      outcome := Crashed;
      for i := 0 to |attempts|
        invariant Valid() && InProgress(View(), job) && outcome != Done && outcome != Conflict
        invariant OtherArchivesKept(old(archives), archives, job.plan.nonce)
      {
        assert exists config :: HasConfig(View(), config) by { InProgressHasConfig(View(), job); }
        match attempts[i] {
          case Granting(peer, remove) => outcome := Grant(peer, remove);
          case Resuming(bound) =>
            outcome := Resume(bound, job);
            if outcome == Done {
              return;
            }
        }
      }
      InProgressHasConfig(View(), job);
    }
  }

  datatype Attempt = Resuming(bound: bool) | Granting(peer: string, remove: bool)

  ghost predicate DataKept(data: map<Inode, Data>, data': map<Inode, Data>) {
    forall i :: i in data ==> i in data' && data'[i] == data[i]
  }

  /** The index and its sidecars are what they were. */
  predicate SameParts(d: Disk, d': Disk) {
    && (forall part :: Live(part) in d'.names <==> Live(part) in d.names)
    && (forall part :: Live(part) in d.names && Live(part) in d'.names ==> d'.names[Live(part)] == d.names[Live(part)])
  }

  lemma InProgressHasConfig(d: Disk, job: Job)
    requires InProgress(d, job)
    ensures exists config :: HasConfig(d, config)
    ensures forall config :: HasConfig(d, config) ==> config.peers == job.config.peers
  {
    var k: nat :| InProgressAt(d, job, k);
    assert HasConfig(d, job.config) || HasConfig(d, job.plan.config);
    forall config | HasConfig(d, config)
      ensures config.peers == job.config.peers
    {
      ConfigStaysCompatible(d, job, config);
    }
  }

  /** Linking the intent turns an idle directory with a prepared file into a replacement in progress. */
  lemma PublishedIntentStartsProgress(start: Disk, d: Disk, job: Job)
    requires HasConfig(start, job.config) && DataKept(start.data, d.data)
    requires SameFolder(job.config, job.plan.config) && job.before == LiveParts(start)
    requires SameParts(start, d)
    requires forall part :: Live(part) in start.names ==> start.names[Live(part)] != job.candidate
    requires ConfigFile in d.names && d.names[ConfigFile] == start.names[ConfigFile]
    requires Candidate(job.plan.nonce) in d.names && d.names[Candidate(job.plan.nonce)] == job.candidate
    requires job.candidate in d.data && d.data[job.candidate] == Database(job.plan.database)
    requires HasIntent(d, job.plan) && job.plan.nonce in d.archives && d.archives[job.plan.nonce] == map[]
    ensures InProgressAt(d, job, 0)
  {
    assert HasConfig(d, job.config);
    assert Displaced(d, job, 0);
  }
}
