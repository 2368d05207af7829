/** The multi-value register kept for every path (src/model.rs). */
module Register {
  import opened Results
  import opened Clocks
  import opened Ordering

  type Hash = string

  datatype Content = File(hash: Hash) | Directory | Deleted
  datatype Revision = Revision(clock: Clock, content: Content)
  type Heads = seq<Revision>

  const HEAD_LIMIT := 128
  const METADATA_LIMIT := 64 * 1024

  /**
   What the model takes from outside: `id` stands for the BLAKE3 hash of a revision's JSON (as a
   number, so that hashes are ordered) and `length` for the length of a version set's JSON.
   */
  datatype Codec = Codec(id: Revision -> nat, length: Heads -> nat)

  /** Revision hashes do not collide, and the empty version set is within the metadata limit. */
  ghost predicate Faithful(c: Codec) {
    && (forall r, s :: c.id(r) == c.id(s) ==> r == s)
    && c.length([]) <= METADATA_LIMIT
  }

  function ById(c: Codec): (Revision, Revision) -> bool {
    (a: Revision, b: Revision) => c.id(a) < c.id(b)
  }

  lemma ByIdIsStrictTotal(c: Codec)
    requires Faithful(c)
    ensures StrictTotal(ById(c))
  {}

  predicate ValidHash(hash: Hash) {
    |hash| == 64 && forall i :: 0 <= i < |hash| ==> '0' <= hash[i] <= '9' || 'a' <= hash[i] <= 'f'
  }

  /** The per-revision checks at the head of `join`. */
  function Defect(r: Revision): Option<Error> {
    if !Valid(r.clock) then Some(InvalidClock)
    else if r.content.File? && !ValidHash(r.content.hash) then Some(InvalidHash)
    else None
  }

  function FirstDefect(heads: Heads): (e: Option<Error>)
    ensures e.None? <==> forall r :: r in heads ==> Defect(r).None?
  {
    if heads == [] then None
    else if Defect(heads[0]).Some? then Defect(heads[0])
    else FirstDefect(heads[1..])
  }

  predicate Consistent(s: set<Revision>) {
    forall a, b :: a in s && b in s && Compare(a.clock, b.clock) == Equal ==> a.content == b.content
  }

  /** The causally maximal revisions of `s`. */
  function Maximal(s: set<Revision>): set<Revision> {
    set r | r in s && forall o :: o in s ==> Compare(r.clock, o.clock) != Before
  }

  /** The version set holding exactly the revisions of `s`, ordered by identifier. */
  ghost function Canonical(c: Codec, s: set<Revision>): Heads
    requires Faithful(c)
  {
    ByIdIsStrictTotal(c);
    Listing(ById(c), s)
  }

  lemma CanonicalElements(c: Codec, s: set<Revision>)
    requires Faithful(c)
    ensures Elements(Canonical(c, s)) == s && |Canonical(c, s)| == |s|
    ensures forall r :: r in Canonical(c, s) <==> r in s
  {
    ByIdIsStrictTotal(c);
    var l := Canonical(c, s);
    assert forall r :: r in l <==> r in Elements(l);
  }

  ghost function Limited(c: Codec, heads: Heads): Result<Heads> {
    if |heads| > HEAD_LIMIT then Err(TooManyHeads)
    else if c.length(heads) > METADATA_LIMIT then Err(MetadataTooLarge)
    else Ok(heads)
  }

  /** Specification of `Versions::join`. */
  ghost function Joined(c: Codec, a: Heads, b: Heads): Result<Heads>
    requires Faithful(c)
  {
    if c.length(a) > METADATA_LIMIT || c.length(b) > METADATA_LIMIT then Err(MetadataTooLarge)
    else if |a| > HEAD_LIMIT || |b| > HEAD_LIMIT then Err(TooManyHeads)
    else if FirstDefect(a + b).Some? then Err(FirstDefect(a + b).value)
    else if !Consistent(Elements(a + b)) then Err(EqualClock)
    else Limited(c, Canonical(c, Maximal(Elements(a + b))))
  }

  // ---- The operations as the source performs them ----

  type Candidate = (nat, Revision)

  function InsertById(x: Candidate, l: seq<Candidate>): (r: seq<Candidate>)
    requires forall i, j :: 0 <= i < j < |l| ==> l[i].0 <= l[j].0
    ensures forall i, j :: 0 <= i < j < |r| ==> r[i].0 <= r[j].0
    ensures forall y :: y in r <==> y == x || y in l
  {
    if l == [] || x.0 <= l[0].0 then [x] + l
    else
      var r := InsertById(x, l[1..]);
      assert forall y :: y in l <==> y == l[0] || y in l[1..];
      assert forall k :: 0 <= k < |r| ==> r[k] in r;
      [l[0]] + r
  }

  /** `sort_by` on the identifiers. */
  function SortById(l: seq<Candidate>): (r: seq<Candidate>)
    ensures forall i, j :: 0 <= i < j < |r| ==> r[i].0 <= r[j].0
    ensures forall y :: y in r <==> y in l
  {
    if l == [] then []
    else
      assert forall y :: y in l <==> y == l[0] || y in l[1..];
      InsertById(l[0], SortById(l[1..]))
  }

  /** `dedup_by` on the identifiers. */
  method DedupById(l: seq<Candidate>) returns (r: seq<Candidate>)
    requires forall i, j :: 0 <= i < j < |l| ==> l[i].0 <= l[j].0
    requires forall x, y :: x in l && y in l && x.0 == y.0 ==> x == y
    ensures forall i, j :: 0 <= i < j < |r| ==> r[i].0 < r[j].0
    ensures forall y :: y in r <==> y in l
  {
    r := [];
    for i := 0 to |l|
      invariant forall y :: y in r <==> y in l[..i]
      invariant forall i, j :: 0 <= i < j < |r| ==> r[i].0 < r[j].0
      invariant i == 0 ==> r == []
      invariant i > 0 ==> r != [] && r[|r| - 1] == l[i - 1]
    {
      assert l[..i + 1] == l[..i] + [l[i]];
      if r == [] || r[|r| - 1].0 != l[i].0 {
        assert r != [] ==> r[|r| - 1].0 < l[i].0;
        r := r + [l[i]];
      } else {
        assert r[|r| - 1] == l[i - 1] && l[i - 1] in l && l[i] in l;
      }
    }
    assert l[..|l|] == l;
  }

  /** The identified revisions of `s`, in any order. */
  predicate Identifies(c: Codec, candidates: seq<Candidate>, s: set<Revision>) {
    && (forall x :: x in candidates ==> x.1 in s && x.0 == c.id(x.1))
    && (forall r :: r in s ==> (c.id(r), r) in candidates)
  }

  method Join(c: Codec, self: Heads, other: Heads) returns (r: Result<Heads>)
    requires Faithful(c)
    ensures r == Joined(c, self, other)
  {
    if c.length(self) > METADATA_LIMIT || c.length(other) > METADATA_LIMIT {
      return Err(MetadataTooLarge);
    }
    if |self| > HEAD_LIMIT || |other| > HEAD_LIMIT {
      return Err(TooManyHeads);
    }
    var identified := Identify(c, self + other);
    if identified.Err? {
      return Err(identified.error);
    }
    var candidates := DedupById(SortById(identified.value));
    var conflict := Conflicting(candidates);
    ClashesAreInconsistency(c, candidates, Elements(self + other));
    if conflict {
      return Err(EqualClock);
    }
    var heads := Survivors(c, candidates, Elements(self + other));
    if |heads| > HEAD_LIMIT {
      return Err(TooManyHeads);
    }
    if c.length(heads) > METADATA_LIMIT {
      return Err(MetadataTooLarge);
    }
    r := Ok(heads);
  }

  method Identify(c: Codec, all: Heads) returns (r: Result<seq<Candidate>>)
    ensures r.Err? <==> FirstDefect(all).Some?
    ensures r.Err? ==> FirstDefect(all) == Some(r.error)
    ensures r.Ok? ==> Identifies(c, r.value, Elements(all))
  {
    var candidates: seq<Candidate> := [];
    for i := 0 to |all|
      invariant FirstDefect(all) == FirstDefect(all[i..])
      invariant Identifies(c, candidates, Elements(all[..i]))
    {
      if Defect(all[i]).Some? {
        return Err(Defect(all[i]).value);
      }
      assert all[..i + 1] == all[..i] + [all[i]];
      assert all[i..][1..] == all[i + 1..];
      candidates := candidates + [(c.id(all[i]), all[i])];
    }
    assert all[..|all|] == all;
    r := Ok(candidates);
  }

  /** `heads` are the maximal revisions among the first `i` candidates, in order. */
  ghost predicate Kept(c: Codec, candidates: seq<Candidate>, i: nat, heads: Heads, s: set<Revision>)
    requires i <= |candidates|
  {
    && Ascending(ById(c), heads)
    && (forall r :: r in heads ==> r in Maximal(s) && (c.id(r), r) in candidates[..i])
    && (forall k :: 0 <= k < i && candidates[k].1 in Maximal(s) ==> candidates[k].1 in heads)
  }

  ghost predicate StrictlySorted(candidates: seq<Candidate>) {
    forall i, j :: 0 <= i < j < |candidates| ==> candidates[i].0 < candidates[j].0
  }

  lemma KeepsNext(c: Codec, candidates: seq<Candidate>, i: nat, heads: Heads, s: set<Revision>)
    requires i < |candidates| && StrictlySorted(candidates) && Identifies(c, candidates, s)
    requires Kept(c, candidates, i, heads, s)
    ensures candidates[i].1 in Maximal(s) ==> Kept(c, candidates, i + 1, heads + [candidates[i].1], s)
    ensures candidates[i].1 !in Maximal(s) ==> Kept(c, candidates, i + 1, heads, s)
  {
    assert candidates[..i + 1] == candidates[..i] + [candidates[i]];
    assert candidates[i] in candidates;
    forall j | 0 <= j < |heads|
      ensures c.id(heads[j]) < c.id(candidates[i].1)
    {
      assert heads[j] in heads;
      var k :| 0 <= k < i && candidates[k] == (c.id(heads[j]), heads[j]);
    }
  }

  lemma KeptAll(c: Codec, candidates: seq<Candidate>, heads: Heads, s: set<Revision>)
    requires Faithful(c) && Identifies(c, candidates, s)
    requires Kept(c, candidates, |candidates|, heads, s)
    ensures heads == Canonical(c, Maximal(s))
  {
    forall r | r in Maximal(s) ensures r in heads {
      assert (c.id(r), r) in candidates;
      var k :| 0 <= k < |candidates| && candidates[k] == (c.id(r), r);
    }
    assert Elements(heads) == Maximal(s);
    ByIdIsStrictTotal(c);
    AscendingIsListing(ById(c), heads);
  }

  /** The loop keeping the candidates that no candidate supersedes. */
  method Survivors(c: Codec, candidates: seq<Candidate>, ghost s: set<Revision>) returns (heads: Heads)
    requires Faithful(c)
    requires Identifies(c, candidates, s) && StrictlySorted(candidates)
    ensures heads == Canonical(c, Maximal(s))
  {
    heads := [];
    for i := 0 to |candidates|
      invariant Kept(c, candidates, i, heads, s)
    {
      var superseded := SupersededAt(candidates, i);
      KeepsNext(c, candidates, i, heads, s);
      assert !superseded <==> candidates[i].1 in Maximal(s) by {
        assert candidates[i] in candidates;
        assert forall o :: o in s ==> (c.id(o), o) in candidates;
      }
      if !superseded {
        heads := heads + [candidates[i].1];
      }
    }
    KeptAll(c, candidates, heads, s);
  }

  lemma ClashesAreInconsistency(c: Codec, candidates: seq<Candidate>, s: set<Revision>)
    requires Identifies(c, candidates, s)
    ensures (exists x, y :: x in candidates && y in candidates && Clash(x.1, y.1)) <==> !Consistent(s)
  {
    if !Consistent(s) {
      var a, b :| a in s && b in s && Clash(a, b);
      assert (c.id(a), a) in candidates && (c.id(b), b) in candidates;
      assert Clash((c.id(a), a).1, (c.id(b), b).1);
    }
  }

  predicate Clash(a: Revision, b: Revision) {
    Compare(a.clock, b.clock) == Equal && a.content != b.content
  }

  method Conflicting(candidates: seq<Candidate>) returns (conflict: bool)
    ensures conflict <==> exists x, y :: x in candidates && y in candidates && Clash(x.1, y.1)
  {
    for i := 0 to |candidates|
      invariant forall k, y :: 0 <= k < i && y in candidates ==> !Clash(candidates[k].1, y.1)
    {
      for j := 0 to |candidates|
        invariant forall k :: 0 <= k < j ==> !Clash(candidates[i].1, candidates[k].1)
      {
        var relation := RelationOf(candidates[i].1.clock, candidates[j].1.clock);
        if relation == Equal && candidates[i].1.content != candidates[j].1.content {
          assert Clash(candidates[i].1, candidates[j].1);
          return true;
        }
      }
    }
    conflict := false;
  }

  method SupersededAt(candidates: seq<Candidate>, i: nat) returns (superseded: bool)
    requires i < |candidates|
    ensures superseded <==> exists y :: y in candidates && Compare(candidates[i].1.clock, y.1.clock) == Before
  {
    for j := 0 to |candidates|
      invariant forall k :: 0 <= k < j ==> Compare(candidates[i].1.clock, candidates[k].1.clock) != Before
    {
      var relation := RelationOf(candidates[i].1.clock, candidates[j].1.clock);
      if relation == Before {
        return true;
      }
    }
    superseded := false;
  }

  // ---- Editing and selecting ----

  /** The merge of the clocks of `heads`: everything a device that observed them knows. */
  function Knowledge(heads: Heads): Clock {
    if heads == [] then map[] else Merged(Knowledge(heads[..|heads| - 1]), heads[|heads| - 1].clock)
  }

  /** The revision an edit on top of `heads` issues. */
  function NextRevision(heads: Heads, device: Device, content: Content): Result<Revision> {
    var clock :- Advanced(Knowledge(heads), device);
    Ok(Revision(clock, content))
  }

  /** Specification of `Versions::edit`. */
  ghost function Edited(c: Codec, heads: Heads, device: Device, content: Content): Result<Heads>
    requires Faithful(c)
  {
    var revision :- NextRevision(heads, device, content);
    Joined(c, [], [revision])
  }

  method Edit(c: Codec, self: Heads, device: Device, content: Content) returns (r: Result<Heads>)
    requires Faithful(c)
    ensures r == Edited(c, self, device, content)
  {
    var clock: Clock := map[];
    for i := 0 to |self|
      invariant clock == Knowledge(self[..i])
    {
      assert self[..i + 1][..i] == self[..i];
      clock := Merge(clock, self[i].clock);
    }
    assert self[..|self|] == self;
    var next := Advance(clock, device);
    if next.Err? {
      return Err(next.error);
    }
    r := Join(c, [], [Revision(next.value, content)]);
  }

  function Rank(content: Content): nat {
    match content
    case File(_) => 0
    case Directory => 1
    case Deleted => 2
  }

  /** `a` is chosen over `b`: files before directories before deletions, then the smaller identifier. */
  predicate Preferred(c: Codec, a: Revision, b: Revision) {
    Rank(a.content) < Rank(b.content) || (Rank(a.content) == Rank(b.content) && c.id(a) < c.id(b))
  }

  function Selected(c: Codec, heads: Heads): (r: Option<Revision>)
    ensures r.None? <==> heads == []
    ensures r.Some? ==> r.value in heads
  {
    if heads == [] then None
    else
      var before := Selected(c, heads[..|heads| - 1]);
      var last := heads[|heads| - 1];
      if before.Some? && !Preferred(c, last, before.value) then before else Some(last)
  }

  method Select(c: Codec, self: Heads) returns (r: Option<Revision>)
    ensures r == Selected(c, self)
  {
    r := None;
    for i := 0 to |self|
      invariant r == Selected(c, self[..i])
    {
      assert self[..i + 1][..i] == self[..i];
      if r.None? || Preferred(c, self[i], r.value) {
        r := Some(self[i]);
      }
    }
    assert self[..|self|] == self;
  }
}
