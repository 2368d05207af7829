/** The algebra of version sets: `join` is the least upper bound of a causal order. */
module Lattice {
  import opened Results
  import opened Clocks
  import opened Ordering
  import opened Register

  /** `r`, or something that causally includes it, is among `s`. */
  ghost predicate Covered(r: Revision, s: set<Revision>) {
    exists h :: h in s && Leq(r.clock, h.clock)
  }

  /** The causal order on sets of revisions: `b` knows all of `a`. */
  ghost predicate Below(a: set<Revision>, b: set<Revision>) {
    forall r {:trigger Covered(r, b)} :: r in a ==> Covered(r, b)
  }

  /** The checkpoint validator's notion of a well-formed version set (validate.rs:13-16). */
  ghost predicate Normal(c: Codec, heads: Heads)
    requires Faithful(c)
  {
    Joined(c, [], heads) == Ok(heads)
  }

  lemma BelowReflexive(a: set<Revision>)
    ensures Below(a, a)
  {
    forall r | r in a ensures Covered(r, a) {
      assert Leq(r.clock, r.clock);
    }
  }

  lemma BelowTransitive(a: set<Revision>, b: set<Revision>, d: set<Revision>)
    requires Below(a, b) && Below(b, d)
    ensures Below(a, d)
  {
    forall r | r in a ensures Covered(r, d) {
      CoveredThrough(r, b, d);
    }
  }

  lemma CoveredThrough(r: Revision, b: set<Revision>, d: set<Revision>)
    requires Covered(r, b) && Below(b, d)
    ensures Covered(r, d)
  {
    var h :| h in b && Leq(r.clock, h.clock);
    assert Covered(h, d);
    var k :| k in d && Leq(h.clock, k.clock);
    LeqTransitive(r.clock, h.clock, k.clock);
  }

  // ---- Maximal elements ----

  function Above(s: set<Revision>, r: Revision): set<Revision> {
    set o | o in s && Compare(r.clock, o.clock) == Before
  }

  /** Every revision is maximal or causally before a maximal one. */
  lemma {:induction false} MaximalAbove(s: set<Revision>, r: Revision) returns (m: Revision)
    requires r in s
    ensures m in Maximal(s) && (m == r || Compare(r.clock, m.clock) == Before)
    decreases Above(s, r)
  {
    if r in Maximal(s) {
      m := r;
    } else {
      var o :| o in s && Compare(r.clock, o.clock) == Before;
      forall x | x in Above(s, o) ensures x in Above(s, r) {
        BeforeTransitive(r.clock, o.clock, x.clock);
      }
      assert o in Above(s, r) && o !in Above(s, o);
      m := MaximalAbove(s, o);
      if m != o { BeforeTransitive(r.clock, o.clock, m.clock); }
    }
  }

  lemma MaximalCovers(s: set<Revision>)
    ensures Maximal(s) <= s && Below(s, Maximal(s))
  {
    forall r | r in s ensures Covered(r, Maximal(s)) {
      var m := MaximalAbove(s, r);
      assert Leq(r.clock, m.clock);
    }
  }

  /** Discarding superseded revisions early changes nothing. */
  lemma MaximalAbsorbs(a: set<Revision>, b: set<Revision>)
    ensures Maximal(Maximal(a) + b) == Maximal(a + b)
  {
    forall r | r in Maximal(Maximal(a) + b) ensures r in Maximal(a + b) {
      forall o | o in a + b ensures Compare(r.clock, o.clock) != Before {
        if o in a && Compare(r.clock, o.clock) == Before {
          var m := MaximalAbove(a, o);
          assert m in Maximal(a) + b;
          if m != o { BeforeTransitive(r.clock, o.clock, m.clock); }
        }
      }
    }
    forall r | r in Maximal(a + b) ensures r in Maximal(Maximal(a) + b) {
    }
  }

  // ---- What a successful join returns ----

  lemma JoinedHeads(c: Codec, a: Heads, b: Heads)
    requires Faithful(c) && Joined(c, a, b).Ok?
    ensures var j := Joined(c, a, b).value;
      && Elements(j) == Maximal(Elements(a) + Elements(b))
      && (forall r :: r in j ==> Defect(r).None?)
      && (forall r :: r in a + b ==> Defect(r).None?)
      && Consistent(Elements(a) + Elements(b))
      && |j| <= HEAD_LIMIT && c.length(j) <= METADATA_LIMIT
      && Ascending(ById(c), j)
  {
    var s := Elements(a) + Elements(b);
    assert Elements(a + b) == s;
    CanonicalElements(c, Maximal(s));
    ByIdIsStrictTotal(c);
    assert forall r :: r in Joined(c, a, b).value ==> r in a + b;
  }

  /** Valid, mutually concurrent revisions in identifier order, within the limits. */
  ghost predicate WellFormed(c: Codec, heads: Heads) {
    && (forall r :: r in heads ==> Defect(r).None?)
    && Maximal(Elements(heads)) == Elements(heads)
    && Consistent(Elements(heads))
    && |heads| <= HEAD_LIMIT && c.length(heads) <= METADATA_LIMIT
    && Ascending(ById(c), heads)
  }

  lemma NormalForm(c: Codec, heads: Heads)
    requires Faithful(c)
    ensures Normal(c, heads) <==> WellFormed(c, heads)
  {
    if Normal(c, heads) {
      NormalIsWellFormed(c, heads);
    } else if WellFormed(c, heads) {
      WellFormedIsNormal(c, heads);
    }
  }

  lemma NormalIsWellFormed(c: Codec, heads: Heads)
    requires Faithful(c) && Normal(c, heads)
    ensures WellFormed(c, heads)
  {
    assert [] + heads == heads;
    JoinedHeads(c, [], heads);
    assert Elements<Revision>([]) + Elements(heads) == Elements(heads);
  }

  lemma WellFormedIsNormal(c: Codec, heads: Heads)
    requires Faithful(c) && WellFormed(c, heads)
    ensures Normal(c, heads)
  {
    var none: Heads := [];
    assert none + heads == heads;
    ByIdIsStrictTotal(c);
    AscendingIsListing(ById(c), heads);
    assert Canonical(c, Maximal(Elements(heads))) == heads;
  }

  lemma NormalDetermined(c: Codec, a: Heads, b: Heads)
    requires Faithful(c) && Normal(c, a) && Normal(c, b) && Elements(a) == Elements(b)
    ensures a == b
  {
    NormalForm(c, a);
    NormalForm(c, b);
    ByIdIsStrictTotal(c);
    AscendingIsUnique(ById(c), a, b);
  }

  lemma JoinIsNormal(c: Codec, a: Heads, b: Heads)
    requires Faithful(c) && Joined(c, a, b).Ok?
    ensures Normal(c, Joined(c, a, b).value)
  {
    JoinedHeads(c, a, b);
    MaximalAbsorbs(Elements(a) + Elements(b), {});
    var s := Elements(a) + Elements(b);
    assert s + {} == s && Maximal(s) + {} == Maximal(s);
    NormalForm(c, Joined(c, a, b).value);
  }

  /** Joins of valid, consistent sets fail only on the size limits. */
  lemma JoinSucceedsUnlessTooLarge(c: Codec, a: Heads, b: Heads)
    requires Faithful(c) && Normal(c, a) && Normal(c, b) && Consistent(Elements(a) + Elements(b))
    ensures Joined(c, a, b) == Limited(c, Canonical(c, Maximal(Elements(a) + Elements(b))))
    ensures Joined(c, a, b).Err? ==> Joined(c, a, b).error in {TooManyHeads, MetadataTooLarge}
  {
    NormalForm(c, a);
    NormalForm(c, b);
    assert Elements(a + b) == Elements(a) + Elements(b);
    assert FirstDefect(a + b).None?;
    assert Consistent(Elements(a + b));
  }

  /** A clock of 1 to 128 named devices with positive counters, and a file's hash in lower-case hexadecimal. */
  predicate Acceptable(r: Revision) {
    && r.clock != map[] && |r.clock| <= 128
    && (forall d :: d in r.clock ==> d != "" && |d| <= 128 && r.clock[d] > 0)
    && (r.content.File? ==> |r.content.hash| == 64 && forall x :: x in r.content.hash ==> '0' <= x <= '9' || 'a' <= x <= 'f')
  }

  /** The same counters for every device. */
  ghost predicate SameCounts(a: Clock, b: Clock) {
    forall d :: Count(a, d) == Count(b, d)
  }

  /** When a join succeeds: both sets and the result within the limits, valid revisions, and no clash of equal clocks. */
  lemma JoinSucceedsExactly(c: Codec, a: Heads, b: Heads)
    requires Faithful(c)
    ensures Joined(c, a, b).Ok? <==>
      && |a| <= 128 && |b| <= 128 && c.length(a) <= 65536 && c.length(b) <= 65536
      && (forall r :: r in a + b ==> Acceptable(r))
      && (forall r, s :: r in a + b && s in a + b && SameCounts(r.clock, s.clock) ==> r.content == s.content)
      && var heads := Canonical(c, Maximal(Elements(a + b))); |heads| <= 128 && c.length(heads) <= 65536
  {
    forall r: Revision ensures Defect(r).None? <==> Acceptable(r) {
      if r.content.File? { HashMeans(r.content.hash); }
    }
    forall r: Revision, s: Revision ensures Compare(r.clock, s.clock) == Equal <==> SameCounts(r.clock, s.clock) {
      CompareIsPointwise(r.clock, s.clock);
    }
    assert forall r :: r in Elements(a + b) <==> r in a + b;
  }

  lemma HashMeans(hash: Hash)
    ensures ValidHash(hash) <==> |hash| == 64 && forall x :: x in hash ==> '0' <= x <= '9' || 'a' <= x <= 'f'
  {
    if |hash| == 64 && forall x :: x in hash ==> '0' <= x <= '9' || 'a' <= x <= 'f' {
      forall i | 0 <= i < |hash| ensures '0' <= hash[i] <= '9' || 'a' <= hash[i] <= 'f' { assert hash[i] in hash; }
    }
  }

  // ---- The laws ----

  lemma JoinCommutes(c: Codec, a: Heads, b: Heads)
    requires Faithful(c)
    ensures Joined(c, a, b).Ok? <==> Joined(c, b, a).Ok?
    ensures Joined(c, a, b).Ok? ==> Joined(c, a, b) == Joined(c, b, a)
  {
    assert Elements(a + b) == Elements(b + a);
    assert (forall r :: r in a + b ==> Defect(r).None?) <==> (forall r :: r in b + a ==> Defect(r).None?);
  }

  lemma JoinAssociates(c: Codec, x: Heads, y: Heads, z: Heads)
    requires Faithful(c)
    requires Joined(c, x, y).Ok? && Joined(c, Joined(c, x, y).value, z).Ok?
    requires Joined(c, y, z).Ok? && Joined(c, x, Joined(c, y, z).value).Ok?
    ensures Joined(c, Joined(c, x, y).value, z) == Joined(c, x, Joined(c, y, z).value)
  {
    var xy, yz := Joined(c, x, y).value, Joined(c, y, z).value;
    JoinedHeads(c, x, y);
    JoinedHeads(c, y, z);
    JoinedHeads(c, xy, z);
    JoinedHeads(c, x, yz);
    var ex, ey, ez := Elements(x), Elements(y), Elements(z);
    MaximalAbsorbs(ex + ey, ez);
    MaximalAbsorbs(ey + ez, ex);
    assert ex + (ey + ez) == ex + ey + ez == (ey + ez) + ex;
    assert Maximal(ey + ez) + ex == ex + Maximal(ey + ez);
    JoinIsNormal(c, xy, z);
    JoinIsNormal(c, x, yz);
    NormalDetermined(c, Joined(c, xy, z).value, Joined(c, x, yz).value);
  }

  lemma JoinIsIdempotent(c: Codec, a: Heads)
    requires Faithful(c) && Normal(c, a)
    ensures Joined(c, a, a) == Ok(a)
  {
    NormalForm(c, a);
    ByIdIsStrictTotal(c);
    AscendingIsListing(ById(c), a);
    assert Elements(a + a) == Elements(a);
  }

  /** `join` is an upper bound, and it is below every well-formed upper bound. */
  lemma JoinIsLeastUpperBound(c: Codec, a: Heads, b: Heads, upper: Heads)
    requires Faithful(c) && Joined(c, a, b).Ok?
    ensures var j := Elements(Joined(c, a, b).value);
      && Below(Elements(a), j) && Below(Elements(b), j)
      && (Below(Elements(a), Elements(upper)) && Below(Elements(b), Elements(upper)) <==> Below(j, Elements(upper)))
  {
    JoinedHeads(c, a, b);
    var s, j := Elements(a) + Elements(b), Elements(Joined(c, a, b).value);
    MaximalCovers(s);
    assert Below(Elements(a), j) && Below(Elements(b), j);
    if Below(j, Elements(upper)) {
      BelowTransitive(Elements(a), j, Elements(upper));
      BelowTransitive(Elements(b), j, Elements(upper));
    }
  }

  /** The causal order is antisymmetric on well-formed sets whose clocks agree. */
  lemma BelowAntisymmetric(c: Codec, a: Heads, b: Heads)
    requires Faithful(c) && Normal(c, a) && Normal(c, b) && Consistent(Elements(a) + Elements(b))
    requires Below(Elements(a), Elements(b)) && Below(Elements(b), Elements(a))
    ensures a == b
  {
    NormalForm(c, a);
    NormalForm(c, b);
    MutuallyBelow(Elements(a), Elements(b));
    NormalDetermined(c, a, b);
  }

  lemma MutuallyBelow(a: set<Revision>, b: set<Revision>)
    requires Maximal(a) == a && Maximal(b) == b && Consistent(a + b) && Below(a, b) && Below(b, a)
    requires forall x :: x in a + b ==> Defect(x).None?
    ensures a == b
  {
    assert b + a == a + b;
    forall r | r in a ensures r in b {
      assert Covered(r, b);
      Included(r, a, b);
    }
    forall r | r in b ensures r in a {
      assert Covered(r, a);
      Included(r, b, a);
    }
  }

  lemma Included(r: Revision, a: set<Revision>, b: set<Revision>)
    requires r in Maximal(a) && Consistent(a + b) && Covered(r, b) && Below(b, a)
    requires forall x :: x in a + b ==> Defect(x).None?
    ensures r in b
  {
    var h :| h in b && Leq(r.clock, h.clock);
    assert Covered(h, a);
    var k :| k in a && Leq(h.clock, k.clock);
    assert r in a + b && h in a + b;
    Sandwiched(r, h, k);
  }

  lemma Sandwiched(r: Revision, h: Revision, k: Revision)
    requires Leq(r.clock, h.clock) && Leq(h.clock, k.clock) && Compare(r.clock, k.clock) != Before
    requires Defect(r).None? && Defect(h).None?
    requires Compare(r.clock, h.clock) == Equal ==> r.content == h.content
    ensures r == h
  {
    LeqTransitive(r.clock, h.clock, k.clock);
    LeqTransitive(h.clock, k.clock, r.clock);
    EqualClocksAreIdentical(r.clock, h.clock);
  }

  /** A version set absorbs whatever it already covers. */
  lemma JoinAbsorbs(c: Codec, a: Heads, b: Heads)
    requires Faithful(c) && Normal(c, a) && Normal(c, b) && Consistent(Elements(a) + Elements(b))
    requires Below(Elements(b), Elements(a))
    ensures Joined(c, a, b) == Ok(a)
  {
    NormalForm(c, a);
    NormalForm(c, b);
    MaximalAbsorbed(Elements(a), Elements(b));
    JoinSucceedsUnlessTooLarge(c, a, b);
    ByIdIsStrictTotal(c);
    AscendingIsListing(ById(c), a);
  }

  lemma MaximalAbsorbed(a: set<Revision>, b: set<Revision>)
    requires Maximal(a) == a && Below(b, a) && Consistent(a + b)
    requires forall x :: x in a + b ==> Defect(x).None?
    ensures Maximal(a + b) == a
  {
    forall r | r in b && r !in a ensures r !in Maximal(a + b) {
      assert Covered(r, a);
      Outlived(r, a, a + b);
    }
    forall r, o | r in a && o in b && Compare(r.clock, o.clock) == Before
      ensures false
    {
      assert r in Maximal(a) && Covered(o, a);
      var h :| h in a && Leq(o.clock, h.clock);
      BeforeTransitive(r.clock, o.clock, h.clock);
    }
  }

  lemma Outlived(r: Revision, a: set<Revision>, s: set<Revision>)
    requires r in s && a <= s && r !in a && Covered(r, a) && Consistent(s)
    requires forall x :: x in s ==> Defect(x).None?
    ensures r !in Maximal(s)
  {
    var h :| h in a && Leq(r.clock, h.clock);
    if Compare(r.clock, h.clock) == Equal {
      EqualClocksAreIdentical(r.clock, h.clock);
    }
  }

  // ---- Families ----

  ghost function AllHeads(family: seq<Heads>): set<Revision> {
    set heads, r | heads in family && r in heads :: r
  }

  /** Joining a family one by one, starting from the empty set. */
  ghost function JoinedAll(c: Codec, family: seq<Heads>): Result<Heads>
    requires Faithful(c)
  {
    if family == [] then Ok([])
    else
      var before :- JoinedAll(c, family[..|family| - 1]);
      Joined(c, before, family[|family| - 1])
  }

  lemma {:induction false} JoinedAllHeads(c: Codec, family: seq<Heads>)
    requires Faithful(c) && JoinedAll(c, family).Ok?
    ensures Elements(JoinedAll(c, family).value) == Maximal(AllHeads(family))
    ensures Normal(c, JoinedAll(c, family).value)
  {
    if family == [] {
      NormalForm(c, []);
    } else {
      var rest, last := family[..|family| - 1], family[|family| - 1];
      JoinedAllHeads(c, rest);
      var before := JoinedAll(c, rest).value;
      JoinedHeads(c, before, last);
      JoinIsNormal(c, before, last);
      MaximalAbsorbs(AllHeads(rest), Elements(last));
      assert forall heads :: heads in family <==> heads in rest || heads == last;
      assert AllHeads(family) == AllHeads(rest) + Elements(last);
    }
  }

  /** Delivery order and repetition do not matter: a family of version sets has one join. */
  lemma DeliveryOrderIsIrrelevant(c: Codec, one: seq<Heads>, other: seq<Heads>)
    requires Faithful(c) && Elements(one) == Elements(other)
    requires JoinedAll(c, one).Ok? && JoinedAll(c, other).Ok?
    ensures JoinedAll(c, one) == JoinedAll(c, other)
  {
    assert forall heads :: heads in one <==> heads in Elements(one);
    assert forall heads :: heads in other <==> heads in Elements(other);
    assert AllHeads(one) == AllHeads(other);
    JoinedAllHeads(c, one);
    JoinedAllHeads(c, other);
    NormalDetermined(c, JoinedAll(c, one).value, JoinedAll(c, other).value);
  }

  // ---- Editing ----

  /** `Knowledge` is the least upper bound of the head clocks. */
  lemma {:induction false} KnowledgeIsLeast(heads: Heads, upper: Clock)
    ensures forall h :: h in heads ==> Leq(h.clock, Knowledge(heads))
    ensures (forall h :: h in heads ==> Leq(h.clock, upper)) <==> Leq(Knowledge(heads), upper)
  {
    if heads != [] {
      var rest, last := heads[..|heads| - 1], heads[|heads| - 1];
      KnowledgeIsLeast(rest, upper);
      MergeIsLeastUpperBound(Knowledge(rest), last.clock, upper);
      assert forall h :: h in heads <==> h in rest || h == last;
      forall h | h in rest ensures Leq(h.clock, Knowledge(heads)) {
        LeqTransitive(h.clock, Knowledge(rest), Knowledge(heads));
      }
    }
  }

  /** Each known counter comes from some head. */
  lemma {:induction false} KnowledgeHasSource(heads: Heads, device: Device) returns (h: Revision)
    requires Count(Knowledge(heads), device) > 0
    ensures h in heads && Count(h.clock, device) == Count(Knowledge(heads), device)
  {
    var rest, last := heads[..|heads| - 1], heads[|heads| - 1];
    if Count(Knowledge(rest), device) > Count(last.clock, device) {
      h := KnowledgeHasSource(rest, device);
    } else {
      h := last;
    }
  }

  /** An edit dominates every head it was made on. */
  lemma EditSupersedesItsBase(c: Codec, heads: Heads, device: Device, content: Content)
    requires Faithful(c) && NextRevision(heads, device, content).Ok?
    ensures forall h :: h in heads ==>
      Compare(h.clock, NextRevision(heads, device, content).value.clock) == Before
  {
    var next := NextRevision(heads, device, content).value;
    KnowledgeIsLeast(heads, map[]);
    AdvanceIsLater(Knowledge(heads), device);
    forall h | h in heads ensures Compare(h.clock, next.clock) == Before {
      BeforeTransitive(h.clock, Knowledge(heads), next.clock);
    }
  }

  // ---- Selection ----

  lemma {:induction false} SelectedIsBest(c: Codec, heads: Heads)
    requires Faithful(c) && heads != []
    ensures var s := Selected(c, heads).value;
      && s in heads && (forall h :: h in heads && h != s ==> Preferred(c, s, h))
      // In terms of the contents and identifiers.
      && ((exists h :: h in heads && h.content.File?) ==> s.content.File?)
      && ((forall h :: h in heads ==> !h.content.File?) && (exists h :: h in heads && h.content == Directory) ==> s.content == Directory)
      && (forall h :: h in heads && (h.content.File? <==> s.content.File?) && (h.content == Directory <==> s.content == Directory) ==>
            c.id(s) <= c.id(h))
  {
    if |heads| > 1 {
      var rest, last := heads[..|heads| - 1], heads[|heads| - 1];
      SelectedIsBest(c, rest);
      assert forall h :: h in heads <==> h in rest || h == last;
    }
  }

  /** A deletion is selected only when no head keeps content: a concurrent edit survives it. */
  lemma DeletionNeverHidesContent(c: Codec, heads: Heads)
    requires Faithful(c) && heads != []
    ensures Selected(c, heads).value.content == Deleted <==> forall h :: h in heads ==> h.content == Deleted
  {
    SelectedIsBest(c, heads);
  }
}
