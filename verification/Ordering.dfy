/** Ordered listings of finite sets: what `ORDER BY` and `sort_by` compute over distinct keys. */
module Ordering {

  ghost predicate StrictTotal<T(!new)>(less: (T, T) -> bool) {
    && (forall x :: !less(x, x))
    && (forall x, y :: x != y ==> less(x, y) || less(y, x))
    && (forall x, y, z :: less(x, y) && less(y, z) ==> less(x, z))
  }

  ghost predicate Ascending<T>(less: (T, T) -> bool, l: seq<T>) {
    forall i, j :: 0 <= i < j < |l| ==> less(l[i], l[j])
  }

  function Elements<T>(l: seq<T>): set<T> {
    set x | x in l
  }

  ghost predicate IsLeast<T>(less: (T, T) -> bool, s: set<T>, x: T) {
    x in s && forall y :: y in s && y != x ==> less(x, y)
  }

  lemma LeastExists<T(!new)>(less: (T, T) -> bool, s: set<T>) returns (least: T)
    requires StrictTotal(less) && s != {}
    ensures IsLeast(less, s, least)
  {
    least :| least in s;
    if s != {least} {
      var rest := LeastExists(less, s - {least});
      if less(rest, least) {
        least := rest;
      }
    }
  }

  ghost predicate IsListing<T>(less: (T, T) -> bool, s: set<T>, l: seq<T>) {
    Elements(l) == s && Ascending(less, l)
  }

  lemma {:induction false} ListingExists<T(!new)>(less: (T, T) -> bool, s: set<T>) returns (l: seq<T>)
    requires StrictTotal(less)
    ensures IsListing(less, s, l) && |l| == |s|
  {
    l := [];
    if s != {} {
      var x := LeastExists(less, s);
      var rest := ListingExists(less, s - {x});
      assert forall y :: y in rest ==> y in Elements(rest);
      l := [x] + rest;
      assert forall y :: y in l <==> y == x || y in Elements(rest);
    }
  }

  /** The elements of `s` in increasing order. */
  ghost function Listing<T(!new)>(less: (T, T) -> bool, s: set<T>): (l: seq<T>)
    requires StrictTotal(less)
    ensures IsListing(less, s, l) && |l| == |s|
  {
    assert exists l :: IsListing(less, s, l) && |l| == |s| by { var l := ListingExists(less, s); }
    var l :| IsListing(less, s, l) && |l| == |s|;
    l
  }

  lemma NoElements<T>(l: seq<T>)
    ensures l == [] <==> Elements(l) == {}
  {
    if l != [] { assert l[0] in Elements(l); }
  }

  /** There is only one increasing sequence with given elements. */
  lemma {:induction false} AscendingIsUnique<T(!new)>(less: (T, T) -> bool, a: seq<T>, b: seq<T>)
    requires StrictTotal(less)
    requires Ascending(less, a) && Ascending(less, b)
    requires Elements(a) == Elements(b)
    ensures a == b
  {
    NoElements(a);
    NoElements(b);
    if a != [] {
      assert a[0] in Elements(b) && b[0] in Elements(a);
      assert a[0] == b[0];
      assert forall i :: 0 < i < |a| ==> less(a[0], a[i]);
      assert forall i :: 0 < i < |b| ==> less(b[0], b[i]);
      assert forall x :: x in Elements(a[1..]) <==> x in Elements(a) && x != a[0];
      assert forall x :: x in Elements(b[1..]) <==> x in Elements(b) && x != b[0];
      AscendingIsUnique(less, a[1..], b[1..]);
    }
  }

  /** Any increasing sequence is the listing of its own elements. */
  lemma AscendingIsListing<T(!new)>(less: (T, T) -> bool, l: seq<T>)
    requires StrictTotal(less) && Ascending(less, l)
    ensures l == Listing(less, Elements(l))
  {
    AscendingIsUnique(less, l, Listing(less, Elements(l)));
  }

  /** Resuming a listing strictly after its k-th element yields exactly the elements not yet listed. */
  lemma ListingResumes<T(!new)>(less: (T, T) -> bool, s: set<T>, k: nat, rest: set<T>)
    requires StrictTotal(less) && k < |s|
    requires forall x :: x in rest <==> x in s && less(Listing(less, s)[k], x)
    ensures Listing(less, rest) == Listing(less, s)[k + 1..]
  {
    var l := Listing(less, s);
    forall x | x in s
      ensures less(l[k], x) <==> x in l[k + 1..]
    {
      var i :| 0 <= i < |l| && l[i] == x;
      if i < k { assert less(l[i], l[k]); }
      if k < i { assert l[k + 1..][i - k - 1] == x; }
      if x in l[k + 1..] {
        var j :| 0 <= j < |l[k + 1..]| && l[k + 1..][j] == x;
        assert less(l[k], l[k + 1 + j]);
      }
    }
    assert forall x :: x in l[k + 1..] ==> x in l;
    assert Elements(l[k + 1..]) == rest;
    AscendingIsUnique(less, l[k + 1..], Listing(less, rest));
  }

  lemma ListingBegins<T(!new)>(less: (T, T) -> bool, s: set<T>, x: T)
    requires StrictTotal(less) && IsLeast(less, s, x)
    ensures Listing(less, s) == [x] + Listing(less, s - {x})
    ensures Listing(less, s)[1..] == Listing(less, s - {x})
  {
    var rest := Listing(less, s - {x});
    assert forall y :: y in rest ==> y in s - {x};
    assert forall y :: y in [x] + rest <==> y == x || y in rest;
    assert forall y :: y in rest <==> y in s - {x};
    assert Elements([x] + rest) == s;
    AscendingIsUnique(less, [x] + rest, Listing(less, s));
  }

  /** `rest` is what remains of `s` once the first `n` elements of its listing are taken. */
  ghost predicate Remaining<T(!new)>(less: (T, T) -> bool, s: set<T>, n: nat, rest: set<T>)
    requires StrictTotal(less)
  {
    n + |rest| == |s| && Listing(less, rest) == Listing(less, s)[n..]
  }

  lemma TakeLeast<T(!new)>(less: (T, T) -> bool, s: set<T>, n: nat, rest: set<T>, x: T)
    requires StrictTotal(less) && Remaining(less, s, n, rest) && IsLeast(less, rest, x)
    ensures n < |s| && Listing(less, s)[n] == x && Remaining(less, s, n + 1, rest - {x})
  {
    ListingBegins(less, rest, x);
    assert Listing(less, s)[n..][1..] == Listing(less, s)[n + 1..];
  }

  /** `SELECT ... ORDER BY ... LIMIT`: the first `limit` rows of the listing. */
  method SelectFirst<T(==,!new)>(less: (T, T) -> bool, s: set<T>, limit: nat) returns (page: seq<T>)
    requires StrictTotal(less)
    ensures page == Listing(less, s)[..if limit < |s| then limit else |s|]
  {
    page := [];
    var rest := s;
    ghost var l := Listing(less, s);
    while |page| < limit && rest != {}
      invariant |page| <= limit && |page| <= |l| && page == l[..|page|]
      invariant Remaining(less, s, |page|, rest)
    {
      var x := LeastOf(less, rest);
      TakeLeast(less, s, |page|, rest, x);
      rest := rest - {x};
      page := page + [x];
    }
  }

  method LeastOf<T(==,!new)>(less: (T, T) -> bool, s: set<T>) returns (least: T)
    requires StrictTotal(less) && s != {}
    ensures IsLeast(less, s, least)
  {
    least :| least in s;
    var rest := s - {least};
    while rest != {}
      invariant rest <= s && least in s - rest
      invariant forall y :: y in s - rest && y != least ==> less(least, y)
      decreases rest
    {
      var x :| x in rest;
      rest := rest - {x};
      ghost var was := least;
      if less(x, least) { least := x; }
      assert less(was, x) || was == x || least == x;
    }
  }
}
