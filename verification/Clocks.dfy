/** Version vectors (src/versions.rs). */
module Clocks {
  import opened Results

  /** The counter range of the original: unsigned 64-bit. */
  const COUNTER_LIMIT := 0x1_0000_0000_0000_0000
  type Counter = n: int | 0 <= n < COUNTER_LIMIT

  type Device = string
  type Clock = map<Device, Counter>

  datatype Relation = Before | After | Equal | Concurrent

  predicate ValidDevice(device: Device) {
    device != "" && |device| <= 128
  }

  predicate Valid(clock: Clock) {
    && clock != map[] && |clock| <= 128
    && forall d :: d in clock ==> ValidDevice(d) && clock[d] > 0
  }

  function Count(clock: Clock, device: Device): Counter {
    if device in clock then clock[device] else 0
  }

  /** `a` knows nothing that `b` does not. */
  predicate Leq(a: Clock, b: Clock) {
    forall d :: d in a ==> a[d] <= Count(b, d)
  }

  function Compare(a: Clock, b: Clock): Relation {
    if Leq(a, b) then
      if Leq(b, a) then Equal else Before
    else
      if Leq(b, a) then After else Concurrent
  }

  function Merged(a: Clock, b: Clock): Clock {
    map d | d in a.Keys + b.Keys :: if Count(a, d) < Count(b, d) then Count(b, d) else Count(a, d)
  }

  function Advanced(clock: Clock, device: Device): Result<Clock> {
    if !ValidDevice(device) then Err(InvalidDevice)
    else if Count(clock, device) + 1 == COUNTER_LIMIT then Err(CounterExhausted)
    else Ok(clock[device := Count(clock, device) + 1])
  }

  method Merge(self: Clock, other: Clock) returns (result: Clock)
    ensures result == Merged(self, other)
  {
    result := self;
    var todo := other.Keys;
    while todo != {}
      invariant todo <= other.Keys
      invariant result.Keys == self.Keys + (other.Keys - todo)
      invariant forall d :: d in result ==>
        result[d] == if d in todo then Count(self, d) else Count(Merged(self, other), d)
      decreases todo
    {
      var device :| device in todo;
      todo := todo - {device};
      var value := Count(result, device);
      var count := other[device];
      result := result[device := if value < count then count else value];
    }
  }

  method RelationOf(self: Clock, other: Clock) returns (r: Relation)
    ensures r == Compare(self, other)
  {
    var less, greater := false, false;
    var todo := self.Keys + other.Keys;
    while todo != {}
      invariant todo <= self.Keys + other.Keys
      invariant less <==> exists d :: d in self.Keys + other.Keys - todo && Count(self, d) < Count(other, d)
      invariant greater <==> exists d :: d in self.Keys + other.Keys - todo && Count(self, d) > Count(other, d)
      decreases todo
    {
      var device :| device in todo;
      todo := todo - {device};
      var a, b := Count(self, device), Count(other, device);
      less := less || a < b;
      greater := greater || a > b;
    }
    assert less <==> !Leq(other, self);
    assert greater <==> !Leq(self, other);
    r := match (less, greater) {
      case (true, true) => Concurrent
      case (true, false) => Before
      case (false, true) => After
      case (false, false) => Equal
    };
  }

  method Advance(self: Clock, device: Device) returns (r: Result<Clock>)
    ensures r == Advanced(self, device)
  {
    if device == "" || |device| > 128 {
      return Err(InvalidDevice);
    }
    var next := self;
    var value: int := if device in next then next[device] else 0;
    if value + 1 == COUNTER_LIMIT {
      return Err(CounterExhausted);
    }
    next := next[device := value + 1];
    r := Ok(next);
  }

  // ---- What the operations mean ----

  /** `Compare` is the comparison of the clocks as points of a product order. */
  lemma CompareIsPointwise(a: Clock, b: Clock)
    ensures Compare(a, b) == Equal <==> forall d :: Count(a, d) == Count(b, d)
    ensures Compare(a, b) == Before <==>
      (forall d :: Count(a, d) <= Count(b, d)) && exists d :: Count(a, d) < Count(b, d)
    ensures Compare(a, b) == After <==> Compare(b, a) == Before
  {
    assert Leq(a, b) <==> forall d :: Count(a, d) <= Count(b, d);
    assert Leq(b, a) <==> forall d :: Count(b, d) <= Count(a, d);
  }

  lemma LeqTransitive(a: Clock, b: Clock, c: Clock)
    requires Leq(a, b) && Leq(b, c)
    ensures Leq(a, c)
  {
    forall d | d in a ensures a[d] <= Count(c, d) {
      if d in b { assert b[d] <= Count(c, d); }
    }
  }

  lemma BeforeTransitive(a: Clock, b: Clock, c: Clock)
    requires Leq(a, b) && Leq(b, c) && (Compare(a, b) == Before || Compare(b, c) == Before)
    ensures Compare(a, c) == Before
  {
    LeqTransitive(a, b, c);
    if Leq(c, a) {
      LeqTransitive(c, a, b);
      LeqTransitive(b, c, a);
    }
  }

  /** Positive counters, which `Valid` demands, are what make causally equal clocks identical. */
  lemma EqualClocksAreIdentical(a: Clock, b: Clock)
    requires Valid(a) && Valid(b)
    ensures Compare(a, b) == Equal <==> a == b
  {
    if Compare(a, b) == Equal {
      forall d ensures d in a <==> d in b {
        if d in a { assert 0 < a[d] <= Count(b, d); }
        if d in b { assert 0 < b[d] <= Count(a, d); }
      }
      assert forall d :: d in a ==> a[d] == b[d];
    }
  }

  /** Without that demand, two different clocks can compare equal. */
  lemma ZeroCountersBreakIdentity()
    ensures var zero: Clock := map["d" := 0, "e" := 1]; var plain: Clock := map["e" := 1];
      Compare(zero, plain) == Equal && zero != plain && !Valid(zero) && Valid(plain)
  {
    var zero: Clock := map["d" := 0, "e" := 1];
    var plain: Clock := map["e" := 1];
    assert "d" in zero && zero["d"] == 0;
    assert "d" !in plain;
    assert forall d: Device :: d in plain ==> d == "e";
  }

  lemma MergeIsLeastUpperBound(a: Clock, b: Clock, upper: Clock)
    ensures Leq(a, Merged(a, b)) && Leq(b, Merged(a, b))
    ensures Leq(a, upper) && Leq(b, upper) <==> Leq(Merged(a, b), upper)
  {
    if Leq(Merged(a, b), upper) {
      LeqTransitive(a, Merged(a, b), upper);
      LeqTransitive(b, Merged(a, b), upper);
    }
  }

  /** Advancing yields a strictly later clock, which agrees with the old one except at `device`. */
  lemma AdvanceIsLater(clock: Clock, device: Device)
    requires Advanced(clock, device).Ok?
    ensures Compare(clock, Advanced(clock, device).value) == Before
    ensures Count(Advanced(clock, device).value, device) == Count(clock, device) + 1
    ensures forall d :: d != device ==> Count(Advanced(clock, device).value, d) == Count(clock, d)
  {
    var next := Advanced(clock, device).value;
    assert device in next && next[device] > Count(clock, device);
  }
}
