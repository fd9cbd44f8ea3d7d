/**
 The fixed accumulator of durations, tokens and cost. Durations and their total are exact reals here.
 */
module MetricsRegistry {
  import opened Wrappers

  const MAX_COUNTER := 0x7FFF_FFFF_FFFF_FFFF
  const MAX_DURATION := 86400.0
  const MAX_COST_UNITS := 1_000_000_000_000_000_000_000_000

  const BOUNDS: seq<real> :=
    [0.001, 0.005, 0.01, 0.025, 0.05, 0.1, 0.25, 0.5, 1.0, 2.5, 5.0, 10.0, 30.0, 60.0, 120.0, 300.0, 900.0, 3600.0]

  predicate Rising(bounds: seq<real>) {
    forall i, j :: 0 <= i < j < |bounds| ==> bounds[i] < bounds[j]
  }

  /** `bisect_left`: the first bound that is not below the value. */
  function FirstBucket(bounds: seq<real>, value: real): (r: nat)
    ensures r <= |bounds|
  {
    if bounds == [] || value <= bounds[0] then 0 else 1 + FirstBucket(bounds[1..], value)
  }

  lemma {:induction false} FirstBucketSplits(bounds: seq<real>, value: real, i: nat)
    requires Rising(bounds) && i < |bounds|
    ensures FirstBucket(bounds, value) <= i <==> value <= bounds[i]
  {
    if value > bounds[0] && i > 0 {
      FirstBucketSplits(bounds[1..], value, i - 1);
    }
  }

  function CountAtMost(observed: seq<real>, bound: real): (r: nat)
    ensures r <= |observed|
  {
    if observed == [] then 0
    else CountAtMost(observed[..|observed| - 1], bound) + if observed[|observed| - 1] <= bound then 1 else 0
  }

  function Total(observed: seq<real>): real {
    if observed == [] then 0.0 else Total(observed[..|observed| - 1]) + observed[|observed| - 1]
  }

  predicate InRange(observed: seq<real>) {
    forall i :: 0 <= i < |observed| ==> 0.0 <= observed[i] <= MAX_DURATION
  }

  lemma {:induction false} TotalBound(observed: seq<real>)
    requires InRange(observed)
    ensures 0.0 <= Total(observed) <= MAX_DURATION * |observed| as real
  {
    if observed != [] {
      TotalBound(observed[..|observed| - 1]);
    }
  }

  lemma SumFits(observed: seq<real>, value: real)
    requires InRange(observed) && value <= MAX_DURATION && |observed| < MAX_COUNTER
    ensures Total(observed) + value <= MAX_DURATION * MAX_COUNTER as real
  {
    TotalBound(observed);
    assert MAX_DURATION * (|observed| + 1) as real <= MAX_DURATION * MAX_COUNTER as real;
  }

  /** A wider bound counts no less: the buckets are cumulative. */
  lemma {:induction false} CountsAccumulate(observed: seq<real>, a: real, b: real)
    requires a <= b
    ensures CountAtMost(observed, a) <= CountAtMost(observed, b)
  {
    if observed != [] {
      CountsAccumulate(observed[..|observed| - 1], a, b);
    }
  }

  ghost predicate IsLeast(m: Option<real>, observed: seq<real>) {
    && (m.None? <==> observed == [])
    && (m.Some? ==> m.value in observed && forall i :: 0 <= i < |observed| ==> m.value <= observed[i])
  }

  ghost predicate IsGreatest(m: Option<real>, observed: seq<real>) {
    && (m.None? <==> observed == [])
    && (m.Some? ==> m.value in observed && forall i :: 0 <= i < |observed| ==> observed[i] <= m.value)
  }

  /** Bucket i holds exactly the observations up to bound i, the last bucket all of them. */
  ghost predicate Counts(buckets: seq<nat>, observed: seq<real>) {
    && |buckets| == |BOUNDS| + 1 && buckets[|BOUNDS|] == |observed|
    && forall i :: 0 <= i < |BOUNDS| ==> buckets[i] == CountAtMost(observed, BOUNDS[i])
  }

  function Bumped(buckets: seq<nat>, from: nat, to: nat): seq<nat>
    requires from <= to <= |buckets|
  {
    seq(|buckets|, i requires 0 <= i < |buckets| => if from <= i < to then buckets[i] + 1 else buckets[i])
  }

  lemma BumpedCounts(buckets: seq<nat>, observed: seq<real>, value: real)
    requires Counts(buckets, observed)
    ensures Counts(Bumped(buckets, FirstBucket(BOUNDS, value), |buckets|), observed + [value])
  {
    var more := observed + [value];
    assert more[..|more| - 1] == observed;
    forall i | 0 <= i < |BOUNDS|
      ensures Bumped(buckets, FirstBucket(BOUNDS, value), |buckets|)[i] == CountAtMost(more, BOUNDS[i])
    {
      FirstBucketSplits(BOUNDS, value, i);
    }
  }

  function Least(m: Option<real>, value: real): Option<real> {
    Some(if m.Some? && m.value < value then m.value else value)
  }

  function Greatest(m: Option<real>, value: real): Option<real> {
    Some(if m.Some? && m.value > value then m.value else value)
  }

  lemma MoreObserved(observed: seq<real>, value: real, least: Option<real>, greatest: Option<real>)
    requires IsLeast(least, observed) && IsGreatest(greatest, observed) && InRange(observed)
             && 0.0 <= value <= MAX_DURATION
    ensures var more := observed + [value];
            && IsLeast(Least(least, value), more) && IsGreatest(Greatest(greatest, value), more)
            && InRange(more) && Total(more) == Total(observed) + value
  {
    var more := observed + [value];
    assert more[..|more| - 1] == observed && more[|observed|] == value;
    forall i | 0 <= i < |observed| ensures more[i] == observed[i] && more[i] in more {
    }
  }

  lemma NoBucketFull(buckets: seq<nat>, observed: seq<real>)
    requires Counts(buckets, observed)
    ensures |buckets| == |BOUNDS| + 1 && forall i :: 0 <= i < |buckets| ==> buckets[i] <= |observed|
  {
    forall i | 0 <= i < |buckets| ensures buckets[i] <= |observed| {
      if i < |BOUNDS| {
        assert buckets[i] == CountAtMost(observed, BOUNDS[i]);
      }
    }
  }

  /** The update of the copied bucket list; None when a counter would overflow. */
  method BumpFrom(buckets: seq<nat>, first: nat) returns (updated: Option<seq<nat>>)
    requires first <= |buckets|
    ensures updated == if forall i :: first <= i < |buckets| ==> buckets[i] < MAX_COUNTER
                       then Some(Bumped(buckets, first, |buckets|)) else None
  {
    var copy := buckets;
    var i := first;
    while i < |copy|
      invariant first <= i <= |buckets| && copy == Bumped(buckets, first, i)
      invariant forall k :: first <= k < i ==> buckets[k] < MAX_COUNTER
    {
      if copy[i] >= MAX_COUNTER {
        return None;
      }
      copy := copy[i := copy[i] + 1];
      i := i + 1;
    }
    return Some(copy);
  }

  datatype Outcome = Recorded | Refused | Overflow

  class Registry {
    var count: nat
    var total: real
    var minimum: Option<real>
    var maximum: Option<real>
    var buckets: seq<nat>
    var tokensIn: nat
    var tokensOut: nat
    var costUnits: nat
    ghost var observed: seq<real>

    ghost predicate Valid()
      reads this
    {
      && count == |observed| && count <= MAX_COUNTER && total == Total(observed) && InRange(observed)
      && IsLeast(minimum, observed) && IsGreatest(maximum, observed) && Counts(buckets, observed)
      && tokensIn <= MAX_COUNTER && tokensOut <= MAX_COUNTER && costUnits < MAX_COST_UNITS
    }

    constructor ()
      ensures Valid() && observed == [] && tokensIn == 0 && tokensOut == 0 && costUnits == 0
    {
      count, total, minimum, maximum := 0, 0.0, None, None;
      buckets := seq(|BOUNDS| + 1, i => 0);
      tokensIn, tokensOut, costUnits, observed := 0, 0, 0, [];
    }

    /** Recorded exactly when in range and the counter has room; the other overflow checks never fail. */
    method ObserveDuration(seconds: real) returns (outcome: Outcome)
      requires Valid()
      modifies this`count, this`total, this`minimum, this`maximum, this`buckets, this`observed
      ensures Valid()
      ensures outcome == if !(0.0 <= seconds <= MAX_DURATION) then Refused
                         else if old(count) == MAX_COUNTER then Overflow else Recorded
      ensures observed == if outcome.Recorded? then old(observed) + [seconds] else old(observed)
      ensures !outcome.Recorded? ==> buckets == old(buckets) && total == old(total)
    {
      hide Counts, FirstBucket, CountAtMost, IsLeast, IsGreatest, InRange, Total, Least, Greatest, Bumped;
      if !(0.0 <= seconds <= MAX_DURATION) {
        return Refused;
      }
      if count >= MAX_COUNTER {
        return Overflow;
      }
      var sum := total + seconds;
      SumFits(observed, seconds);
      if sum > MAX_DURATION * MAX_COUNTER as real {
        return Overflow;
      }
      NoBucketFull(buckets, observed);
      var updated := BumpFrom(buckets, FirstBucket(BOUNDS, seconds));
      if updated.None? {
        return Overflow;
      }
      BumpedCounts(buckets, observed, seconds);
      MoreObserved(observed, seconds, minimum, maximum);
      count := count + 1;
      total := sum;
      minimum := Least(minimum, seconds);
      maximum := Greatest(maximum, seconds);
      buckets := updated.value;
      observed := observed + [seconds];
      outcome := Recorded;
    }

    /** The tokens and the cost of one usage record are added together or not at all. */
    method ObserveUsage(input: nat, output: nat, cost: nat) returns (outcome: Outcome)
      requires Valid()
      modifies this`tokensIn, this`tokensOut, this`costUnits
      ensures Valid()
      ensures outcome.Recorded? <==>
                && old(tokensIn) + input <= MAX_COUNTER && old(tokensOut) + output <= MAX_COUNTER
                && old(costUnits) + cost < MAX_COST_UNITS
      ensures if outcome.Recorded?
              then
                && tokensIn == old(tokensIn) + input && tokensOut == old(tokensOut) + output
                && costUnits == old(costUnits) + cost
              else
                && outcome == Overflow
                && tokensIn == old(tokensIn) && tokensOut == old(tokensOut) && costUnits == old(costUnits)
    {
      if input > MAX_COUNTER - tokensIn {
        return Overflow;
      }
      if output > MAX_COUNTER - tokensOut {
        return Overflow;
      }
      if cost >= MAX_COST_UNITS - costUnits {
        return Overflow;
      }
      tokensIn := tokensIn + input;
      tokensOut := tokensOut + output;
      costUnits := costUnits + cost;
      outcome := Recorded;
    }
  }
}
