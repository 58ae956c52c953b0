/**
 The lifecycle sampler: which successes get an event at a configured rate.
 */
module Lifecycle {
  import opened Wrappers

  const RATE_DENOMINATOR: nat := 1_000_000
  const U64_MAX: nat := 0xFFFF_FFFF_FFFF_FFFF

  /** The rate as events per million successes, rounded half up and at least one;
      None when no success event can be emitted. The rate is finite. */
  function Numerator(perMessage: bool, rate: real): Option<nat> {
    if !perMessage || rate <= 0.0 then None
    else if rate >= 1.0 then Some(RATE_DENOMINATOR)
    else
      var scaled := (rate * 1_000_000.0 + 0.5).Floor;
      Some(if scaled < 1 then 1 else scaled)
  }

  /** Success events are sampled exactly for a positive rate of per-message events. The
      sampled rate is within half a millionth of the requested one, except that a
      rate below that still samples one in a million, and none exceeds everything. */
  lemma NumeratorNearRate(perMessage: bool, rate: real)
    ensures Numerator(perMessage, rate).Some? <==> perMessage && rate > 0.0
    ensures perMessage && rate > 0.0 ==>
              var n := Numerator(perMessage, rate).value;
              && 1 <= n <= 1_000_000 && (rate >= 1.0 ==> n == 1_000_000)
              && (rate < 1.0 ==> rate * 1_000_000.0 - n as real < 0.5)
              && (rate < 1.0 ==> n as real - rate * 1_000_000.0 <= 0.5 || (n == 1 && rate * 1_000_000.0 < 0.5))
  {
    if perMessage && 0.0 < rate < 1.0 {
      var x := rate * 1_000_000.0 + 0.5;
      assert x.Floor as real <= x < x.Floor as real + 1.0;
    }
  }

  function Owed(numerator: nat, seen: nat): nat {
    seen * numerator / RATE_DENOMINATOR
  }

  function Saturated(n: nat): nat {
    if n <= U64_MAX then n else U64_MAX
  }

  function SaturatingSub(a: nat, b: nat): nat {
    if a >= b then a - b else 0
  }

  lemma OwedWithinSeen(numerator: nat, seen: nat)
    requires numerator <= RATE_DENOMINATOR
    ensures Owed(numerator, seen) <= seen
  {
    assert seen * numerator <= seen * RATE_DENOMINATOR;
  }

  lemma OwedMonotone(numerator: nat, a: nat, b: nat)
    requires a <= b
    ensures Owed(numerator, a) <= Owed(numerator, b)
  {
    assert a * numerator <= b * numerator;
  }

  /** Never ahead of the rate and never a whole event behind it. */
  lemma OwedIsTheRate(numerator: nat, seen: nat)
    ensures Owed(numerator, seen) * RATE_DENOMINATOR <= seen * numerator
    ensures seen * numerator < (Owed(numerator, seen) + 1) * RATE_DENOMINATOR
  {}

  class LifecycleSampler {
    const numerator: Option<nat>
    var seen: nat
    var emitted: nat

    ghost predicate Valid()
      reads this
    {
      && seen <= U64_MAX
      && (numerator.Some? ==> numerator.value <= RATE_DENOMINATOR && emitted == Owed(numerator.value, seen))
    }

    constructor (numerator: Option<nat>)
      requires numerator.Some? ==> numerator.value <= RATE_DENOMINATOR
      ensures Valid() && seen == 0 && this.numerator == numerator
    {
      this.numerator, seen, emitted := numerator, 0, 0;
    }

    method Take(successes: nat) returns (emit: nat)
      requires Valid() && successes <= U64_MAX
      modifies this
      ensures Valid()
      ensures numerator.None? ==> emit == 0
      ensures numerator.Some? ==>
                && seen == Saturated(old(seen) + successes)
                && Owed(numerator.value, old(seen)) + emit == Owed(numerator.value, seen)
    {
      if numerator.None? || successes == 0 {
        return 0;
      }
      var was := seen;
      seen := Saturated(seen + successes);
      var owed := seen * numerator.value / RATE_DENOMINATOR;
      OwedWithinSeen(numerator.value, seen);
      OwedMonotone(numerator.value, was, seen);
      owed := Saturated(owed);
      emit := SaturatingSub(owed, emitted);
      emitted := owed;
    }
  }

  function Sum(batches: seq<nat>): nat {
    if batches == [] then 0 else Sum(batches[..|batches| - 1]) + batches[|batches| - 1]
  }

  /** Every way of splitting N successes into batches emits exactly
      floor(N * numerator / 1000000) events, with N capped at what a u64 holds. */
  method TakeAll(numerator: nat, batches: seq<nat>) returns (total: nat)
    requires numerator <= RATE_DENOMINATOR && forall i :: 0 <= i < |batches| ==> batches[i] <= U64_MAX
    ensures total == Owed(numerator, Saturated(Sum(batches)))
    ensures Sum(batches) >= 0xFFFF_FFFF_FFFF_FFFF ==> total == 0xFFFF_FFFF_FFFF_FFFF * numerator / 1_000_000
    ensures Sum(batches) <= 0xFFFF_FFFF_FFFF_FFFF ==>
              && total * 1_000_000 <= Sum(batches) * numerator < (total + 1) * 1_000_000
              && total <= Sum(batches)
  {
    var sampler := new LifecycleSampler(Some(numerator));
    total := 0;
    assert batches[..0] == [];
    for i := 0 to |batches|
      invariant sampler.Valid() && sampler.numerator == Some(numerator)
      invariant sampler.seen == Saturated(Sum(batches[..i]))
      invariant total == Owed(numerator, sampler.seen)
    {
      assert batches[..i + 1][..i] == batches[..i];
      var emit := sampler.Take(batches[i]);
      total := total + emit;
    }
    assert batches[..|batches|] == batches;
    OwedIsTheRate(numerator, Saturated(Sum(batches)));
    OwedWithinSeen(numerator, Saturated(Sum(batches)));
  }
}
