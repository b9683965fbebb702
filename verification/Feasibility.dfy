// A bounded search below a failing magnitude: halve until something works, then bisect.
module Feasibility {
  import opened Outcomes

  datatype Probe = Probe(maxFeasible: real, attempts: nat)

  const BRACKET_ATTEMPTS: nat := 8
  const REFINEMENT_ATTEMPTS: nat := 8

  function Halved(x: real, times: nat): real {
    if times == 0 then x else Halved(x, times - 1) / 2.0
  }

  lemma {:induction false} HalvedPositive(x: real, times: nat)
    requires x > 0.0
    ensures 0.0 < Halved(x, times) <= x
  {
    if times > 0 {
      HalvedPositive(x, times - 1);
    }
  }

  lemma {:induction false} HalvedTwice(x: real, a: nat, b: nat)
    ensures Halved(Halved(x, a), b) == Halved(x, a + b)
  {
    if b > 0 {
      HalvedTwice(x, a, b - 1);
    }
  }

  /** The first of the halvings 1..n that works, if any. */
  ghost predicate FirstWorking(failed: real, works: real -> bool, k: nat) {
    1 <= k && works(Halved(failed, k)) && forall j: nat :: 1 <= j < k ==> !works(Halved(failed, j))
  }

  ghost predicate NoneWork(failed: real, works: real -> bool, n: nat) {
    forall j: nat :: 1 <= j <= n ==> !works(Halved(failed, j))
  }

  /** A known failure: the given magnitude, or something tested. */
  predicate Fails(failed: real, works: real -> bool, x: real) { x == failed || !works(x) }

  /** Halves until something works. */
  method Bracket(failed: real, works: real -> bool) returns (success: Option<real>, failing: real, attempts: nat)
    requires failed > 0.0
    ensures success.None? ==> NoneWork(failed, works, BRACKET_ATTEMPTS)
    ensures success.Some? ==> attempts <= BRACKET_ATTEMPTS && FirstWorking(failed, works, attempts)
    ensures success.Some? ==> success.value == Halved(failed, attempts) && failing == Halved(failed, attempts - 1)
  {
    failing := failed;
    var candidate := failed * 0.5;
    attempts := 0;
    for attempt := 0 to BRACKET_ATTEMPTS
      invariant attempts == attempt && failing == Halved(failed, attempt) && candidate == Halved(failed, attempt + 1)
      invariant NoneWork(failed, works, attempt)
    {
      HalvedPositive(failed, attempt);
      if !(candidate > 0.0) || !(candidate < failing) {
        break;
      }
      attempts := attempts + 1;
      if works(candidate) {
        return Some(candidate), failing, attempts;
      }
      failing := candidate;
      candidate := candidate * 0.5;
    }
    return None, failing, attempts;
  }

  /** The greatest tested success below a magnitude that fails, in at most sixteen tests. */
  method ProbeMaxFeasible(failed: real, works: real -> bool) returns (r: Option<Probe>, ghost failing: real)
    ensures r.None? <==> failed <= 0.0 || NoneWork(failed, works, BRACKET_ATTEMPTS)
    ensures r.Some? ==> works(r.value.maxFeasible) && Fails(failed, works, failing)
    ensures r.Some? ==> failing - r.value.maxFeasible == Halved(failed, r.value.attempts)
    ensures r.Some? ==> REFINEMENT_ATTEMPTS < r.value.attempts <= BRACKET_ATTEMPTS + REFINEMENT_ATTEMPTS
    ensures r.Some? ==> 9 <= r.value.attempts <= 16
    ensures failed > 0.0 && (works(failed / 2.0) || works(failed / 256.0)) ==> r.Some?
    ensures r.Some? ==> FirstWorking(failed, works, r.value.attempts - REFINEMENT_ATTEMPTS)
    ensures r.Some? ==> Halved(failed, r.value.attempts - REFINEMENT_ATTEMPTS) <= r.value.maxFeasible < failing
    ensures r.Some? ==> failing <= Halved(failed, r.value.attempts - REFINEMENT_ATTEMPTS - 1)
    ensures r.Some? ==> failing - r.value.maxFeasible <= r.value.maxFeasible / 256.0
    ensures r.Some? && DownwardClosed(works) && !works(failed) ==> Threshold(works, r.value.maxFeasible, failing)
  {
    failing := failed;
    if !(failed > 0.0) {
      return None, failing;
    }
    EightHalvings(failed);
    assert Halved(failed, 1) == failed / 2.0 by { assert Halved(failed, 0) == failed; }
    var success, above, attempts := Bracket(failed, works);
    if success.None? {
      return None, above;
    }
    var k := attempts;
    var low, high := success.value, above;
    HalvedPositive(failed, k);
    assert Fails(failed, works, high) by { assert k > 1 ==> !works(Halved(failed, k - 1)); }
    for attempt := 0 to REFINEMENT_ATTEMPTS
      invariant attempts == k + attempt
      invariant works(low) && Fails(failed, works, high)
      invariant high - low == Halved(failed, attempts)
      invariant Halved(failed, k) <= low < high <= Halved(failed, k - 1)
    {
      var midpoint := low + (high - low) * 0.5;
      HalvedPositive(failed, attempts + 1);
      if !(midpoint > low) || !(midpoint < high) {
        break;
      }
      attempts := attempts + 1;
      if works(midpoint) {
        low := midpoint;
      } else {
        high := midpoint;
      }
    }
    GapIsSmall(failed, low, k);
    if DownwardClosed(works) && !works(failed) {
      ThresholdInGap(failed, works, low, high);
    }
    return Some(Probe(low, attempts)), high;
  }

  /** The remaining gap is at most the 256th part of the answer. */
  lemma GapIsSmall(failed: real, v: real, k: nat)
    requires Halved(failed, k) <= v
    ensures Halved(failed, k + REFINEMENT_ATTEMPTS) <= v / 256.0
  {
    HalvedTwice(failed, k, 8);
    EightHalvings(Halved(failed, k));
  }

  lemma QuarterIs(x: real)
    ensures Halved(x, 2) == x / 4.0
  {
    assert Halved(x, 1) == x / 2.0 by { assert Halved(x, 0) == x; }
  }

  lemma EightHalvings(x: real)
    ensures Halved(x, 8) == x / 256.0
  {
    QuarterIs(x);
    QuarterIs(x / 4.0);
    HalvedTwice(x, 2, 2);
    assert Halved(x, 4) == x / 16.0;
    HalvedTwice(x, 4, 4);
    QuarterIs(x / 16.0);
    QuarterIs(x / 64.0);
    HalvedTwice(x / 16.0, 2, 2);
  }

  ghost predicate DownwardClosed(works: real -> bool) {
    forall x, y :: 0.0 < x <= y && works(y) ==> works(x)
  }

  /** All up to v works, nothing from `failing` on does. */
  ghost predicate Threshold(works: real -> bool, v: real, failing: real) {
    (forall x :: 0.0 < x <= v ==> works(x)) && forall x :: failing <= x ==> !works(x)
  }

  /** If what works is closed downwards, the tested success and the known failure enclose the threshold. */
  lemma ThresholdInGap(failed: real, works: real -> bool, v: real, failing: real)
    requires DownwardClosed(works) && !works(failed) && works(v) && Fails(failed, works, failing) && 0.0 < v < failing
    ensures Threshold(works, v, failing)
  {
  }
}
