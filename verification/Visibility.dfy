/** The retry budget shared by all post-write reads of one publication. */
module Visibility {

  const MAX_DELAYS: nat := 16
  const MAX_WAIT: real := 60000.0
  const DEFAULT_DELAYS: seq<real> := [1000.0, 2000.0, 4000.0, 8000.0, 15000.0, 30000.0]

  function Sum(s: seq<real>): real {
    if s == [] then 0.0 else s[0] + Sum(s[1..])
  }

  function Min(a: real, b: real): real { if a <= b then a else b }

  predicate Nonnegative(s: seq<real>) { forall k :: 0 <= k < |s| ==> s[k] >= 0.0 }

  predicate Positive(s: seq<real>) { forall k :: 0 <= k < |s| ==> s[k] > 0.0 }

  predicate ValidDelays(delays: seq<real>) {
    |delays| <= MAX_DELAYS && Nonnegative(delays) && Sum(delays) <= MAX_WAIT
  }

  /** How often one lookup may sleep: a positive delay needs some budget left, a zero delay does not. */
  function Retries(delays: seq<real>, budget: real): nat {
    if delays == [] || (delays[0] > 0.0 && budget == 0.0) then 0
    else 1 + Retries(delays[1..], budget - Min(delays[0], budget))
  }

  /** What the first `n` sleeps of one lookup add up to. */
  function Slept(delays: seq<real>, budget: real, n: nat): real {
    if n == 0 || delays == [] then 0.0
    else Min(delays[0], budget) + Slept(delays[1..], budget - Min(delays[0], budget), n - 1)
  }

  lemma {:induction false} SumSnoc(s: seq<real>, x: real)
    ensures Sum(s + [x]) == Sum(s) + x
  {
    if s == [] {
      assert (s + [x])[1..] == [];
    } else {
      SumSnoc(s[1..], x);
      assert (s + [x])[1..] == s[1..] + [x];
    }
  }

  lemma {:induction false} SumNonnegative(s: seq<real>)
    requires Nonnegative(s)
    ensures Sum(s) >= 0.0
  {
    if s != [] { SumNonnegative(s[1..]); }
  }

  /** A lookup never sleeps past the shared budget, nor past its own delays. */
  lemma {:induction false} SleptBounded(delays: seq<real>, budget: real, n: nat)
    requires Nonnegative(delays) && budget >= 0.0
    ensures 0.0 <= Slept(delays, budget, n) <= Min(budget, Sum(delays))
  {
    SumNonnegative(delays);
    if n > 0 && delays != [] {
      SleptBounded(delays[1..], budget - Min(delays[0], budget), n - 1);
    }
  }

  lemma {:induction false} RetriesBounded(delays: seq<real>, budget: real)
    ensures Retries(delays, budget) <= |delays|
  {
    if delays != [] && !(delays[0] > 0.0 && budget == 0.0) {
      RetriesBounded(delays[1..], budget - Min(delays[0], budget));
    }
  }

  /** An exhausted window reads once per lookup exactly when its first delay, if any, is positive. */
  lemma ExhaustedReadsOnce(delays: seq<real>)
    requires Nonnegative(delays)
    ensures Retries(delays, 0.0) == 0 <==> delays == [] || delays[0] > 0.0
    ensures Positive(delays) ==> Retries(delays, 0.0) == 0
  {
    assert Positive(delays) ==> delays == [] || delays[0] > 0.0;
  }

  /** The built-in schedule is valid and uses the whole minute. */
  lemma DefaultDelaysFit()
    ensures ValidDelays(DEFAULT_DELAYS) && Sum(DEFAULT_DELAYS) == MAX_WAIT
  {
    assert DEFAULT_DELAYS[1..] == [2000.0, 4000.0, 8000.0, 15000.0, 30000.0];
    assert DEFAULT_DELAYS[1..][1..] == [4000.0, 8000.0, 15000.0, 30000.0];
    assert DEFAULT_DELAYS[1..][1..][1..] == [8000.0, 15000.0, 30000.0];
    assert DEFAULT_DELAYS[1..][1..][1..][1..] == [15000.0, 30000.0];
  }

  /** A lookup runs out of budget only by spending all of it: if it stops before its last delay, everything
      has been slept. */
  lemma {:induction false} StoppedEarlyMeansSpent(delays: seq<real>, budget: real)
    requires Nonnegative(delays) && budget >= 0.0
    ensures Retries(delays, budget) < |delays| ==> Slept(delays, budget, Retries(delays, budget)) == budget
  {
    if delays != [] && !(delays[0] > 0.0 && budget == 0.0) {
      StoppedEarlyMeansSpent(delays[1..], budget - Min(delays[0], budget));
    }
  }

  lemma {:induction false} SleptOne(delays: seq<real>, budget: real, n: nat)
    requires n < |delays|
    ensures Slept(delays, budget, n + 1) ==
            Slept(delays, budget, n) + Min(delays[n], budget - Slept(delays, budget, n))
  {
    if n > 0 {
      SleptOne(delays[1..], budget - Min(delays[0], budget), n - 1);
      assert delays[1..][n - 1] == delays[n];
    } else {
      assert Slept(delays[1..], budget - Min(delays[0], budget), 0) == 0.0;
    }
  }

  /** Whether retry `n` happens is decided by the delay at `n` and what is left of the budget then. */
  lemma {:induction false} RetriesAt(delays: seq<real>, budget: real, n: nat)
    requires n <= Retries(delays, budget) && n <= |delays|
    ensures Retries(delays, budget) == n <==>
            n == |delays| || (delays[n] > 0.0 && budget - Slept(delays, budget, n) == 0.0)
  {
    if n > 0 {
      RetriesAt(delays[1..], budget - Min(delays[0], budget), n - 1);
      assert n < |delays| ==> delays[1..][n - 1] == delays[n];
    }
  }

  class Window {
    const delays: seq<real>
    var remaining: real
    var slept: real          // everything this window has slept so far

    ghost predicate Valid()
      reads this
    {
      ValidDelays(delays) && remaining >= 0.0 && slept >= 0.0 && slept + remaining == Sum(delays)
    }

    constructor (delays: seq<real>)
      requires ValidDelays(delays)
      ensures Valid() && this.delays == delays && remaining == Sum(delays) && slept == 0.0
    {
      SumNonnegative(delays);
      this.delays := delays;
      remaining := Sum(delays);
      slept := 0.0;
    }

    /** One lookup. `observe(k)` is what its k-th read returns. The result is the last observation; it is
        the first visible one unless the retries ran out before. */
    method Read<T>(observe: nat -> T, visible: T -> bool) returns (result: T, tries: nat)
      requires Valid()
      modifies this
      ensures Valid()
      ensures 1 <= tries <= 1 + Retries(delays, old(remaining)) && result == observe(tries - 1)
      ensures forall k :: 0 <= k < tries - 1 ==> !visible(observe(k))
      ensures !visible(result) ==> tries == 1 + Retries(delays, old(remaining))
      ensures remaining == old(remaining) - Slept(delays, old(remaining), tries - 1)
    {
      ghost var budget := remaining;
      result := observe(0);
      tries := 1;
      while !visible(result)
        invariant 1 <= tries <= 1 + Retries(delays, budget) && tries <= 1 + |delays|
        invariant result == observe(tries - 1) && Valid()
        invariant forall k :: 0 <= k < tries - 1 ==> !visible(observe(k))
        invariant remaining == budget - Slept(delays, budget, tries - 1)
        decreases |delays| - tries
      {
        RetriesAt(delays, budget, tries - 1);
        if tries - 1 == |delays| || (delays[tries - 1] > 0.0 && remaining == 0.0) {
          return;
        }
        var delay := Min(delays[tries - 1], remaining);
        SleptOne(delays, budget, tries - 1);
        remaining := remaining - delay;
        slept := slept + delay;
        result := observe(tries);
        tries := tries + 1;
        RetriesBounded(delays, budget);
      }
    }
  }

  /** `new CanaryVisibilityWindow`: invalid delays are refused. */
  method Open(delays: seq<real>) returns (w: Window?)
    ensures w != null <==> ValidDelays(delays)
    ensures w != null <==>
            |delays| <= 16 && (forall k :: 0 <= k < |delays| ==> delays[k] >= 0.0) && Sum(delays) <= 60000.0
    ensures w != null ==> fresh(w) && w.Valid() && w.delays == delays && w.remaining == Sum(delays) && w.slept == 0.0
  {
    if |delays| > MAX_DELAYS {
      return null;
    }
    var total := 0.0;
    for k := 0 to |delays|
      invariant total == Sum(delays[..k]) && Nonnegative(delays[..k])
    {
      if delays[k] < 0.0 {
        return null;
      }
      SumSnoc(delays[..k], delays[k]);
      assert delays[..k] + [delays[k]] == delays[..k + 1];
      total := total + delays[k];
    }
    assert delays[..|delays|] == delays;
    if total > MAX_WAIT {
      return null;
    }
    w := new Window(delays);
  }
}
