/**
 * The output contracts of the two samplers the survey flows draw slots with:
 * `random.sample(range(n), k)` (voice expansion, without replacement) and
 * `random.choices(range(n), k=k)` (internal test, with replacement). The
 * draw itself is a nondeterministic choice among the outputs the contract
 * allows, so no claim is made about its distribution.
 */
module Sampling {
  import opened Survey

  /** Every drawn index is a row position of an `n`-row table. */
  predicate InRange(draw: seq<nat>, n: nat) {
    forall i :: 0 <= i < |draw| ==> draw[i] < n
  }

  /** No index is drawn twice. */
  predicate Distinct(draw: seq<nat>) {
    forall i, j :: 0 <= i < j < |draw| ==> draw[i] != draw[j]
  }

  /** What `random.sample(range(n), k)` may return. */
  predicate IsDrawWithoutReplacement(draw: seq<nat>, n: nat, k: nat) {
    |draw| == k && InRange(draw, n) && Distinct(draw)
  }

  /** What `random.choices(range(n), k=k)` may return. */
  predicate IsDrawWithReplacement(draw: seq<nat>, n: nat, k: nat) {
    |draw| == k && InRange(draw, n)
  }

  /** The first `k` positions, in order. */
  function FirstPositions(k: nat): seq<nat> {
    seq(k, i requires 0 <= i < k => i)
  }

  /**
   * `random.sample(range(n), k)`: `k` pairwise-distinct positions below `n`;
   * raises ValueError when the sample is larger than the population.
   */
  method SampleWithoutReplacement(n: nat, k: nat) returns (r: Result<seq<nat>>)
    ensures r.Err? <==> k > n
    ensures r.Err? ==> r.failure == SampleLargerThanPopulation(n, k)
    ensures r.Ok? ==> IsDrawWithoutReplacement(r.value, n, k)
  {
    if k > n {
      return Err(SampleLargerThanPopulation(n, k));
    }
    assert IsDrawWithoutReplacement(FirstPositions(k), n, k);
    var draw :| IsDrawWithoutReplacement(draw, n, k);
    r := Ok(draw);
  }

  /**
   * `random.choices(range(n), k=k)`: `k` positions below `n`, repeats
   * allowed; indexing an empty population raises IndexError as soon as one
   * element is drawn.
   */
  method SampleWithReplacement(n: nat, k: nat) returns (r: Result<seq<nat>>)
    ensures r.Err? <==> n == 0 && k > 0
    ensures r.Err? ==> r.failure == EmptyPopulation
    ensures r.Ok? ==> IsDrawWithReplacement(r.value, n, k)
  {
    if n == 0 && k > 0 {
      return Err(EmptyPopulation);
    }
    var zeros: seq<nat> := seq(k, i requires 0 <= i < k => 0);
    assert IsDrawWithReplacement(zeros, n, k);
    var draw :| IsDrawWithReplacement(draw, n, k);
    r := Ok(draw);
  }

  /** A draw without replacement is a set of `k` positions: it needs at least `k` rows. */
  lemma {:induction false} DistinctDrawFits(draw: seq<nat>, n: nat)
    requires InRange(draw, n) && Distinct(draw)
    ensures |draw| <= n
  {
    var positions := set i | 0 <= i < |draw| :: draw[i];
    DistinctImageSize(draw, |draw|);
    BelowSize(positions, n);
  }

  lemma {:induction false} DistinctImageSize(draw: seq<nat>, m: nat)
    requires m <= |draw| && Distinct(draw)
    ensures |set i | 0 <= i < m :: draw[i]| == m
  {
    if m > 0 {
      DistinctImageSize(draw, m - 1);
      var smaller := set i | 0 <= i < m - 1 :: draw[i];
      assert (set i | 0 <= i < m :: draw[i]) == smaller + {draw[m - 1]};
      assert draw[m - 1] !in smaller;
    }
  }

  lemma {:induction false} BelowSize(s: set<nat>, n: nat)
    requires forall x :: x in s ==> x < n
    ensures |s| <= n
  {
    if n > 0 {
      BelowSize(s - {n - 1}, n - 1);
    } else {
      assert s == {};
    }
  }
}
