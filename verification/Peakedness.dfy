/** `peakedness` of apps/decision-local/decide.py: how sure a distribution is, over the
    reals and for anything that behaves like a logarithm. */
module Peakedness {

  type Log = real -> real

  /** All that is needed of the logarithm: the logarithm of a product is the sum, and it
      stays below its tangent at 1. */
  ghost predicate IsLog(log: Log) {
    (forall x, y :: OfProduct(log, x, y)) && forall x :: BelowTangent(log, x)
  }

  predicate OfProduct(log: Log, x: real, y: real) {
    x > 0.0 && y > 0.0 ==> log(x * y) == log(x) + log(y)
  }

  predicate BelowTangent(log: Log, x: real) {
    x > 0.0 ==> log(x) <= x - 1.0
  }

  function Sum(ps: seq<real>): real {
    if ps == [] then 0.0 else Sum(ps[..|ps| - 1]) + ps[|ps| - 1]
  }

  function Surprise(p: real, log: Log): real {
    if p > 0.0 then -(p * log(p)) else 0.0
  }

  function Entropy(ps: seq<real>, log: Log): real {
    if ps == [] then 0.0 else Entropy(ps[..|ps| - 1], log) + Surprise(ps[|ps| - 1], log)
  }

  function Clamp(x: real, top: real): real {
    if x > top then top else if x < 0.0 then 0.0 else x
  }

  /** A logarithm is not 0 at two or more (LogOfMany). */
  function Confidence(ps: seq<real>, log: Log): real {
    if |ps| <= 1 || log(|ps| as real) == 0.0 then 1.0
    else Clamp(1.0 - Entropy(ps, log) / log(|ps| as real), 1.0)
  }

  /** A distribution: nothing negative, and one in all. */
  ghost predicate Distribution(ps: seq<real>) {
    (forall i | 0 <= i < |ps| :: ps[i] >= 0.0) && Sum(ps) == 1.0
  }

  // ----- the logarithm ------------------------------------------------------

  lemma LogOfOne(log: Log)
    requires IsLog(log)
    ensures log(1.0) == 0.0
  {
    assert OfProduct(log, 1.0, 1.0);
  }

  lemma LogOfInverse(log: Log, x: real)
    requires IsLog(log) && x > 0.0
    ensures 1.0 / x > 0.0 && log(1.0 / x) == -log(x)
  {
    var y := 1.0 / x;
    Inverse(x, y);
    assert OfProduct(log, x, y);
    LogOfOne(log);
  }

  lemma Inverse(x: real, y: real)
    requires x > 0.0 && y == 1.0 / x
    ensures x * y == 1.0 && y > 0.0
  {
  }

  lemma LogOfMany(log: Log, n: nat)
    requires IsLog(log) && n >= 2
    ensures log(n as real) > 0.0
  {
    var x := n as real;
    LogOfInverse(log, x);
    BelowOne(x, 1.0 / x);
    assert BelowTangent(log, 1.0 / x);
  }

  lemma BelowOne(x: real, y: real)
    requires x >= 2.0 && y == 1.0 / x
    ensures y < 1.0
  {
    Inverse(x, y);
  }

  // ----- the entropy --------------------------------------------------------

  lemma SurpriseBounds(log: Log, p: real, n: real)
    requires IsLog(log) && 0.0 <= p <= 1.0 && n >= 1.0
    ensures 0.0 <= Surprise(p, log) <= p * log(n) + 1.0 / n - p
  {
    if p > 0.0 {
      var x := p * n;
      Positive(p, n);
      assert BelowTangent(log, p);
      Shrinks(p, log(p));
      LogOfInverse(log, x);
      assert BelowTangent(log, 1.0 / x);
      assert OfProduct(log, p, n);
      Spread(p, n, log(p), log(n));
    } else {
      Inverse(n, 1.0 / n);
    }
  }

  lemma Positive(p: real, n: real)
    requires p > 0.0 && n > 0.0
    ensures p * n > 0.0
  {
  }

  lemma Shrinks(p: real, l: real)
    requires p > 0.0 && l <= 0.0
    ensures -(p * l) >= 0.0
  {
  }

  /** `-(l + m) <= 1/(p n) - 1`, times `p`. */
  lemma Spread(p: real, n: real, l: real, m: real)
    requires p > 0.0 && n > 0.0 && p * n > 0.0 && -(l + m) <= 1.0 / (p * n) - 1.0
    ensures -(p * l) <= p * m + 1.0 / n - p
  {
    var y := 1.0 / (p * n);
    Inverse(p * n, y);
    Inverse(n, 1.0 / n);
    assert p * y == 1.0 / n by {
      assert n * (p * y) == 1.0 && n * (1.0 / n) == 1.0;
      Cancel(n, p * y, 1.0 / n);
    }
    Scale(p, -(l + m), y - 1.0);
    assert p * -(l + m) == -(p * l) - p * m;
    assert p * (y - 1.0) == p * y - p;
  }

  lemma Cancel(n: real, a: real, b: real)
    requires n > 0.0 && n * a == n * b
    ensures a == b
  {
    assert n * (a - b) == 0.0;
  }

  lemma Scale(p: real, a: real, b: real)
    requires p > 0.0 && a <= b
    ensures p * a <= p * b
  {
  }

  lemma {:induction false} SumNotNegative(ps: seq<real>)
    requires forall j | 0 <= j < |ps| :: ps[j] >= 0.0
    ensures Sum(ps) >= 0.0
  {
    if ps != [] {
      SumNotNegative(ps[..|ps| - 1]);
    }
  }

  lemma {:induction false} AtMostSum(ps: seq<real>, i: nat)
    requires i < |ps| && forall j | 0 <= j < |ps| :: ps[j] >= 0.0
    ensures 0.0 <= ps[i] <= Sum(ps)
    decreases |ps|
  {
    SumNotNegative(ps[..|ps| - 1]);
    if i < |ps| - 1 {
      AtMostSum(ps[..|ps| - 1], i);
    }
  }

  /** Gibbs' inequality, with `n` for the number of options. */
  lemma {:induction false} EntropyBounds(ps: seq<real>, log: Log, n: real)
    requires IsLog(log) && n >= 1.0 && forall i | 0 <= i < |ps| :: 0.0 <= ps[i] <= 1.0
    ensures 0.0 <= Entropy(ps, log) && EntropyAtMost(Entropy(ps, log), Sum(ps), |ps| as real, log(n), 1.0 / n)
  {
    if ps == [] {
      assert Sum(ps) == 0.0;
    } else {
      var front, p := ps[..|ps| - 1], ps[|ps| - 1];
      EntropyBounds(front, log, n);
      SurpriseBounds(log, p, n);
      OneMoreOption(Entropy(front, log), Sum(front), |front| as real, log(n), 1.0 / n, Surprise(p, log), p);
    }
  }

  predicate EntropyAtMost(entropy: real, sum: real, count: real, top: real, part: real) {
    entropy <= sum * top + count * part - sum
  }

  lemma OneMoreOption(entropy: real, sum: real, count: real, top: real, part: real, surprise: real, p: real)
    requires EntropyAtMost(entropy, sum, count, top, part) && surprise <= p * top + part - p
    ensures EntropyAtMost(entropy + surprise, sum + p, count + 1.0, top, part)
  {
    Distribute(sum, p, top);
    Distribute(count, 1.0, part);
  }

  lemma Distribute(a: real, b: real, c: real)
    ensures (a + b) * c == a * c + b * c
  {
  }

  /** The entropy of a distribution over `n` options lies between 0 and `log n`. */
  lemma EntropyInRange(ps: seq<real>, log: Log)
    requires IsLog(log) && Distribution(ps) && ps != []
    ensures 0.0 <= Entropy(ps, log) <= log(|ps| as real)
  {
    forall i | 0 <= i < |ps|
      ensures 0.0 <= ps[i] <= 1.0
    {
      AtMostSum(ps, i);
    }
    EntropyBounds(ps, log, |ps| as real);
    Inverse(|ps| as real, 1.0 / |ps| as real);
  }

  /** The confidence lies between 0 and 1 without its clamp. */
  lemma ConfidenceInRange(ps: seq<real>, log: Log)
    requires IsLog(log) && Distribution(ps) && |ps| >= 2
    ensures log(|ps| as real) > 0.0 && 0.0 <= Confidence(ps, log) <= 1.0
    ensures Confidence(ps, log) == 1.0 - Entropy(ps, log) / log(|ps| as real)
  {
    var top := log(|ps| as real);
    LogOfMany(log, |ps|);
    EntropyInRange(ps, log);
    Quotient(Entropy(ps, log), top, Entropy(ps, log) / top);
  }

  lemma Quotient(a: real, b: real, q: real)
    requires 0.0 <= a <= b && b > 0.0 && q == a / b
    ensures 0.0 <= q <= 1.0
  {
    assert q * b == a;
  }

  // ----- its two ends -------------------------------------------------------

  lemma {:induction false} EntropyOfEqual(ps: seq<real>, log: Log, p: real)
    requires forall i | 0 <= i < |ps| :: ps[i] == p
    ensures Entropy(ps, log) == |ps| as real * Surprise(p, log) && Sum(ps) == |ps| as real * p
  {
    if ps != [] {
      EntropyOfEqual(ps[..|ps| - 1], log, p);
      Distribute((|ps| - 1) as real, 1.0, Surprise(p, log));
      Distribute((|ps| - 1) as real, 1.0, p);
    }
  }

  /** Nothing is less sure than options that are all alike. */
  lemma UniformIsUnsure(ps: seq<real>, log: Log, p: real)
    requires IsLog(log) && Distribution(ps) && |ps| >= 2 && forall i | 0 <= i < |ps| :: ps[i] == p
    ensures Confidence(ps, log) == 0.0
  {
    var n := |ps| as real;
    EntropyOfEqual(ps, log, p);
    ConfidenceInRange(ps, log);
    LogOfInverse(log, n);
    EqualParts(n, p);
    Regroup(n, p, log(p));
    Whole(log(n));
  }

  lemma EqualParts(n: real, p: real)
    requires n >= 2.0 && n * p == 1.0
    ensures p == 1.0 / n && p > 0.0
  {
    Inverse(n, 1.0 / n);
    Cancel(n, p, 1.0 / n);
  }

  lemma Whole(x: real)
    requires x > 0.0
    ensures x / x == 1.0
  {
  }

  lemma Regroup(n: real, p: real, l: real)
    requires n * p == 1.0
    ensures n * -(p * l) == -l
  {
    assert n * (p * l) == (n * p) * l;
  }

  lemma {:induction false} EntropyOfCertain(ps: seq<real>, log: Log)
    requires IsLog(log) && forall i | 0 <= i < |ps| :: ps[i] == 0.0 || ps[i] == 1.0
    ensures Entropy(ps, log) == 0.0
  {
    if ps != [] {
      EntropyOfCertain(ps[..|ps| - 1], log);
      LogOfOne(log);
    }
  }

  /** ... and nothing is surer than one option that is certain. */
  lemma CertainIsSure(ps: seq<real>, log: Log)
    requires IsLog(log) && Distribution(ps) && forall i | 0 <= i < |ps| :: ps[i] == 0.0 || ps[i] == 1.0
    ensures Confidence(ps, log) == 1.0
  {
    if |ps| >= 2 {
      EntropyOfCertain(ps, log);
      ConfidenceInRange(ps, log);
    }
  }
}
