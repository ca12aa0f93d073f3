/** The workspace grouping of scripts/ci/selection.ts: longest processing time
    first onto the least loaded of `m` bins, and the guarantees that follow. */
module BinScheduler {

  // ----- sums over jobs and over bins ---------------------------------------

  function Sum(p: seq<nat>): nat {
    if p == [] then 0 else Sum(p[..|p| - 1]) + p[|p| - 1]
  }

  /** The weight that assignment `a` (job to bin) gives bin `b`. */
  function Load(p: seq<nat>, a: seq<nat>, b: nat): nat
    requires |a| == |p|
  {
    if p == [] then 0
    else
      var k := |p| - 1;
      Load(p[..k], a[..k], b) + if a[k] == b then p[k] else 0
  }

  /** The loads of bins `0..m` added up. */
  function SumLoads(p: seq<nat>, a: seq<nat>, m: nat): nat
    requires |a| == |p|
  {
    if m == 0 then 0 else SumLoads(p, a, m - 1) + Load(p, a, m - 1)
  }

  /** `a` sends each of `n` jobs to one of `m` bins. */
  predicate Assigns(a: seq<nat>, n: nat, m: nat) {
    |a| == n && forall i | 0 <= i < n :: a[i] < m
  }

  /** Every bin of `a` stays within `cap`. */
  ghost predicate Fits(p: seq<nat>, a: seq<nat>, m: nat, cap: nat)
    requires |a| == |p|
  {
    forall b: nat | b < m :: Load(p, a, b) <= cap
  }

  predicate Descending(p: seq<nat>) {
    forall i, j | 0 <= i < j < |p| :: p[i] >= p[j]
  }

  lemma {:induction false} SumLoadsStep(p: seq<nat>, a: seq<nat>, m: nat)
    requires |a| == |p| > 0
    ensures SumLoads(p, a, m) ==
            SumLoads(p[..|p| - 1], a[..|p| - 1], m) + if a[|p| - 1] < m then p[|p| - 1] else 0
  {
    if m > 0 {
      SumLoadsStep(p, a, m - 1);
    }
  }

  /** Counting a weight job by job or bin by bin gives the same total. */
  lemma {:induction false} DoubleCount(p: seq<nat>, a: seq<nat>, m: nat)
    requires Assigns(a, |p|, m)
    ensures SumLoads(p, a, m) == Sum(p)
  {
    if p == [] {
      EmptyLoads(a, m);
    } else {
      SumLoadsStep(p, a, m);
      DoubleCount(p[..|p| - 1], a[..|p| - 1], m);
    }
  }

  lemma {:induction false} EmptyLoads(a: seq<nat>, m: nat)
    requires a == []
    ensures SumLoads([], a, m) == 0
  {
    if m > 0 {
      EmptyLoads(a, m - 1);
    }
  }

  lemma {:induction false} SumLoadsAtLeast(p: seq<nat>, a: seq<nat>, m: nat, low: nat)
    requires |a| == |p|
    requires forall b: nat | b < m :: low <= Load(p, a, b)
    ensures m * low <= SumLoads(p, a, m)
  {
    if m > 0 {
      SumLoadsAtLeast(p, a, m - 1, low);
      assert m * low == (m - 1) * low + low;
    }
  }

  lemma {:induction false} SumLoadsAtMost(p: seq<nat>, a: seq<nat>, m: nat, high: nat)
    requires |a| == |p|
    requires forall b: nat | b < m :: Load(p, a, b) <= high
    ensures SumLoads(p, a, m) <= m * high
  {
    if m > 0 {
      SumLoadsAtMost(p, a, m - 1, high);
      assert m * high == (m - 1) * high + high;
    }
  }

  /** A bin only gets heavier as more jobs are placed, and so does the total. */
  lemma {:induction false} PrefixIsLighter(p: seq<nat>, a: seq<nat>, n: nat, b: nat)
    requires |a| == |p| && n <= |p|
    ensures Load(p[..n], a[..n], b) <= Load(p, a, b)
    ensures Sum(p[..n]) <= Sum(p)
    decreases |p|
  {
    if n < |p| {
      var k := |p| - 1;
      assert p[..k][..n] == p[..n] && a[..k][..n] == a[..n];
      PrefixIsLighter(p[..k], a[..k], n, b);
    } else {
      assert p[..n] == p && a[..n] == a;
    }
  }

  /** One job in a bin is part of its load; so are two, and so are three. */
  lemma {:induction false} LoadHolds(p: seq<nat>, a: seq<nat>, b: nat, i: nat)
    requires |a| == |p| && i < |p| && a[i] == b
    ensures p[i] <= Load(p, a, b)
  {
    PrefixIsLighter(p, a, i + 1, b);
    assert p[..i + 1][..i] == p[..i] && a[..i + 1][..i] == a[..i];
  }

  lemma {:induction false} LoadHoldsTwo(p: seq<nat>, a: seq<nat>, b: nat, i: nat, j: nat)
    requires |a| == |p| && i < j < |p| && a[i] == a[j] == b
    ensures p[i] + p[j] <= Load(p, a, b)
  {
    LoadHolds(p[..j], a[..j], b, i);
    PrefixIsLighter(p, a, j + 1, b);
    assert p[..j + 1][..j] == p[..j] && a[..j + 1][..j] == a[..j];
  }

  lemma {:induction false} LoadHoldsThree(p: seq<nat>, a: seq<nat>, b: nat, i: nat, j: nat, k: nat)
    requires |a| == |p| && i < j < k < |p| && a[i] == a[j] == a[k] == b
    ensures p[i] + p[j] + p[k] <= Load(p, a, b)
  {
    LoadHoldsTwo(p[..k], a[..k], b, i, j);
    PrefixIsLighter(p, a, k + 1, b);
    assert p[..k + 1][..k] == p[..k] && a[..k + 1][..k] == a[..k];
  }

  lemma {:induction false} NoJobNoLoad(p: seq<nat>, a: seq<nat>, b: nat)
    requires |a| == |p| && forall i | 0 <= i < |a| :: a[i] != b
    ensures Load(p, a, b) == 0
  {
    if p != [] {
      NoJobNoLoad(p[..|p| - 1], a[..|p| - 1], b);
    }
  }

  /** A bin holding one job only weighs what that job weighs. */
  lemma {:induction false} LoneJobLoad(p: seq<nat>, a: seq<nat>, b: nat, i: nat)
    requires |a| == |p| && i < |p| && a[i] == b
    requires forall j | 0 <= j < |a| && j != i :: a[j] != b
    ensures Load(p, a, b) == p[i]
  {
    var k := |p| - 1;
    if i == k {
      NoJobNoLoad(p[..k], a[..k], b);
    } else {
      LoneJobLoad(p[..k], a[..k], b, i);
    }
  }

  // ----- the greedy rule ----------------------------------------------------

  /** The least loaded bin; the lowest number wins a tie. */
  function LeastLoaded(p: seq<nat>, a: seq<nat>, m: nat): (b: nat)
    requires |a| == |p| && m > 0
    ensures b < m
    ensures forall c: nat | c < m :: Load(p, a, b) <= Load(p, a, c)
    ensures forall c: nat | c < b :: Load(p, a, b) < Load(p, a, c)
  {
    if m == 1 then 0
    else
      var b := LeastLoaded(p, a, m - 1);
      if Load(p, a, m - 1) < Load(p, a, b) then m - 1 else b
  }

  /** Jobs taken in order, each to the bin that is least loaded when it comes. */
  function Greedy(p: seq<nat>, m: nat): (a: seq<nat>)
    requires m > 0
    ensures Assigns(a, |p|, m)
  {
    if p == [] then []
    else
      var a := Greedy(p[..|p| - 1], m);
      a + [LeastLoaded(p[..|p| - 1], a, m)]
  }

  lemma {:induction false} GreedyPrefix(p: seq<nat>, m: nat, n: nat)
    requires m > 0 && n <= |p|
    ensures Greedy(p, m)[..n] == Greedy(p[..n], m)
    decreases |p|
  {
    if n < |p| {
      var k := |p| - 1;
      GreedyPrefix(p[..k], m, n);
      assert p[..k][..n] == p[..n];
      assert Greedy(p, m)[..n] == Greedy(p[..k], m)[..n];
    } else {
      assert p[..n] == p;
    }
  }

  predicate Used(a: seq<nat>, b: nat) {
    exists i | 0 <= i < |a| :: a[i] == b
  }

  /** The last job placed in a bin. */
  lemma {:induction false} LastJob(p: seq<nat>, a: seq<nat>, b: nat) returns (j: nat)
    requires |a| == |p| && Used(a, b)
    ensures j < |p| && a[j] == b
    ensures Load(p, a, b) == Load(p[..j], a[..j], b) + p[j]
  {
    j := |p| - 1;
    if a[j] != b {
      j := LastJob(p[..j], a[..j], b);
      assert p[..|p| - 1][..j] == p[..j] && a[..|p| - 1][..j] == a[..j];
    }
  }

  /** What the greedy rule knew when it placed job `j`. */
  lemma {:induction false} PlacedOnLeast(p: seq<nat>, m: nat, j: nat)
    requires m > 0 && j < |p|
    ensures var a := Greedy(p, m);
            a[j] < m && forall c: nat | c < m :: Load(p[..j], a[..j], a[j]) <= Load(p[..j], a[..j], c)
    ensures var a := Greedy(p, m);
            forall c: nat | c < a[j] :: Load(p[..j], a[..j], a[j]) < Load(p[..j], a[..j], c)
  {
    GreedyPrefix(p, m, j + 1);
    GreedyPrefix(p, m, j);
    var q := p[..j + 1];
    assert q[..j] == p[..j];
    assert Greedy(p, m)[j] == Greedy(p, m)[..j + 1][j];
    assert Greedy(p, m)[..j] == Greedy(p[..j], m);
  }

  /** At most the average load and (m - 1) / m of an item: m times the load is at most
      the total and m - 1 items. */
  predicate WithinAverage(load: nat, m: nat, total: nat, item: nat)
    requires m > 0
  {
    m * load <= total + (m - 1) * item
  }

  lemma Scale(k: nat, x: nat, y: nat)
    requires x <= y
    ensures k * x <= k * y
  {
    assert k * y - k * x == k * (y - x);
  }

  lemma AverageArithmetic(m: nat, before: nat, total: nat, last: nat)
    requires m > 0 && m * before <= total
    ensures WithinAverage(before + last, m, total + last, last)
  {
    assert m * (before + last) == m * before + m * last;
    assert m * last == last + (m - 1) * last;
  }

  lemma NoLoadWithinAverage(m: nat, total: nat, item: nat)
    requires m > 0
    ensures WithinAverage(0, m, total, item)
  {
    Scale(m - 1, 0, item);
  }

  lemma AverageGrows(m: nat, load: nat, total: nat, more: nat, item: nat, larger: nat)
    requires m > 0 && WithinAverage(load, m, total, item) && total <= more && item <= larger
    ensures WithinAverage(load, m, more, larger)
  {
    Scale(m - 1, item, larger);
  }

  lemma {:induction false} AverageBound(p: seq<nat>, m: nat, b: nat, j: nat)
    requires m > 0 && j < |p| && b == Greedy(p, m)[j]
    requires Load(p, Greedy(p, m), b) == Load(p[..j], Greedy(p, m)[..j], b) + p[j]
    ensures WithinAverage(Load(p, Greedy(p, m), b), m, Sum(p[..j + 1]), p[j])
  {
    var a := Greedy(p, m);
    var before := Load(p[..j], a[..j], b);
    PlacedOnLeast(p, m, j);
    SumLoadsAtLeast(p[..j], a[..j], m, before);
    DoubleCount(p[..j], a[..j], m);
    assert p[..j + 1][..j] == p[..j];
    AverageArithmetic(m, before, Sum(p[..j]), p[j]);
  }

  /** Graham's list scheduling bound, for every bin and every job order. */
  lemma {:induction false} ListSchedulingBound(p: seq<nat>, m: nat, b: nat, maxItem: nat)
    requires m > 0 && b < m
    requires forall i | 0 <= i < |p| :: p[i] <= maxItem
    ensures WithinAverage(Load(p, Greedy(p, m), b), m, Sum(p), maxItem)
  {
    var a := Greedy(p, m);
    if Used(a, b) {
      var j := LastJob(p, a, b);
      AverageBound(p, m, b, j);
      PrefixIsLighter(p, a, j + 1, b);
      AverageGrows(m, Load(p, a, b), Sum(p[..j + 1]), Sum(p), p[j], maxItem);
    } else {
      NoJobNoLoad(p, a, b);
      NoLoadWithinAverage(m, Sum(p), maxItem);
    }
  }

  /** Two bins never differ by more than one job. */
  lemma {:induction false} Balanced(p: seq<nat>, m: nat, heavy: nat, light: nat, maxItem: nat)
    requires m > 0 && heavy < m && light < m
    requires forall i | 0 <= i < |p| :: p[i] <= maxItem
    ensures Load(p, Greedy(p, m), heavy) <= Load(p, Greedy(p, m), light) + maxItem
  {
    var a := Greedy(p, m);
    if Used(a, heavy) {
      var j := LastJob(p, a, heavy);
      PlacedOnLeast(p, m, j);
      PrefixIsLighter(p, a, j, light);
    } else {
      NoJobNoLoad(p, a, heavy);
    }
  }

  /** While bins are free, the next job opens the next bin. */
  lemma {:induction false} OpensBinsInOrder(p: seq<nat>, m: nat, k: nat)
    requires m > 0 && k < |p| && k < m
    requires forall i | 0 <= i < |p| :: p[i] > 0
    ensures Greedy(p, m)[k] == k
    decreases k
  {
    var a := Greedy(p, m);
    forall c: nat | c < k
      ensures Load(p[..k], a[..k], c) > 0
    {
      OpensBinsInOrder(p, m, c);
      LoadHolds(p[..k], a[..k], c, c);
    }
    forall i: nat | i < k
      ensures a[i] == i
    {
      OpensBinsInOrder(p, m, i);
    }
    NoJobNoLoad(p[..k], a[..k], k);
    PlacedOnLeast(p, m, k);
  }

  // ----- the stretch bound --------------------------------------------------

  /** Whether job `i` shares its bin with no other job. */
  predicate Alone(a: seq<nat>, i: nat)
    requires i < |a|
  {
    forall k | 0 <= k < |a| && k != i :: a[k] != a[i]
  }

  /** Two marks for a job that is alone in its bin, one for any other. */
  function Marks(a: seq<nat>, n: nat): (v: seq<nat>)
    requires n <= |a|
    ensures |v| == n
    ensures forall i | 0 <= i < n :: v[i] == if Alone(a, i) then 2 else 1
  {
    seq(n, i requires 0 <= i < n => if Alone(a, i) then 2 else 1)
  }

  lemma {:induction false} TwoMarksInEveryBin(a: seq<nat>, b: nat)
    requires Used(a, b)
    ensures 2 <= Load(Marks(a, |a|), a, b)
  {
    var v := Marks(a, |a|);
    var i :| 0 <= i < |a| && a[i] == b;
    if Alone(a, i) {
      LoadHolds(v, a, b, i);
    } else {
      var k :| 0 <= k < |a| && k != i && a[k] == a[i];
      LoadHoldsTwo(v, a, b, if i < k then i else k, if i < k then k else i);
    }
  }

  /** No bin of any assignment holds three marks, when two jobs never fit beside
      a lone one and three jobs never fit at all. */
  lemma {:induction false} AtMostTwoMarks(o: seq<nat>, v: seq<nat>, b: nat)
    requires |o| == |v|
    requires forall i | 0 <= i < |v| :: v[i] == 1 || v[i] == 2
    requires forall i, k | 0 <= i < |o| && 0 <= k < |o| && i != k && o[i] == o[k] == b :: v[i] == 1
    requires forall i, k, l | 0 <= i < k < l < |o| :: !(o[i] == o[k] == o[l] == b)
    ensures Load(v, o, b) <= 2
  {
    if i :| 0 <= i < |o| && o[i] == b {
      if k :| 0 <= k < |o| && k != i && o[k] == b {
        var x, y := if i < k then i else k, if i < k then k else i;
        assert o[..y][x] == b;
        TwoJobLoad(v, o, b, x, y);
      } else {
        LoneJobLoad(v, o, b, i);
      }
    } else {
      NoJobNoLoad(v, o, b);
    }
  }

  lemma {:induction false} TwoJobLoad(p: seq<nat>, a: seq<nat>, b: nat, x: nat, y: nat)
    requires |a| == |p| && x < y < |p| && a[x] == a[y] == b
    requires forall j | 0 <= j < |a| && j != x && j != y :: a[j] != b
    ensures Load(p, a, b) == p[x] + p[y]
  {
    var k := |p| - 1;
    if y == k {
      LoneJobLoad(p[..k], a[..k], b, x);
    } else {
      TwoJobLoad(p[..k], a[..k], b, x, y);
    }
  }

  /** The case of a long last job: if three jobs of its length cannot share a
      bin of `cap`, the greedy rule itself stays within `cap`. Every greedy bin
      carries two marks before the job comes, so `2m + 1` marks would have to fit
      in `m` bins that hold two each. */
  lemma {:induction false} LongLastJob(p: seq<nat>, m: nat, o: seq<nat>, cap: nat)
    requires m > 0 && p != [] && Descending(p)
    requires Assigns(o, |p|, m) && Fits(p, o, m, cap)
    requires 3 * p[|p| - 1] > cap
    ensures var j := |p| - 1;
            Load(p[..j], Greedy(p, m)[..j], Greedy(p, m)[j]) + p[j] <= cap
  {
    var j := |p| - 1;
    var a := Greedy(p, m);
    var g := a[..j];
    var least := Load(p[..j], g, a[j]);
    PlacedOnLeast(p, m, j);
    LoadHolds(p, o, o[j], j);
    if least + p[j] > cap {
      forall b: nat | b < m
        ensures Used(g, b)
      {
        if !Used(g, b) {
          NoJobNoLoad(p[..j], g, b);
        }
      }
      var v := Marks(g, j);
      forall b: nat | b < m
        ensures 2 <= Load(v, g, b)
      {
        TwoMarksInEveryBin(g, b);
      }
      SumLoadsAtLeast(v, g, m, 2);
      DoubleCount(v, g, m);
      var w := v + [1];
      assert w[..j] == v;
      forall b: nat | b < m
        ensures Load(w, o, b) <= 2
      {
        LongJobsShareLittle(p, g, o, w, m, b, cap, least);
        AtMostTwoMarks(o, w, b);
      }
      SumLoadsAtMost(w, o, m, 2);
      DoubleCount(w, o, m);
      assert false;
    }
  }

  lemma {:induction false} LongJobsShareLittle(
    p: seq<nat>, g: seq<nat>, o: seq<nat>, w: seq<nat>, m: nat, b: nat, cap: nat, least: nat)
    requires p != [] && Descending(p) && |o| == |w| == |p| && |g| == |p| - 1
    requires b < m && Fits(p, o, m, cap) && Assigns(g, |g|, m)
    requires 3 * p[|p| - 1] > cap && least + p[|p| - 1] > cap
    requires forall c: nat | c < m :: least <= Load(p[..|g|], g, c)
    requires w == Marks(g, |g|) + [1]
    ensures forall i, k | 0 <= i < |o| && 0 <= k < |o| && i != k && o[i] == o[k] == b :: w[i] == 1
    ensures forall i, k, l | 0 <= i < k < l < |o| :: !(o[i] == o[k] == o[l] == b)
  {
    var j := |g|;
    forall i, k | 0 <= i < |o| && 0 <= k < |o| && i != k && o[i] == o[k] == b
      ensures w[i] == 1
    {
      if i < j && Alone(g, i) {
        LoneJobLoad(p[..j], g, g[i], i);
        LoadHoldsTwo(p, o, b, if i < k then i else k, if i < k then k else i);
      }
    }
    forall i, k, l | 0 <= i < k < l < |o|
      ensures !(o[i] == o[k] == o[l] == b)
    {
      if o[i] == o[k] == o[l] == b {
        LoadHoldsThree(p, o, b, i, k, l);
      }
    }
  }

  /** `w` is at most `4/3 - 1/(3m)` of `cap`. */
  predicate WithinStretch(w: nat, m: nat, cap: nat) {
    3 * m * w <= (4 * m - 1) * cap
  }

  /** Longest processing time first: no bin exceeds `4/3 - 1/(3m)` of the largest
      bin of any other assignment of the same jobs to the same bins. */
  lemma {:induction false} StretchBound(p: seq<nat>, m: nat, o: seq<nat>, cap: nat, b: nat)
    requires m > 0 && b < m && Descending(p)
    requires Assigns(o, |p|, m) && Fits(p, o, m, cap)
    ensures WithinStretch(Load(p, Greedy(p, m), b), m, cap)
  {
    if Used(Greedy(p, m), b) {
      var j := LastJob(p, Greedy(p, m), b);
      StretchAtLastJob(p, m, o, cap, b, j);
    } else {
      NoJobNoLoad(p, Greedy(p, m), b);
      StretchArithmetic(m, 0, cap);
    }
  }

  lemma PrefixFits(p: seq<nat>, m: nat, o: seq<nat>, cap: nat, n: nat)
    requires Assigns(o, |p|, m) && Fits(p, o, m, cap) && n <= |p|
    ensures forall c: nat | c < m :: Load(p[..n], o[..n], c) <= cap
  {
    forall c: nat | c < m
      ensures Load(p[..n], o[..n], c) <= cap
    {
      PrefixIsLighter(p, o, n, c);
    }
  }

  lemma ShortLastJob(p: seq<nat>, m: nat, o: seq<nat>, cap: nat, b: nat, j: nat)
    requires m > 0 && b < m && Assigns(o, |p|, m) && Fits(p, o, m, cap)
    requires j < |p| && b == Greedy(p, m)[j] && 3 * p[j] <= cap
    requires Load(p, Greedy(p, m), b) == Load(p[..j], Greedy(p, m)[..j], b) + p[j]
    ensures WithinStretch(Load(p, Greedy(p, m), b), m, cap)
  {
    var q, t := p[..j + 1], o[..j + 1];
    PrefixFits(p, m, o, cap, j + 1);
    AverageBound(p, m, b, j);
    DoubleCount(q, t, m);
    SumLoadsAtMost(q, t, m, cap);
    AverageGrows(m, Load(p, Greedy(p, m), b), Sum(q), m * cap, p[j], p[j]);
    ShortJobArithmetic(m, Load(p, Greedy(p, m), b), cap, p[j]);
  }

  lemma LongAtLastJob(p: seq<nat>, m: nat, o: seq<nat>, cap: nat, b: nat, j: nat)
    requires m > 0 && b < m && Descending(p) && Assigns(o, |p|, m) && Fits(p, o, m, cap)
    requires j < |p| && b == Greedy(p, m)[j] && 3 * p[j] > cap
    ensures Load(p[..j], Greedy(p, m)[..j], b) + p[j] <= cap
  {
    var q := p[..j + 1];
    PrefixFits(p, m, o, cap, j + 1);
    LongLastJob(q, m, o[..j + 1], cap);
    LastOfPrefix(p, m, j);
  }

  /** The first jobs are placed as if no others came. */
  lemma LastOfPrefix(p: seq<nat>, m: nat, j: nat)
    requires m > 0 && j < |p|
    ensures var q := p[..j + 1];
            q[..j] == p[..j] && Greedy(q, m)[..j] == Greedy(p, m)[..j] && Greedy(q, m)[j] == Greedy(p, m)[j]
  {
    GreedyPrefix(p, m, j + 1);
    assert p[..j + 1][..j] == p[..j];
    assert Greedy(p, m)[..j + 1][..j] == Greedy(p, m)[..j];
  }

  lemma {:induction false} StretchAtLastJob(p: seq<nat>, m: nat, o: seq<nat>, cap: nat, b: nat, j: nat)
    requires m > 0 && b < m && Descending(p)
    requires Assigns(o, |p|, m) && Fits(p, o, m, cap)
    requires j < |p| && b == Greedy(p, m)[j]
    requires Load(p, Greedy(p, m), b) == Load(p[..j], Greedy(p, m)[..j], b) + p[j]
    ensures WithinStretch(Load(p, Greedy(p, m), b), m, cap)
  {
    if 3 * p[j] > cap {
      LongAtLastJob(p, m, o, cap, b, j);
      StretchArithmetic(m, Load(p, Greedy(p, m), b), cap);
    } else {
      ShortLastJob(p, m, o, cap, b, j);
    }
  }

  lemma StretchArithmetic(m: nat, w: nat, cap: nat)
    requires m > 0 && w <= cap
    ensures 3 * m * w <= (4 * m - 1) * cap
  {
    Scale(3 * m, w, cap);
    Scale(m - 1, 0, cap);
    assert (4 * m - 1) * cap == 3 * m * cap + (m - 1) * cap;
  }

  lemma ShortJobArithmetic(m: nat, w: nat, cap: nat, item: nat)
    requires m > 0 && 3 * item <= cap && WithinAverage(w, m, m * cap, item)
    ensures 3 * m * w <= (4 * m - 1) * cap
  {
    Scale(m - 1, 3 * item, cap);
    assert (m - 1) * (3 * item) == 3 * ((m - 1) * item);
    assert 3 * m * w == 3 * (m * w);
    assert (4 * m - 1) * cap == 3 * (m * cap) + (m - 1) * cap;
  }

  // ----- any other grouping is an assignment --------------------------------

  function Flatten<T>(parts: seq<seq<T>>): seq<T> {
    if parts == [] then [] else Flatten(parts[..|parts| - 1]) + parts[|parts| - 1]
  }

  function Without<T>(s: seq<T>, i: nat): (r: seq<T>)
    requires i < |s|
    ensures |r| == |s| - 1
  {
    s[..i] + s[i + 1..]
  }

  lemma {:induction false} FlattenHolds<T>(parts: seq<seq<T>>, x: T) returns (b: nat, i: nat)
    requires x in multiset(Flatten(parts))
    ensures b < |parts| && i < |parts[b]| && parts[b][i] == x
  {
    var k := |parts| - 1;
    assert multiset(Flatten(parts)) == multiset(Flatten(parts[..k])) + multiset(parts[k]);
    if x in multiset(parts[k]) {
      b := k;
      i :| 0 <= i < |parts[k]| && parts[k][i] == x;
    } else {
      b, i := FlattenHolds(parts[..k], x);
    }
  }

  lemma {:induction false} WithoutOne<T>(s: seq<T>, i: nat)
    requires i < |s|
    ensures multiset(s) == multiset(Without(s, i)) + multiset{s[i]}
  {
    assert s == s[..i] + [s[i]] + s[i + 1..];
  }

  lemma {:induction false} FlattenWithout<T>(parts: seq<seq<T>>, b: nat, i: nat)
    requires b < |parts| && i < |parts[b]|
    ensures multiset(Flatten(parts)) ==
            multiset(Flatten(parts[b := Without(parts[b], i)])) + multiset{parts[b][i]}
  {
    var k := |parts| - 1;
    var less := parts[b := Without(parts[b], i)];
    if b == k {
      assert less[..k] == parts[..k];
      WithoutOne(parts[k], i);
    } else {
      assert less[..k] == parts[..k][b := Without(parts[b], i)];
      FlattenWithout(parts[..k], b, i);
    }
  }

  lemma {:induction false} SumWithout(s: seq<nat>, i: nat)
    requires i < |s|
    ensures Sum(s) == Sum(Without(s, i)) + s[i]
  {
    var k := |s| - 1;
    if i == k {
      assert Without(s, i) == s[..k];
    } else {
      assert Without(s, i)[..k - 1] == Without(s[..k], i);
      SumWithout(s[..k], i);
    }
  }

  lemma CancelOne<T>(x: multiset<T>, y: multiset<T>, e: T)
    requires x + multiset{e} == y + multiset{e}
    ensures x == y
  {
    assert x == x + multiset{e} - multiset{e};
    assert y == y + multiset{e} - multiset{e};
  }

  /** Whatever way the jobs are parted into groups, some assignment of the job
      list gives every bin that group's weight. */
  lemma {:induction false} GroupingIsAssignment(p: seq<nat>, parts: seq<seq<nat>>) returns (o: seq<nat>)
    requires multiset(Flatten(parts)) == multiset(p)
    ensures Assigns(o, |p|, |parts|)
    ensures forall b: nat | b < |parts| :: Load(p, o, b) == Sum(parts[b])
  {
    if p == [] {
      o := [];
      forall b: nat | b < |parts|
        ensures parts[b] == []
      {
        if parts[b] != [] {
          FlattenWithout(parts, b, 0);
        }
      }
    } else {
      var k := |p| - 1;
      assert p == p[..k] + [p[k]];
      assert p[k] in multiset(Flatten(parts));
      var b, i := FlattenHolds(parts, p[k]);
      FlattenWithout(parts, b, i);
      SumWithout(parts[b], i);
      CancelOne(multiset(Flatten(parts[b := Without(parts[b], i)])), multiset(p[..k]), p[k]);
      var before := GroupingIsAssignment(p[..k], parts[b := Without(parts[b], i)]);
      o := before + [b];
      assert o[..k] == before;
    }
  }
}
