// The single-pass scans of an equity curve (src/backtest/performance.cpp) and what they measure.
module Performance {
  import opened Reals
  import opened Words

  // The highest value up to and including index `j`.
  function Peak(e: seq<real>, j: nat): (p: real)
    requires j < |e|
    ensures forall i :: 0 <= i <= j ==> e[i] <= p
    ensures exists i :: 0 <= i <= j && e[i] == p
  {
    if j == 0 then e[0]
    else
      var before := Peak(e, j - 1);
      if e[j] > before then e[j] else before
  }

  // The fall from the peak so far, as a fraction of it.
  function DrawdownAt(e: seq<real>, j: nat): (d: real)
    requires j < |e|
    ensures d >= 0.0
  {
    var p := Peak(e, j);
    if p > 0.0 then FractionNonNegative(p - e[j], p); (p - e[j]) / p else 0.0
  }

  lemma FractionNonNegative(a: real, b: real)
    requires a >= 0.0 && b > 0.0
    ensures a / b >= 0.0
  {
  }

  // `d` is the deepest fall from a running peak, and zero for an empty curve.
  ghost predicate IsMaxDrawdown(e: seq<real>, d: real) {
    && (forall j :: 0 <= j < |e| ==> DrawdownAt(e, j) <= d)
    && (if e == [] then d == 0.0 else exists j :: 0 <= j < |e| && DrawdownAt(e, j) == d)
  }

  method MaxDrawdown(equity: seq<real>) returns (deepest: real)
    ensures IsMaxDrawdown(equity, deepest)
  {
    if equity == [] {
      return 0.0;
    }
    var peak := equity[0];
    deepest := 0.0;
    var n := 0;
    while n < |equity|
      invariant 0 <= n <= |equity|
      invariant peak == if n == 0 then equity[0] else Peak(equity, n - 1)
      invariant forall j :: 0 <= j < n ==> DrawdownAt(equity, j) <= deepest
      invariant if n == 0 then deepest == 0.0 else exists j :: 0 <= j < n && DrawdownAt(equity, j) == deepest
    {
      var value := equity[n];
      if value > peak {
        peak := value;
      }
      assert peak == Peak(equity, n);
      var drawdown := if peak > 0.0 then (peak - value) / peak else 0.0;
      assert drawdown == DrawdownAt(equity, n);
      if drawdown > deepest {
        deepest := drawdown;
      }
      n := n + 1;
    }
  }

  function Fall(e: seq<real>, i: nat, j: nat): real
    requires i < |e| && j < |e| && e[i] > 0.0
  {
    (e[i] - e[j]) / e[i]
  }

  // A higher starting value makes the fall to a non-negative value at least as deep.
  lemma FallGrows(a: real, p: real, v: real)
    requires 0.0 < a <= p && v >= 0.0
    ensures (a - v) / a <= (p - v) / p
  {
    var q1, q2 := v / a, v / p;
    assert q1 * a == v && q2 * p == v;
    SignOfFactor(q2, p);
    assert q2 * p == q2 * a + q2 * (p - a);
    assert q2 * (p - a) >= 0.0;
    assert (q1 - q2) * a == q1 * a - q2 * a;
    SignOfFactor(q1 - q2, a);
    OneLess(a, v);
    OneLess(p, v);
  }

  lemma OneLess(a: real, v: real)
    requires a > 0.0
    ensures (a - v) / a == 1.0 - v / a
  {
    var q := v / a;
    assert q * a == v;
    QuotientIs(a - v, a, 1.0 - q);
  }

  // Every fall between two points, from a positive start, is within `d`.
  ghost predicate BoundsPairs(e: seq<real>, d: real) {
    forall i, j :: 0 <= i <= j < |e| && e[i] > 0.0 ==> Fall(e, i, j) <= d
  }

  // Some fall is `d`.
  ghost predicate AttainedByPair(e: seq<real>, d: real) {
    exists i, j :: 0 <= i <= j < |e| && e[i] > 0.0 && Fall(e, i, j) == d
  }

  // A negative value stands at least as far below its own peak, in proportion, as `v` below `a`.
  ghost predicate Deeper(e: seq<real>, k: nat, a: real, v: real)
    requires k < |e| && a > 0.0
  {
    e[k] < 0.0 < Peak(e, k) && e[k] / Peak(e, k) <= v / a
  }

  ghost predicate SomeDeeper(e: seq<real>, a: real, v: real)
    requires a > 0.0
  {
    exists k :: 0 <= k < |e| && Deeper(e, k, a, v)
  }

  // What a curve that goes below zero must meet: no fall to a negative value is, in proportion, deeper than
  // all those from the running peaks. A smaller peak makes a fall below zero look deeper, so it can be missed.
  ghost predicate PeaksSuffice(e: seq<real>) {
    forall i, j :: 0 <= i <= j < |e| && e[i] > 0.0 > e[j] ==> SomeDeeper(e, e[i], e[j])
  }

  // A fall past zero found deep enough from its own peak.
  lemma DeepEnough(a: real, v: real, p: real, w: real)
    requires a > 0.0 && v < 0.0 && p > 0.0
    ensures (a - v) / a <= (p - w) / p ==> w < 0.0 && w / p <= v / a
    ensures w / p <= v / a ==> (a - v) / a <= (p - w) / p
  {
    OneLess(a, v);
    OneLess(p, w);
    var q, u := w / p, v / a;
    assert q * p == w && u * a == v;
    if q <= u {
      NegativeQuotient(u, a);
      NegativeProduct(q, p);
    }
  }

  lemma NegativeQuotient(u: real, a: real)
    requires a > 0.0 && u * a < 0.0
    ensures u < 0.0
  {
  }

  lemma NegativeProduct(q: real, p: real)
    requires q < 0.0 && p > 0.0
    ensures q * p < 0.0
  {
  }

  lemma PeakBelow(e: seq<real>, i: nat, j: nat, d: real)
    requires i <= j < |e| && e[i] > 0.0 && IsMaxDrawdown(e, d)
    ensures e[j] >= 0.0 ==> Fall(e, i, j) <= d
    ensures e[j] < 0.0 ==> (Fall(e, i, j) <= d <==> SomeDeeper(e, e[i], e[j]))
  {
    if e[j] >= 0.0 {
      FallGrows(e[i], Peak(e, j), e[j]);
      assert Fall(e, i, j) <= DrawdownAt(e, j);
    } else {
      if Fall(e, i, j) <= d {
        DeepestIsDeeper(e, d, e[i], e[j]);
      }
      if SomeDeeper(e, e[i], e[j]) {
        var k :| 0 <= k < |e| && Deeper(e, k, e[i], e[j]);
        DeepEnough(e[i], e[j], Peak(e, k), e[k]);
        assert DrawdownAt(e, k) <= d;
      }
    }
  }

  lemma DeepestIsDeeper(e: seq<real>, d: real, a: real, v: real)
    requires e != [] && IsMaxDrawdown(e, d) && a > 0.0 > v && (a - v) / a <= d
    ensures SomeDeeper(e, a, v)
  {
    var k :| 0 <= k < |e| && DrawdownAt(e, k) == d;
    PositiveFall(a, v);
    DeepEnough(a, v, Peak(e, k), e[k]);
    assert Deeper(e, k, a, v);
  }

  lemma PositiveFall(a: real, v: real)
    requires a > 0.0 > v
    ensures (a - v) / a > 0.0
  {
  }

  // On any curve, the single pass finds the maximum of (E_i - E_j) / E_i over all pairs i <= j with a
  // positive start if and only if no fall below zero is missed by the running peaks; and what it finds is
  // always some pair's fall, when any value is positive.
  lemma ScanIsPairMaximum(e: seq<real>, d: real)
    requires IsMaxDrawdown(e, d)
    ensures BoundsPairs(e, d) <==> PeaksSuffice(e)
    ensures (exists i :: 0 <= i < |e| && e[i] > 0.0) ==> AttainedByPair(e, d)
  {
    forall i, j | 0 <= i <= j < |e| && e[i] > 0.0
      ensures Fall(e, i, j) <= d <==> (e[j] < 0.0 ==> SomeDeeper(e, e[i], e[j]))
    {
      PeakBelow(e, i, j, d);
    }
    if exists i :: 0 <= i < |e| && e[i] > 0.0 {
      var i :| 0 <= i < |e| && e[i] > 0.0;
      PairAttains(e, d, i);
    }
  }

  lemma PairAttains(e: seq<real>, d: real, i: nat)
    requires IsMaxDrawdown(e, d) && i < |e| && e[i] > 0.0
    ensures AttainedByPair(e, d)
  {
    var k :| 0 <= k < |e| && DrawdownAt(e, k) == d;
    if Peak(e, k) > 0.0 {
      var p :| 0 <= p <= k && e[p] == Peak(e, k);
      assert Fall(e, p, k) == d;
    } else {
      assert Fall(e, i, i) == 0.0 == d;
    }
  }

  // A curve that never goes below zero meets the condition.
  lemma DrawdownIsPairMaximum(e: seq<real>, d: real)
    requires IsMaxDrawdown(e, d)
    requires forall k :: 0 <= k < |e| ==> e[k] >= 0.0
    ensures BoundsPairs(e, d)
    ensures e != [] && e[0] > 0.0 ==> AttainedByPair(e, d)
  {
    ScanIsPairMaximum(e, d);
  }

  // The same negative value is, in proportion, less far below a higher peak.
  lemma HigherPeakIsShallower(a: real, p: real, v: real)
    requires 0.0 < a < p && v < 0.0
    ensures v / p > v / a
  {
    var q, u := v / p, v / a;
    assert q * p == v && u * a == v;
    NegativeQuotient(q, p);
    PositiveProduct(-q, p - a);
    LargerFactor(q, u, a, v, p);
  }

  lemma LargerFactor(q: real, u: real, a: real, v: real, p: real)
    requires a > 0.0 && q * p == v && u * a == v && -q * (p - a) > 0.0
    ensures q > u
  {
    assert (q - u) * a == -q * (p - a);
  }

  // A curve that does not: the later, higher peak hides the deeper fall from the first point.
  lemma HigherPeakHides(a: real, p: real, v: real, d: real)
    requires 0.0 < a < p && v < 0.0 && IsMaxDrawdown([a, p, v], d)
    ensures !PeaksSuffice([a, p, v]) && !BoundsPairs([a, p, v], d)
  {
    var e := [a, p, v];
    HigherPeakIsShallower(a, p, v);
    PeaksOfThree(a, p, v);
    forall k | 0 <= k < |e| ensures !Deeper(e, k, a, v) {
    }
    assert e[0] > 0.0 > e[2] && !SomeDeeper(e, e[0], e[2]);
    ScanIsPairMaximum(e, d);
  }

  lemma PeaksOfThree(a: real, p: real, v: real)
    requires v < a < p
    ensures Peak([a, p, v], 0) == a && Peak([a, p, v], 1) == p && Peak([a, p, v], 2) == p
  {
    assert Peak([a, p, v], 0) == a;
    assert Peak([a, p, v], 1) == p;
  }

  // -------------------------------------------------------------------------------------- duration

  ghost predicate NonDecreasing(ts: seq<nat>) {
    forall i, j :: 0 <= i <= j < |ts| ==> ts[i] <= ts[j]
  }

  ghost predicate RunningMaximum(e: seq<real>, i: nat)
    requires i < |e|
  {
    forall k :: 0 <= k <= i ==> e[k] <= e[i]
  }

  // A drawdown that opens at `i` and is still open at, or is closed by, `j`.
  ghost predicate Spell(e: seq<real>, i: nat, j: nat) {
    && i < j < |e|
    && RunningMaximum(e, i)
    && (forall k :: i < k < j ==> e[k] < e[i])
    && (j > i + 1 || e[j] < e[i])
  }

  // The longest spell that ends before `n`; zero when there is none.
  ghost predicate IsLongest(e: seq<real>, ts: seq<nat>, n: nat, longest: nat)
    requires |e| == |ts| && n <= |e|
  {
    && (forall i: nat, j: nat :: j < n && Spell(e, i, j) ==> ts[j] <= ts[i] + longest)
    && (longest == 0 || exists i: nat, j: nat :: j < n && Spell(e, i, j) && ts[j] == ts[i] + longest)
  }

  // Everything after the last running maximum `p` is strictly below it.
  ghost predicate LastMaximum(e: seq<real>, p: nat, n: nat) {
    && p < n <= |e| && RunningMaximum(e, p)
    && (forall k :: p < k < n ==> e[k] < e[p])
  }

  // A spell ending at `n` can only open at the last running maximum.
  lemma SpellOpensAtLast(e: seq<real>, p: nat, n: nat, i: nat)
    requires LastMaximum(e, p, n) && n < |e| && Spell(e, i, n)
    ensures i == p
  {
    assert i <= p ==> e[i] <= e[p];
    assert p < n && i < n && (p <= i ==> e[p] <= e[i]);
  }

  // Timestamps are 64-bit words: the closing branch subtracts without looking at the order, which is
  // why the curve's own order is an assumption of what is measured and not of the call.
  method MaxDrawdownDuration(equity: seq<real>, timestamps: seq<Uint64>) returns (longest: Uint64)
    ensures equity == [] || |equity| != |timestamps| ==> longest == 0
    ensures |equity| == |timestamps| && NonDecreasing(timestamps) ==>
              IsLongest(equity, timestamps, |equity|, longest)
  {
    longest := 0;
    if equity == [] || |equity| != |timestamps| {
      return;
    }
    var peak := equity[0];
    var peakTs := timestamps[0];
    var inDrawdown := false;
    ghost var p := 0;
    var n := 1;
    while n < |equity|
      invariant 1 <= n <= |equity|
      invariant LastMaximum(equity, p, n)
      invariant peak == equity[p] && peakTs == timestamps[p]
      invariant inDrawdown <==> p + 1 < n
      invariant NonDecreasing(timestamps) ==> IsLongest(equity, timestamps, n, longest)
    {
      ghost var before := longest;
      if equity[n] >= peak {
        if inDrawdown {
          var closed := WordDifference(timestamps[n], peakTs);
          DifferenceInOrder(timestamps[n], peakTs);
          longest := if longest < closed then closed else longest;
        }
        ExtendLongest(equity, timestamps, p, n, before, longest);
        NewMaximum(equity, p, n);
        peak := equity[n];
        peakTs := timestamps[n];
        inDrawdown := false;
        p := n;
      } else {
        inDrawdown := true;
        var elapsed := if timestamps[n] > peakTs then timestamps[n] - peakTs else 0;
        if elapsed > longest {
          longest := elapsed;
        }
        ExtendLongest(equity, timestamps, p, n, before, longest);
      }
      n := n + 1;
    }
  }

  lemma NewMaximum(e: seq<real>, p: nat, n: nat)
    requires LastMaximum(e, p, n) && n < |e| && e[n] >= e[p]
    ensures LastMaximum(e, n, n + 1)
  {
    forall k | 0 <= k <= n ensures e[k] <= e[n] {
      assert k <= p || p < k < n || k == n;
    }
  }

  lemma ExtendLongest(e: seq<real>, ts: seq<Uint64>, p: nat, n: nat, before: nat, after: nat)
    requires |e| == |ts| && n < |e| && LastMaximum(e, p, n)
    requires NonDecreasing(ts) ==> IsLongest(e, ts, n, before)
    requires NonDecreasing(ts) ==>
               after == if Spell(e, p, n) && ts[n] - ts[p] > before then ts[n] - ts[p] else before
    ensures NonDecreasing(ts) ==> IsLongest(e, ts, n + 1, after)
  {
    if NonDecreasing(ts) {
      forall i: nat, j: nat | j < n + 1 && Spell(e, i, j) ensures ts[j] <= ts[i] + after {
        if j == n {
          SpellOpensAtLast(e, p, n, i);
        }
      }
    }
  }
}
