/** From measured round-trip times to the latency community of a session. Averages and losses are
    reals; the natural logarithm is met through the powers of e it is compared with. */
module LatencyCommunity {
  import opened RttTracker

  // ---------------------------------------------------------------------------------------
  // Effective round-trip time.
  // ---------------------------------------------------------------------------------------

  /** The entries that are successful measurements of at least a millisecond. */
  function Positives(metric: seq<int>): (r: seq<int>)
    ensures forall i :: 0 <= i < |r| ==> r[i] > 0
  {
    if metric == [] then []
    else Positives(metric[..|metric| - 1]) + if metric[|metric| - 1] > 0 then [metric[|metric| - 1]] else []
  }

  function Total(s: seq<int>): int {
    if s == [] then 0 else Total(s[..|s| - 1]) + s[|s| - 1]
  }

  /** Conversion of a float to an integer, toward zero. */
  function Truncate(x: real): int {
    if x >= 0.0 then x.Floor else -((-x).Floor)
  }

  function Penalised(total: int, count: nat, loss: real): real
    requires count > 0
  {
    total as real / count as real * (1.0 + loss * 2.0)
  }

  function EffectiveRTT(metric: seq<int>, lastRTT: int, loss: real): int {
    var valid := Positives(metric);
    if metric == [] then lastRTT
    else if valid == [] then -1
    else Truncate(Penalised(Total(valid), |valid|, loss))
  }

  method CalculateEffectiveRTT(tracker: RTTTracker) returns (r: int)
    ensures r == EffectiveRTT(tracker.metric, tracker.lastRTT, tracker.avgLoss)
  {
    hide Positives, Total, Penalised, Truncate;
    var metric := tracker.metric;
    if |metric| == 0 {
      return tracker.lastRTT;
    }
    LoopEnds(metric);
    var validRTTs: seq<int> := [];
    for i := 0 to |metric|
      invariant validRTTs == Positives(metric[..i])
    {
      PositivesPrefix(metric, i);
      if metric[i] > 0 {
        validRTTs := validRTTs + [metric[i]];
      }
    }
    if |validRTTs| == 0 {
      return -1;
    }
    LoopEnds(validRTTs);
    var sum := 0;
    for i := 0 to |validRTTs|
      invariant sum == Total(validRTTs[..i])
    {
      TotalPrefix(validRTTs, i);
      sum := sum + validRTTs[i];
    }
    return Weighted(sum, |validRTTs|, tracker.avgLoss);
  }

  /** The average, the penalty for loss, and the conversion back to whole milliseconds. */
  function Weighted(sum: int, count: nat, lossRate: real): (r: int)
    requires count > 0
    ensures r == Truncate(Penalised(sum, count, lossRate))
  {
    var avgRTT := sum as real / count as real;
    var effectiveRTT := avgRTT * (1.0 + lossRate * 2.0);
    Truncate(effectiveRTT)
  }

  lemma LoopEnds(s: seq<int>)
    ensures s[..|s|] == s && Positives(s[..0]) == [] && Total(s[..0]) == 0
  {
  }

  lemma PositivesPrefix(metric: seq<int>, i: nat)
    requires i < |metric|
    ensures Positives(metric[..i + 1]) == Positives(metric[..i]) + if metric[i] > 0 then [metric[i]] else []
  {
    assert metric[..i + 1][..i] == metric[..i];
  }

  lemma TotalPrefix(s: seq<int>, i: nat)
    requires i < |s|
    ensures Total(s[..i + 1]) == Total(s[..i]) + s[i]
  {
    assert s[..i + 1][..i] == s[..i];
  }

  lemma {:induction false} PositivesEmpty(metric: seq<int>)
    ensures Positives(metric) == [] <==> forall i :: 0 <= i < |metric| ==> metric[i] <= 0
  {
    if metric != [] {
      var n := |metric| - 1;
      PositivesEmpty(metric[..n]);
      assert forall i :: 0 <= i < n ==> metric[..n][i] == metric[i];
    }
  }

  /** One more entry. */
  lemma {:induction false} PositivesStep(metric: seq<int>)
    requires metric != []
    ensures var n := |metric| - 1;
            var (p, q) := (Positives(metric[..n]), Positives(metric));
            if metric[n] > 0 then |q| == |p| + 1 && Total(q) == Total(p) + metric[n] else q == p
  {
    var n := |metric| - 1;
    var (p, q) := (Positives(metric[..n]), Positives(metric));
    if metric[n] > 0 {
      assert q[..|p|] == p;
    }
  }

  lemma OneMore(a: int, b: int)
    ensures a * (b + 1) == a * b + a
  {
  }

  lemma {:induction false} TotalBounds(metric: seq<int>, top: int)
    requires forall i :: 0 <= i < |metric| ==> metric[i] <= top
    ensures |Positives(metric)| <= Total(Positives(metric)) <= top * |Positives(metric)|
  {
    hide Positives, Total;
    if metric == [] {
      PositivesOfNone();
    } else {
      var n := |metric| - 1;
      TotalBounds(metric[..n], top);
      PositivesStep(metric);
      OneMore(top, |Positives(metric[..n])|);
    }
  }

  lemma {:induction false} CastProduct(a: int, b: nat)
    ensures (a * b) as real == a as real * b as real
  {
    if b > 0 {
      CastProduct(a, b - 1);
      OneMore(a, b - 1);
      Distribute(a as real, b as real);
    }
  }

  lemma Distribute(a: real, b: real)
    ensures a * b == a * (b - 1.0) + a
  {
  }

  lemma Quotient(t: real, c: real)
    requires c > 0.0
    ensures t / c * c == t
  {
  }

  lemma Between(q: real, c: real, top: real, t: real)
    requires c > 0.0 && q * c == t && c <= t <= top * c
    ensures 1.0 <= q <= top
  {
    if q < 1.0 {
      ScaleLess(q, 1.0, c);
    }
    if q > top {
      ScaleLess(top, q, c);
    }
  }

  lemma QuotientBounds(total: int, count: nat, top: int)
    requires 0 < count <= total <= top * count
    ensures 1.0 <= total as real / count as real <= top as real
  {
    CastProduct(top, count);
    Quotient(total as real, count as real);
    Between(total as real / count as real, count as real, top as real, total as real);
  }

  lemma ScaleLess(a: real, b: real, c: real)
    requires a < b && 0.0 < c
    ensures a * c < b * c
  {
  }

  lemma ScaleAtMost(a: real, b: real, c: real)
    requires a <= b && 0.0 <= c
    ensures a * c <= b * c
  {
  }

  lemma PenaltyBounds(avg: real, loss: real, top: int)
    requires 1.0 <= avg <= top as real && 0.0 <= loss <= 1.0
    ensures 1.0 <= avg * (1.0 + loss * 2.0) <= (3 * top) as real
  {
    ScaleAtMost(1.0, 1.0 + loss * 2.0, avg);
    ScaleAtMost(1.0 + loss * 2.0, 3.0, avg);
  }

  /** Over a window with measurements the result is -1 exactly when none was positive; otherwise it
      lies between 1 and three times the largest. */
  lemma EffectiveBounds(metric: seq<int>, lastRTT: int, loss: real, top: int)
    requires metric != [] && 0.0 <= loss <= 1.0
    requires forall i :: 0 <= i < |metric| ==> metric[i] <= top
    ensures var r := EffectiveRTT(metric, lastRTT, loss);
            && (r == -1 <==> forall i :: 0 <= i < |metric| ==> metric[i] <= 0)
            && (r != -1 ==> 1 <= r <= 3 * top)
  {
    PositivesEmpty(metric);
    TotalBounds(metric, top);
    var valid := Positives(metric);
    if valid != [] {
      PenalisedBounds(Total(valid), |valid|, loss, top);
    }
    hide Positives, Total, Penalised;
  }

  lemma PenalisedBounds(total: int, count: nat, loss: real, top: int)
    requires 0 < count <= total <= top * count && 0.0 <= loss <= 1.0
    ensures 1 <= Truncate(Penalised(total, count, loss)) <= 3 * top
  {
    QuotientBounds(total, count, top);
    PenaltyBounds(total as real / count as real, loss, top);
    FloorBounds(Penalised(total, count, loss), 3 * top);
  }

  lemma FloorBounds(x: real, top: int)
    requires 1.0 <= x <= top as real
    ensures 1 <= Truncate(x) <= top
  {
  }

  /** The time is the integer part of the mean times one plus twice the loss. */
  predicate PenalisedMean(r: int, total: int, count: nat, loss: real) {
    r as real * count as real <= total as real * (1.0 + 2.0 * loss) < (r + 1) as real * count as real
  }

  /** The result is the integer part of the mean of the positive entries, raised by twice the loss; with
      full loss, of three times the mean. Without measurements it is the last time. */
  lemma {:induction false} PenaltyExact(metric: seq<int>, lastRTT: int, loss: real)
    requires 0.0 <= loss <= 1.0
    ensures metric == [] ==> EffectiveRTT(metric, lastRTT, loss) == lastRTT
    ensures |Positives(metric)| == |set i | 0 <= i < |metric| && metric[i] > 0|
    ensures Positives(metric) != [] ==>
              var (r, total, count) := (EffectiveRTT(metric, lastRTT, loss), Total(Positives(metric)), |Positives(metric)|);
              PenalisedMean(r, total, count, loss) && (loss == 1.0 ==> r == 3 * total / count)
  {
    CountPositives(metric);
    if Positives(metric) != [] {
      PenaltyOf(metric, lastRTT, loss, EffectiveRTT(metric, lastRTT, loss), Total(Positives(metric)), |Positives(metric)|);
    }
    hide *;
  }

  lemma {:induction false} PenaltyOf(metric: seq<int>, lastRTT: int, loss: real, r: int, total: int, count: nat)
    requires Positives(metric) != [] && 0.0 <= loss <= 1.0
    requires r == EffectiveRTT(metric, lastRTT, loss) && total == Total(Positives(metric)) && count == |Positives(metric)|
    ensures PenalisedMean(r, total, count, loss) && (loss == 1.0 ==> r == 3 * total / count)
  {
    PositiveTotal(Positives(metric));
    PositivesOfNone();
    EffectiveIs(metric, lastRTT, loss);
    assert r == Truncate(Penalised(total, count, loss)) && count > 0;
    hide *;
    PenaltyScaled(total, count, loss, r);
    if loss == 1.0 {
      FullLoss(total, count, r);
    }
  }

  lemma PenaltyScaled(total: int, count: nat, loss: real, r: int)
    requires count > 0 && total >= 0 && 0.0 <= loss <= 1.0 && r == Truncate(Penalised(total, count, loss))
    ensures PenalisedMean(r, total, count, loss)
  {
    Quotient(total as real, count as real);
    ScaledBack(total as real / count as real, count as real, 1.0 + loss * 2.0, total as real, r);
  }

  lemma FullLoss(total: int, count: nat, r: int)
    requires count > 0 && PenalisedMean(r, total, count, 1.0)
    ensures r == 3 * total / count
  {
    WholeQuotient(3 * total, count, r);
  }

  lemma PositivesOfNone()
    ensures Positives([]) == [] && Total(Positives([])) == 0
  {
  }

  lemma {:induction false} CountPositives(metric: seq<int>)
    ensures |Positives(metric)| == |set i | 0 <= i < |metric| && metric[i] > 0|
  {
    if metric != [] {
      var n := |metric| - 1;
      CountPositives(metric[..n]);
      var (before, all) := (set i | 0 <= i < n && metric[..n][i] > 0, set i | 0 <= i < |metric| && metric[i] > 0);
      assert all == if metric[n] > 0 then before + {n} else before;
    }
  }

  lemma {:induction false} ScaledBack(q: real, c: real, f: real, t: real, r: int)
    requires c > 0.0 && q * c == t && t >= 0.0 && f >= 1.0 && r == Truncate(q * f)
    ensures r as real * c <= t * f < (r + 1) as real * c
  {
    NonNegative(q, c, f);
    Swapped(q, f, c, t);
    TruncateBounds(q * f);
    ScaledBounds(r as real, q * f, (r + 1) as real, c, t * f);
  }

  lemma NonNegative(q: real, c: real, f: real)
    requires c > 0.0 && q * c >= 0.0 && f >= 1.0
    ensures q * f >= 0.0
  {
    if q < 0.0 {
      ScaleLess(q, 0.0, c);
    }
    ScaleAtMost(0.0, q, f);
  }

  lemma Swapped(q: real, f: real, c: real, t: real)
    requires q * c == t
    ensures (q * f) * c == t * f
  {
    Rearranged(q, c, f, t);
    assert (q * f) * c == q * (c * f);
  }

  lemma TruncateBounds(p: real)
    requires p >= 0.0
    ensures Truncate(p) as real <= p < (Truncate(p) + 1) as real
  {
  }

  lemma ScaledBounds(low: real, p: real, high: real, c: real, x: real)
    requires low <= p < high && c > 0.0 && p * c == x
    ensures low * c <= x < high * c
  {
    ScaleAtMost(low, p, c);
    ScaleLess(p, high, c);
  }

  lemma {:induction false} WholeQuotient(t: int, count: nat, r: int)
    requires count > 0 && r as real * count as real <= t as real < (r + 1) as real * count as real
    ensures r == t / count
  {
    CastProduct(r, count);
    CastProduct(r + 1, count);
    QuotientIs(t, count, r);
  }

  lemma QuotientIs(t: int, count: nat, r: int)
    requires count > 0 && r * count <= t < (r + 1) * count
    ensures r == t / count
  {
    var (q, rest) := (t / count, t % count);
    assert t == q * count + rest && 0 <= rest < count;
    if r < q {
      WholeScaled(r + 1, q, count);
    } else if r > q {
      WholeScaled(q + 1, r, count);
    }
  }

  lemma WholeScaled(a: int, b: int, c: nat)
    requires a <= b
    ensures a * c <= b * c
  {
  }

  /** The same entries are successes, and each is at least as slow. */
  predicate NoFaster(a: seq<int>, b: seq<int>) {
    |a| == |b| && forall i :: 0 <= i < |a| ==> (a[i] > 0 <==> b[i] > 0) && a[i] <= b[i]
  }

  lemma {:induction false} NoFasterTotal(a: seq<int>, b: seq<int>)
    requires NoFaster(a, b)
    ensures |Positives(a)| == |Positives(b)| && Total(Positives(a)) <= Total(Positives(b))
  {
    if a != [] {
      var n := |a| - 1;
      NoFasterTotal(a[..n], b[..n]);
      PositivesStep(a);
      PositivesStep(b);
      hide Positives, Total;
    }
  }

  lemma PenaltyMonotone(a: int, b: int, count: nat, loss: real, more: real)
    requires count > 0 && 0 <= a <= b && 0.0 <= loss <= more
    ensures Penalised(a, count, loss) <= Penalised(b, count, more)
  {
    var (x, y) := (a as real / count as real, b as real / count as real);
    Quotient(a as real, count as real);
    Quotient(b as real, count as real);
    ScaledOrder(x, y, count as real);
    ScaleAtMost(1.0 + loss * 2.0, 1.0 + more * 2.0, x);
    ScaleAtMost(x, y, 1.0 + more * 2.0);
  }

  lemma ScaledOrder(x: real, y: real, c: real)
    requires c > 0.0 && 0.0 <= x * c <= y * c
    ensures 0.0 <= x <= y
  {
    if x > y {
      ScaleLess(y, x, c);
    }
    if x < 0.0 {
      ScaleLess(x, 0.0, c);
    }
  }

  /** It never falls as the loss grows or the successful measurements get slower. */
  lemma EffectiveMonotone(metric: seq<int>, slower: seq<int>, lastRTT: int, loss: real, more: real)
    requires metric != [] && NoFaster(metric, slower) && 0.0 <= loss <= more
    ensures EffectiveRTT(metric, lastRTT, loss) <= EffectiveRTT(slower, lastRTT, more)
  {
    NoFasterTotal(metric, slower);
    var (v, w) := (Positives(metric), Positives(slower));
    if v != [] {
      PositiveTotal(v);
      PenaltyMonotone(Total(v), Total(w), |v|, loss, more);
      TruncateMonotone(Penalised(Total(v), |v|, loss), Penalised(Total(w), |w|, more));
    }
    hide Positives, Total, Penalised;
  }

  lemma TruncateMonotone(a: real, b: real)
    requires a <= b
    ensures Truncate(a) <= Truncate(b)
  {
  }

  lemma {:induction false} PositiveTotal(s: seq<int>)
    requires forall i :: 0 <= i < |s| ==> s[i] > 0
    ensures Total(s) >= 0
  {
    if s != [] {
      PositiveTotal(s[..|s| - 1]);
    }
  }

  // ---------------------------------------------------------------------------------------
  // When a new success lowers the effective time.
  // ---------------------------------------------------------------------------------------

  lemma LessScaled(a: real, b: real, c: real)
    requires c > 0.0
    ensures a < b <==> a * c < b * c
  {
    if a < b {
      ScaleLess(a, b, c);
    } else {
      ScaleAtMost(b, a, c);
    }
  }

  lemma Rearranged(x: real, c: real, d: real, t: real)
    requires x * c == t
    ensures x * (c * d) == t * d
  {
    assert x * (c * d) == (x * c) * d;
  }

  /** One penalised mean is below another, for the same loss, exactly if the mean is. */
  lemma PenaltyOrder(a: int, m: nat, b: int, n: nat, loss: real)
    requires m > 0 && n > 0 && loss >= 0.0
    ensures Penalised(a, m, loss) < Penalised(b, n, loss) <==> a * n < b * m
  {
    var (x, y, c, d) := (a as real / m as real, b as real / n as real, m as real, n as real);
    Quotient(a as real, c);
    Quotient(b as real, d);
    LessScaled(x, y, 1.0 + loss * 2.0);
    ProductPositive(c, d);
    LessScaled(x, y, c * d);
    Rearranged(x, c, d, a as real);
    Rearranged(y, d, c, b as real);
    Commuted(c, d);
    CastProduct(a, n);
    CastProduct(b, m);
  }

  lemma ProductPositive(c: real, d: real)
    requires c > 0.0 && d > 0.0
    ensures c * d > 0.0
  {
  }

  lemma Commuted(c: real, d: real)
    ensures c * d == d * c
  {
  }

  /** The windows differ in one measurement, which is a success in the second only. */
  predicate AddsSuccess(metric: seq<int>, more: seq<int>, i: nat) {
    |metric| == |more| && i < |metric| && metric[i] <= 0 < more[i]
    && forall k :: 0 <= k < |metric| && k != i ==> more[k] == metric[k]
  }

  lemma {:induction false} AddedSuccess(metric: seq<int>, more: seq<int>, i: nat)
    requires AddsSuccess(metric, more, i)
    ensures |Positives(more)| == |Positives(metric)| + 1
    ensures Total(Positives(more)) == Total(Positives(metric)) + more[i]
  {
    hide Positives, Total;
    var n := |metric| - 1;
    PositivesStep(metric);
    PositivesStep(more);
    if i < n {
      AddedSuccess(metric[..n], more[..n], i);
    } else {
      assert more[..n] == metric[..n];
    }
  }

  lemma TruncateBelow(x: real, n: int)
    requires x >= 0.0
    ensures Truncate(x) < n <==> x < n as real
  {
  }

  /** A first success raises the effective time. A further one lowers the penalised mean exactly if it is
      below the mean of the others; the effective time then does not rise, it falls exactly if the new
      mean is below the old whole time, and otherwise it does not fall. */
  lemma {:induction false} AddedSuccessLowersIff(metric: seq<int>, more: seq<int>, i: nat, lastRTT: int, loss: real)
    requires AddsSuccess(metric, more, i) && loss >= 0.0
    ensures var (total, count) := (Total(Positives(metric)), |Positives(metric)|);
            var (before, after) := (EffectiveRTT(metric, lastRTT, loss), EffectiveRTT(more, lastRTT, loss));
            if count == 0 then before == -1 < 1 <= after
            else
              && (Penalised(total + more[i], count + 1, loss) < Penalised(total, count, loss) <==> more[i] * count < total)
              && (if more[i] * count < total then after <= before else before <= after)
              && (after < before <==> Penalised(total + more[i], count + 1, loss) < before as real)
  {
    hide Positives, Total, Penalised, Truncate, EffectiveRTT;
    AddedSuccess(metric, more, i);
    PositivesAtLeastOne(Positives(metric));
    PositivesAtLeastOne(Positives(more));
    EffectiveIs(metric, lastRTT, loss);
    EffectiveIs(more, lastRTT, loss);
    var (total, count, v) := (Total(Positives(metric)), |Positives(metric)|, more[i]);
    PenaltyAtLeastOne(total + v, count + 1, loss);
    if count > 0 {
      PenaltyOrder(total + v, count + 1, total, count, loss);
      TwoMeans(total, count, v);
      TruncateOrder(Penalised(total + v, count + 1, loss), Penalised(total, count, loss));
      TruncateBelow(Penalised(total + v, count + 1, loss), Truncate(Penalised(total, count, loss)));
    }
  }

  lemma {:induction false} EffectiveIs(metric: seq<int>, lastRTT: int, loss: real)
    requires metric != []
    ensures var (total, count) := (Total(Positives(metric)), |Positives(metric)|);
            EffectiveRTT(metric, lastRTT, loss) == if count == 0 then -1 else Truncate(Penalised(total, count, loss))
  {
  }

  lemma TruncateOrder(x: real, y: real)
    ensures if x < y then Truncate(x) <= Truncate(y) else Truncate(y) <= Truncate(x)
  {
  }

  lemma TwoMeans(total: int, count: nat, v: int)
    ensures (total + v) * count < total * (count + 1) <==> v * count < total
  {
    assert (total + v) * count == total * count + v * count;
    OneMore(total, count);
  }

  lemma {:induction false} PositivesAtLeastOne(s: seq<int>)
    requires forall i :: 0 <= i < |s| ==> s[i] > 0
    ensures Total(s) >= |s|
  {
    if s != [] {
      PositivesAtLeastOne(s[..|s| - 1]);
    }
  }

  lemma PenaltyAtLeastOne(total: int, count: nat, loss: real)
    requires 0 < count <= total && loss >= 0.0
    ensures Penalised(total, count, loss) >= 1.0 && Truncate(Penalised(total, count, loss)) >= 1
  {
    var q := total as real / count as real;
    Quotient(total as real, count as real);
    if q < 1.0 {
      ScaleLess(q, 1.0, count as real);
    }
    ScaleAtMost(1.0, 1.0 + loss * 2.0, q);
  }

  lemma PositivesOfTwo(a: int, b: int)
    ensures Positives([a, b]) == (if a > 0 then [a] else []) + (if b > 0 then [b] else [])
  {
    assert [a, b][..1] == [a] && [a][..0] == [];
    assert Positives([a]) == if a > 0 then [a] else [];
  }

  lemma TotalOfOne(a: int)
    ensures Total([a]) == a
  {
    assert [a][..0] == [];
  }

  lemma TotalOfTwo(a: int, b: int)
    ensures Total([a, b]) == a + b
  {
    TotalOfOne(a);
    assert [a, b][..1] == [a];
  }

  // ---------------------------------------------------------------------------------------
  // Latency communities.
  // ---------------------------------------------------------------------------------------

  function Pow(e: real, k: nat): real {
    if k == 0 then 1.0 else e * Pow(e, k - 1)
  }

  /** Rational bounds on e. */
  predicate IsE(e: real) {
    2.71828 <= e <= 2.718282
  }

  /** The integer part of the natural logarithm of a number from 1 on. */
  function FloorLn(e: real, x: real): (k: nat)
    requires IsE(e) && x >= 1.0
    decreases x
  {
    if x < e then 0
    else
      DivideByE(e, x);
      1 + FloorLn(e, x / e)
  }

  lemma DivideByE(e: real, x: real)
    requires IsE(e) && x >= e
    ensures 1.0 <= x / e <= x - 1.0 && x / e * e == x
  {
    Quotient(x, e);
    Shrinks(e, x, x / e);
  }

  lemma Shrinks(e: real, x: real, q: real)
    requires IsE(e) && x >= e && q * e == x
    ensures 1.0 <= q <= x - 1.0
  {
    if q < 1.0 {
      ScaleLess(q, 1.0, e);
    }
    ScaleAtMost(2.0, e, q);
  }

  lemma {:induction false} PowPositive(e: real, k: nat)
    requires IsE(e)
    ensures Pow(e, k) >= 1.0
  {
    if k > 0 {
      PowPositive(e, k - 1);
      AtLeastFactor(e, Pow(e, k - 1), Pow(e, k));
    }
  }

  /** It is k exactly between the powers k and k+1 of e. */
  lemma {:induction false} FloorLnIs(e: real, x: real, k: nat)
    requires IsE(e) && x >= 1.0
    ensures FloorLn(e, x) >= k <==> Pow(e, k) <= x
    decreases k
  {
    hide Pow, FloorLn, IsE;
    NoPower(e);
    if k > 0 {
      PowStep(e, k - 1);
      if x >= e {
        var q := Divided(e, x);
        FloorLnIs(e, q, k - 1);
        ScaleIff(e, Pow(e, k - 1), q, x);
      } else {
        PowAtLeast(e, k);
        FloorLnSmall(e, x);
      }
    }
  }

  lemma {:induction false} PowAtLeast(e: real, k: nat)
    requires IsE(e) && k > 0
    ensures Pow(e, k) >= e
  {
    PowPositive(e, k - 1);
    AtLeastFactor(e, Pow(e, k - 1), Pow(e, k));
  }

  lemma AtLeastFactor(e: real, p: real, product: real)
    requires e > 0.0 && p >= 1.0 && product == e * p
    ensures product >= e
  {
    ScaleAtMost(1.0, p, e);
  }

  lemma {:induction false} FloorLnSmall(e: real, x: real)
    requires IsE(e) && 1.0 <= x < e
    ensures FloorLn(e, x) == 0
  {
  }

  lemma Divided(e: real, x: real) returns (q: real)
    requires IsE(e) && x >= e
    ensures e > 0.0 && q >= 1.0 && q * e == x && FloorLn(e, x) == 1 + FloorLn(e, q)
  {
    DivideByE(e, x);
    q := x / e;
  }

  lemma PowStep(e: real, k: nat)
    ensures Pow(e, k + 1) == e * Pow(e, k)
  {
  }

  lemma ScaleIff(e: real, p: real, q: real, x: real)
    requires e > 0.0 && q * e == x
    ensures p <= q <==> e * p <= x
  {
    if p <= q {
      ScaleAtMost(p, q, e);
    } else {
      ScaleLess(q, p, e);
    }
  }

  function Community(e: real, rtt: int): int
    requires IsE(e) && rtt >= -1
  {
    if rtt == -1 then 0
    else if rtt == 0 then 1
    else if rtt > 2981 then 9
    else
      var value := FloorLn(e, rtt as real) + 1;
      if value < 1 then 1 else if value > 9 then 9 else value
  }

  lemma MulBounds(a: real, b: real, al: real, au: real, bl: real, bu: real)
    requires 0.0 <= al <= a <= au && 0.0 <= bl <= b <= bu
    ensures al * bl <= a * b <= au * bu
  {
    ScaleAtMost(al, a, bl);
    ScaleAtMost(bl, b, a);
    ScaleAtMost(a, au, b);
    ScaleAtMost(b, bu, au);
  }

  /** The next power of e, from bounds on this one. */
  lemma NextPower(e: real, k: nat, low: real, high: real)
    requires IsE(e) && 0.0 <= low <= Pow(e, k) <= high
    ensures 2.71828 * low <= Pow(e, k + 1) <= 2.718282 * high
  {
    MulBounds(e, Pow(e, k), 2.71828, 2.718282, low, high);
  }

  lemma {:induction false} PowersOfE(e: real)
    requires IsE(e)
    ensures 2.71828 <= Pow(e, 1) <= 2.718282
    ensures 7.389 < Pow(e, 2) < 7.3891
    ensures 20.0852 < Pow(e, 3) < 20.0857
    ensures 54.597 < Pow(e, 4) < 54.599
    ensures 148.4 < Pow(e, 5) < 148.42
    ensures 403.3 < Pow(e, 6) < 403.5
    ensures 1096.2 < Pow(e, 7) < 1096.9
    ensures 2980.1 < Pow(e, 8) < 2980.99
  {
    hide Pow;
    assert Pow(e, 0) == 1.0 by {
      NoPower(e);
    }
    NextPower(e, 0, 1.0, 1.0);
    NextPower(e, 1, 2.71828, 2.718282);
    NextPower(e, 2, 7.38904, 7.38906);
    NextPower(e, 3, 20.0854, 20.08556);
    NextPower(e, 4, 54.59774, 54.59822);
    NextPower(e, 5, 148.4119, 148.4134);
    NextPower(e, 6, 403.425, 403.43);
    NextPower(e, 7, 1096.62, 1096.637);
  }

  lemma {:induction false} NoPower(e: real)
    ensures Pow(e, 0) == 1.0
  {
  }

  /** The first integer of each band. */
  const STARTS := [1, 3, 8, 21, 55, 149, 404, 1097, 2981]

  /** The community of a measured time is the number of band starts it has reached. */
  lemma Bands(e: real, rtt: int, k: nat)
    requires IsE(e) && rtt >= 1 && 1 <= k <= 9
    ensures Community(e, rtt) >= k <==> rtt >= STARTS[k - 1]
    ensures 1 <= Community(e, rtt) <= 9
  {
    PowersOfE(e);
    FloorLnIs(e, rtt as real, k - 1);
    NoPower(e);
    hide FloorLn, Pow;
  }

  /** Only a failed measurement has no community, and a longer time never has a lower one. */
  lemma CommunityMonotone(e: real, rtt: int, longer: int)
    requires IsE(e) && -1 <= rtt <= longer
    ensures 0 <= Community(e, rtt) <= Community(e, longer) <= 9
    ensures Community(e, rtt) == 0 <==> rtt == -1
  {
    if rtt >= 1 {
      Bands(e, rtt, 1);
      var k := Community(e, rtt);
      Bands(e, rtt, k);
      Bands(e, longer, k);
    } else if longer >= 1 {
      Bands(e, longer, 1);
    }
    hide Community;
  }

  /** Neither more loss nor slower successes ever lower the community of a session. */
  lemma CommunityNeverFalls(e: real, metric: seq<int>, slower: seq<int>, lastRTT: int, loss: real, more: real, top: int)
    requires IsE(e) && metric != [] && NoFaster(metric, slower) && 0.0 <= loss <= more <= 1.0
    requires forall i :: 0 <= i < |metric| ==> metric[i] <= top && slower[i] <= top
    ensures EffectiveRTT(metric, lastRTT, loss) >= -1 && EffectiveRTT(slower, lastRTT, more) >= -1
    ensures var (low, high) := (Community(e, EffectiveRTT(metric, lastRTT, loss)), Community(e, EffectiveRTT(slower, lastRTT, more)));
            && low <= high
            && (low == 0 <==> forall i :: 0 <= i < |metric| ==> metric[i] <= 0)
            && (low != 0 ==> 1 <= low && high <= 9)
  {
    EffectiveBounds(metric, lastRTT, loss, top);
    EffectiveBounds(slower, lastRTT, more, top);
    EffectiveMonotone(metric, slower, lastRTT, loss, more);
    CommunityMonotone(e, EffectiveRTT(metric, lastRTT, loss), EffectiveRTT(slower, lastRTT, more));
  }

  function BandStart(k: nat): int
    requires 1 <= k <= 9
  {
    STARTS[k - 1]
  }

  /** Some band starts above the first time and not above the second. */
  predicate CrossesBand(to: real, from: int) {
    exists k: nat :: 1 <= k <= 9 && to < BandStart(k) as real <= from as real
  }

  lemma CommunityFallsIff(e: real, from: int, to: int)
    requires IsE(e) && from >= 1 && to >= 1
    ensures Community(e, to) < Community(e, from) <==> CrossesBand(to as real, from)
  {
    forall k: nat | 1 <= k <= 9
      ensures (Community(e, from) >= k <==> from >= BandStart(k)) && (Community(e, to) >= k <==> to >= BandStart(k))
      ensures 1 <= Community(e, from) <= 9
    {
      Bands(e, from, k);
      Bands(e, to, k);
    }
    Bands(e, from, 1);
    var k: nat := Community(e, from);
    assert from >= BandStart(k);
    hide Community;
  }

  /** The penalised mean of the successes of a window. */
  function MeanOf(metric: seq<int>, loss: real): real
    requires Positives(metric) != []
  {
    Penalised(Total(Positives(metric)), |Positives(metric)|, loss)
  }

  lemma {:induction false} EffectiveOf(metric: seq<int>, lastRTT: int, loss: real)
    requires metric != [] && loss >= 0.0
    ensures var t := EffectiveRTT(metric, lastRTT, loss);
            if Positives(metric) == [] then t == -1 else t >= 1 && MeanOf(metric, loss) >= 1.0 && t == Truncate(MeanOf(metric, loss))
  {
    EffectiveIs(metric, lastRTT, loss);
    hide EffectiveRTT, Positives, Total, Penalised, Truncate;
    PositivesAtLeastOne(Positives(metric));
    if Positives(metric) != [] {
      PenaltyAtLeastOne(Total(Positives(metric)), |Positives(metric)|, loss);
    }
  }

  /** For any two windows and losses: the second has a lower community exactly if the first has a success
      and the second none, or one whose penalised mean is below the start of a band the first's whole
      time had reached. */
  lemma {:induction false} CommunityFallsBetweenIff(e: real, metric: seq<int>, later: seq<int>, lastRTT: int, nextRTT: int, loss: real, more: real)
    requires IsE(e) && metric != [] && later != [] && loss >= 0.0 && more >= 0.0
    ensures var (before, after) := (EffectiveRTT(metric, lastRTT, loss), EffectiveRTT(later, nextRTT, more));
            && before >= -1 && after >= -1
            && (Community(e, after) < Community(e, before)
                <==> Positives(metric) != [] && (Positives(later) == [] || CrossesBand(MeanOf(later, more), before)))
  {
    hide EffectiveRTT, MeanOf, Community, Truncate, CrossesBand;
    EffectiveOf(metric, lastRTT, loss);
    EffectiveOf(later, nextRTT, more);
    var (before, after) := (EffectiveRTT(metric, lastRTT, loss), EffectiveRTT(later, nextRTT, more));
    CommunityMonotone(e, before, before);
    CommunityMonotone(e, after, after);
    if Positives(metric) != [] && Positives(later) != [] {
      CommunityFallsIff(e, before, after);
      CrossesTruncated(MeanOf(later, more), before);
    }
  }

  /** So with one measurement more: the window the tracker then has, and when it has a lower community. */
  lemma {:induction false} MeasurementLowersCommunityIff(e: real, h: seq<Sample>, x: Sample, limit: int)
    requires IsE(e) && h != [] && limit >= 1
    requires 0.0 <= x.loss <= 1.0 && forall i :: 0 <= i < |h| ==> 0.0 <= h[i].loss <= 1.0
    ensures var (v, w) := (Tracked(h, limit), Tracked(h + [x], limit));
            var (before, after) := (EffectiveRTT(v.metric, v.lastRTT, v.avgLoss), EffectiveRTT(w.metric, w.lastRTT, w.avgLoss));
            && w.metric == (if |v.metric| < limit then v.metric else v.metric[1..]) + [x.rtt]
            && w.lossMetric == (if |v.metric| < limit then v.lossMetric else v.lossMetric[1..]) + [x.loss]
            && before >= -1 && after >= -1
            && (Community(e, after) < Community(e, before)
                <==> Positives(v.metric) != [] && (Positives(w.metric) == [] || CrossesBand(MeanOf(w.metric, w.avgLoss), before)))
  {
    hide EffectiveRTT, MeanOf, Community, CrossesBand, Positives, Tracked, Window, Mean, Rtts, Losses;
    var (v, w) := (Tracked(h, limit), Tracked(h + [x], limit));
    NextWindow(h, x, limit);
    AvgLossBounds(h, limit);
    AvgLossBounds(h + [x], limit);
    CommunityFallsBetweenIff(e, v.metric, w.metric, v.lastRTT, w.lastRTT, v.avgLoss, w.avgLoss);
  }

  lemma {:induction false} NextWindow(h: seq<Sample>, x: Sample, limit: int)
    requires h != [] && limit >= 1
    ensures var (v, w) := (Tracked(h, limit), Tracked(h + [x], limit));
            && v.metric != [] && w.metric != []
            && w.metric == (if |v.metric| < limit then v.metric else v.metric[1..]) + [x.rtt]
            && w.lossMetric == (if |v.metric| < limit then v.lossMetric else v.lossMetric[1..]) + [x.loss]
  {
    hide Mean, Window, Rtts, Losses, LastSuccess;
    TrackedStep(h, x, limit);
    WindowsMatch(h, limit);
    WindowsMatch(h + [x], limit);
  }

  /** So a new success lowers the community of a session exactly if its penalised mean falls below the
      start of a band the old whole time had reached; never if it is the first success, nor if it is at
      least the mean of the others. */
  lemma {:induction false} AddedSuccessLowersCommunityIff(e: real, metric: seq<int>, more: seq<int>, i: nat, lastRTT: int, loss: real)
    requires IsE(e) && AddsSuccess(metric, more, i) && loss >= 0.0
    ensures var (total, count) := (Total(Positives(metric)), |Positives(metric)|);
            var (before, after) := (EffectiveRTT(metric, lastRTT, loss), EffectiveRTT(more, lastRTT, loss));
            && before >= -1 && after >= 1
            && (Community(e, after) < Community(e, before)
                <==> count > 0 && more[i] * count < total && CrossesBand(Penalised(total + more[i], count + 1, loss), before))
  {
    hide Positives, Total, Penalised, Community, Truncate, EffectiveRTT, CrossesBand;
    AddedSuccessLowersIff(metric, more, i, lastRTT, loss);
    AddedSuccess(metric, more, i);
    PositivesAtLeastOne(Positives(metric));
    PositivesAtLeastOne(Positives(more));
    EffectiveIs(metric, lastRTT, loss);
    EffectiveIs(more, lastRTT, loss);
    var (total, count, v) := (Total(Positives(metric)), |Positives(metric)|, more[i]);
    var (before, after) := (EffectiveRTT(metric, lastRTT, loss), EffectiveRTT(more, lastRTT, loss));
    PenaltyAtLeastOne(total + v, count + 1, loss);
    if count > 0 {
      PenaltyAtLeastOne(total, count, loss);
      CommunityFallsIff(e, before, after);
      CrossesTruncated(Penalised(total + v, count + 1, loss), before);
      if v * count >= total {
        CommunityMonotone(e, before, after);
      }
    } else {
      CommunityMonotone(e, before, after);
    }
  }

  lemma CrossesTruncated(x: real, from: int)
    requires x >= 0.0
    ensures CrossesBand(Truncate(x) as real, from) <==> CrossesBand(x, from)
  {
    forall k: nat | 1 <= k <= 9
      ensures Truncate(x) < BandStart(k) <==> x < BandStart(k) as real
    {
      TruncateBelow(x, BandStart(k));
    }
    hide Truncate;
  }

  /** It may fall although every entry grows and the loss stays: a new success may come with slower ones. */
  lemma SlowerMayLower(e: real)
    requires IsE(e)
    ensures EffectiveRTT([0, 100], 100, 0.0) == 100 && EffectiveRTT([2, 101], 101, 0.0) == 51
    ensures Community(e, 100) == 5 && Community(e, 51) == 4
  {
    hide EffectiveRTT, Community;
    GrowthMayLower(e);
    TwoAndMore();
  }

  lemma TwoAndMore()
    ensures EffectiveRTT([2, 101], 101, 0.0) == 51
  {
    hide Positives, Total;
    PositivesOfTwo(2, 101);
    TotalOfTwo(2, 101);
    var w := Positives([2, 101]);
    assert w == [2, 101];
    assert Penalised(Total(w), |w|, 0.0) == 51.5;
  }

  /** An input where the community falls: a window with one success of 100 ms gains one of 2 ms. */
  lemma GrowthMayLower(e: real)
    requires IsE(e)
    ensures EffectiveRTT([0, 100], 100, 0.0) == 100 && EffectiveRTT([2, 100], 100, 0.0) == 51
    ensures Community(e, 100) == 5 && Community(e, 51) == 4
  {
    PositivesOfTwo(0, 100);
    PositivesOfTwo(2, 100);
    TotalOfTwo(2, 100);
    TotalOfOne(100);
    hide Positives, Total;
    var (v, w) := (Positives([0, 100]), Positives([2, 100]));
    assert v == [100] && w == [2, 100];
    assert Penalised(Total(v), |v|, 0.0) == 100.0 && Penalised(Total(w), |w|, 0.0) == 51.0;
    Bands(e, 100, 5);
    Bands(e, 100, 6);
    Bands(e, 51, 4);
    Bands(e, 51, 5);
    hide Community;
  }

  /** Loss counts: 100 ms with an average loss of 30% count as 160 ms, one community up, and with full loss
      as 300 ms. */
  lemma LossRaises(e: real)
    requires IsE(e)
    ensures EffectiveRTT([100], 100, 0.0) == 100 && EffectiveRTT([100], 100, 0.3) == 160 && EffectiveRTT([100], 100, 1.0) == 300
    ensures Community(e, 100) == 5 && Community(e, 160) == 6
  {
    OneHundred(0.0);
    OneHundred(0.3);
    OneHundred(1.0);
    Bands(e, 100, 5);
    Bands(e, 100, 6);
    Bands(e, 160, 6);
    Bands(e, 160, 7);
    hide Community, EffectiveRTT;
  }

  lemma {:induction false} OneHundred(loss: real)
    requires loss >= 0.0
    ensures EffectiveRTT([100], 100, loss) == (100.0 + 200.0 * loss).Floor
  {
    assert [100][..0] == [] && [] + [100] == [100];
    assert Positives([100]) == [100];
    TotalOfOne(100);
    EffectiveIs([100], 100, loss);
    hide Positives, Total, EffectiveRTT;
    assert Penalised(100, 1, loss) == 100.0 + 200.0 * loss;
  }

  /** The bands the comments promise, by their upper ends in whole milliseconds. */
  function Documented(rtt: int): int {
    if rtt <= 2 then 1
    else if rtt <= 7 then 2
    else if rtt <= 20 then 3
    else if rtt <= 55 then 4
    else if rtt <= 148 then 5
    else if rtt <= 403 then 6
    else if rtt <= 1097 then 7
    else if rtt <= 2981 then 8
    else 9
  }

  /** Three whole times get the next band up from the one promised, and no others differ. */
  lemma DiffersFromDocumented(e: real, rtt: int)
    requires IsE(e) && rtt >= 1
    ensures Community(e, rtt) != Documented(rtt) <==> rtt in {55, 1097, 2981}
  {
    Bands(e, rtt, 1);
    Bands(e, rtt, 2);
    Bands(e, rtt, 3);
    Bands(e, rtt, 4);
    Bands(e, rtt, 5);
    Bands(e, rtt, 6);
    Bands(e, rtt, 7);
    Bands(e, rtt, 8);
    Bands(e, rtt, 9);
    hide Community;
  }

  /** A link answering in under a millisecond every time counts as failed: it has no community,
      although a time of zero on its own has the lowest. */
  lemma ZeroWindow(e: real, metric: seq<int>, lastRTT: int, loss: real)
    requires IsE(e) && metric != [] && forall i :: 0 <= i < |metric| ==> metric[i] == 0
    ensures EffectiveRTT(metric, lastRTT, loss) == -1
    ensures Community(e, EffectiveRTT(metric, lastRTT, loss)) == 0 && Community(e, 0) == 1
  {
    PositivesEmpty(metric);
  }

  // ---------------------------------------------------------------------------------------
  // The logarithm.
  // ---------------------------------------------------------------------------------------

  /** What the proof needs of a natural logarithm. */
  ghost predicate IsLn(ln: real -> real, e: real) {
    && ln(1.0) == 0.0 && ln(e) == 1.0
    && (forall x, y :: x > 0.0 && y > 0.0 ==> ln(x * y) == ln(x) + ln(y))
    && (forall x, y :: 0.0 < x < y ==> ln(x) < ln(y))
  }

  /** Comparing with powers of e computes the integer part of any such logarithm. */
  lemma {:induction false} FloorLnOf(ln: real -> real, e: real, x: real)
    requires IsE(e) && IsLn(ln, e) && x >= 1.0
    ensures FloorLn(e, x) == ln(x).Floor
    decreases x
  {
    if x >= e {
      var q := Divided(e, x);
      Shrinks(e, x, q);
      FloorLnOf(ln, e, q);
      assert ln(x) == ln(q) + ln(e);
      FloorPlusOne(ln(q));
    } else {
      FloorLnSmall(e, x);
      assert ln(x) < ln(e) && (x > 1.0 ==> ln(1.0) < ln(x));
    }
  }

  lemma FloorPlusOne(x: real)
    ensures (x + 1.0).Floor == x.Floor + 1
  {
  }
}
