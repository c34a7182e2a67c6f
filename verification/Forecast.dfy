/** The capacity forecast: a least-squares line through the recorded pool usage, its
    projection with a confidence band, and the time left until a usage target. */
module Forecast {
  import opened Prelude
  import opened Moments

  datatype CapacityPoint = CapacityPoint(timestamp: int, usedBytes: int, totalBytes: int)

  datatype Prediction = Prediction(
    timestamp: int, predictedUsed: int, lowerBound: int, upperBound: int, confidence: real)

  datatype LinearRegression = LinearRegression(
    slope: real, intercept: real, rSquared: real, stdError: real, dataPoints: nat, timeRange: int, origin: int)

  // ---- FitLinear ----

  predicate Earlier(p: CapacityPoint, q: CapacityPoint) { p.timestamp <= q.timestamp }

  /** Seconds of each point since the origin. */
  function Elapsed(points: seq<CapacityPoint>, origin: int): (r: seq<real>)
    ensures |r| == |points| && forall i :: 0 <= i < |r| ==> r[i] == Seconds(points[i].timestamp - origin)
  {
    seq(|points|, i requires 0 <= i < |points| => Seconds(points[i].timestamp - origin))
  }

  function Used(points: seq<CapacityPoint>): (r: seq<real>)
    ensures |r| == |points| && forall i :: 0 <= i < |r| ==> r[i] == points[i].usedBytes as real
  {
    seq(|points|, i requires 0 <= i < |points| => points[i].usedBytes as real)
  }

  /** The squared deviations from the mean usage: the horizontal line through the mean. */
  function TotalSs(ts: seq<real>, us: seq<real>): real
    requires |ts| == |us| > 0
  {
    Sse(ts, us, 0.0, Sum(us) / |us| as real)
  }

  /** What a fit is, without the formulas that compute it. */
  ghost predicate IsFit(points: seq<CapacityPoint>, lr: LinearRegression)
    requires |points| >= 3
  {
    var n := |points|;
    var ts, us := Elapsed(points, points[0].timestamp), Used(points);
    var sse, tss := Sse(ts, us, lr.slope, lr.intercept), TotalSs(ts, us);
    && BestLine(ts, us, lr.slope, lr.intercept)
    && (if tss > 0.0 then (1.0 - lr.rSquared) * tss == sse else lr.rSquared == 1.0)
    && 0.0 <= lr.rSquared <= 1.0
    && lr.stdError >= 0.0
    && lr.stdError * lr.stdError == sse / (n - 2) as real
    && lr.dataPoints == n
    && lr.origin == points[0].timestamp
    && lr.timeRange == points[n - 1].timestamp - points[0].timestamp
  }

  /** Two readings at least a day apart give the samples a positive spread. */
  lemma SpanSpreads(points: seq<CapacityPoint>)
    requires |points| > 0 && points[|points| - 1].timestamp - points[0].timestamp >= DAY
    ensures var ts := Elapsed(points, points[0].timestamp);
            ts[0] != ts[|ts| - 1] && Spread(ts, ts) > 0.0
  {
    var ts := Elapsed(points, points[0].timestamp);
    SpreadPositive(ts, 0, |ts| - 1);
  }

  lemma Share(part: real, whole: real)
    requires 0.0 <= part <= whole && whole > 0.0
    ensures 0.0 <= part / whole <= 1.0 && (1.0 - (1.0 - part / whole)) * whole == part
  {
    assert part / whole * whole == part;
  }

  /** The accumulators of the first loop. */
  method Accumulate(points: array<CapacityPoint>, tMin: int)
    returns (sumT: real, sumU: real, sumTT: real, sumTU: real)
    ensures var ts, us := Elapsed(points[..], tMin), Used(points[..]);
            && sumT == Sum(ts) && sumU == Sum(us)
            && sumTT == Dot(ts, ts) && sumTU == Dot(ts, us)
  {
    hide Mul, Times, Elapsed, Used, Residuals;
    ghost var ts, us := Elapsed(points[..], tMin), Used(points[..]);
    sumT, sumU, sumTT, sumTU := 0.0, 0.0, 0.0, 0.0;
    for i := 0 to points.Length
      invariant sumT == Sum(ts[..i]) && sumU == Sum(us[..i])
      invariant sumTT == Sum(Times(ts, ts)[..i]) && sumTU == Sum(Times(ts, us)[..i])
    {
      var t, u := Seconds(points[i].timestamp - tMin), points[i].usedBytes as real;
      sumT, sumU, sumTT, sumTU := sumT + t, sumU + u, sumTT + Mul(t, t), sumTU + Mul(t, u);
      SumNext(ts, i);
      SumNext(us, i);
      SumNext(Times(ts, ts), i);
      SumNext(Times(ts, us), i);
    }
    assert ts[..|ts|] == ts && us[..|us|] == us;
    assert Times(ts, ts)[..|ts|] == Times(ts, ts) && Times(ts, us)[..|ts|] == Times(ts, us);
  }

  /** The accumulators of the second loop. */
  method SquaredErrors(points: array<CapacityPoint>, tMin: int, slope: real, intercept: real, meanU: real)
    returns (ssRes: real, ssTot: real)
    ensures var ts, us := Elapsed(points[..], tMin), Used(points[..]);
            ssRes == Sse(ts, us, slope, intercept) && ssTot == Sse(ts, us, 0.0, meanU)
  {
    hide Mul, Times, Elapsed, Used, Residuals;
    ghost var ts, us := Elapsed(points[..], tMin), Used(points[..]);
    ghost var e, f := Residuals(ts, us, slope, intercept), Residuals(ts, us, 0.0, meanU);
    ghost var ee, ff := Times(e, e), Times(f, f);
    ssRes, ssTot := 0.0, 0.0;
    for i := 0 to points.Length
      invariant ssRes == Sum(ee[..i]) && ssTot == Sum(ff[..i])
    {
      var t, u := Seconds(points[i].timestamp - tMin), points[i].usedBytes as real;
      ZeroTimes(t);
      var d, m := u - (Mul(slope, t) + intercept), u - meanU;
      assert d == e[i] && m == f[i];
      ssRes, ssTot := ssRes + Mul(d, d), ssTot + Mul(m, m);
      SumNext(ee, i);
      SumNext(ff, i);
    }
    assert ee[..|ee|] == ee && ff[..|ff|] == ff;
  }

  lemma ZeroTimes(t: real)
    ensures Mul(0.0, t) == 0.0
  {
  }

  predicate ByTime(points: seq<CapacityPoint>) {
    forall i, j :: 0 <= i < j < |points| ==> points[i].timestamp <= points[j].timestamp
  }

  lemma SortedByTime(points: seq<CapacityPoint>)
    requires Sorted(points, Earlier)
    ensures ByTime(points)
  {
    assert forall i, j :: 0 <= i < j < |points| ==> Earlier(points[i], points[j]);
  }

  method FitLinear(points: array<CapacityPoint>, sqrt: real -> real) returns (r: Option<LinearRegression>)
    requires IsSqrt(sqrt)
    modifies points
    ensures multiset(points[..]) == multiset(old(points[..]))
    ensures points.Length < 3 ==> points[..] == old(points[..]) && r == None
    ensures points.Length >= 3 ==> ByTime(points[..])
    ensures points.Length >= 3 ==>
              (r == None <==> points[points.Length - 1].timestamp - points[0].timestamp < 86_400_000_000_000)
    ensures r.Some? ==> IsFit(points[..], r.value)
  {
    hide Mul, Times, Elapsed, Used, Sse, Sum, Residuals, IsFit, CramerSlope, CramerIntercept, ByTime, Sorted;
    if points.Length < 3 {
      return None;
    }
    SortSlice(points, Earlier);
    SortedByTime(points[..]);
    var tMin, tMax := points[0].timestamp, points[points.Length - 1].timestamp;
    if tMax - tMin < DAY {
      return None;
    }
    var n := points.Length as real;
    var sumT, sumU, sumTT, sumTU := Accumulate(points, tMin);
    SpanSpreads(points[..]);
    var denom := Mul(n, sumTT) - Mul(sumT, sumT);
    if denom == 0.0 {
      assert false;
    }
    var slope := CramerSlope(n, sumT, sumU, sumTT, sumTU);
    var intercept := CramerIntercept(n, sumT, sumU, slope);
    CramerSolves(n, sumT, sumU, sumTT, sumTU);
    var ssRes, ssTot := SquaredErrors(points, tMin, slope, intercept, sumU / n);
    SseNotNegative(Elapsed(points[..], tMin), Used(points[..]), slope, intercept);
    r := Some(LinearRegression(slope, intercept, if ssTot > 0.0 then 1.0 - ssRes / ssTot else 1.0,
                               sqrt(ssRes / (points.Length - 2) as real), points.Length, tMax - tMin, tMin));
    NormalLineIsFit(points[..], sqrt, r.value);
  }

  lemma NormalLineIsFit(points: seq<CapacityPoint>, sqrt: real -> real, lr: LinearRegression)
    requires IsSqrt(sqrt)
    requires |points| >= 3 && points[|points| - 1].timestamp - points[0].timestamp >= DAY
    requires lr.dataPoints == |points| && lr.origin == points[0].timestamp
    requires lr.timeRange == points[|points| - 1].timestamp - points[0].timestamp
    requires var ts, us := Elapsed(points, lr.origin), Used(points);
             var sse, tss := Sse(ts, us, lr.slope, lr.intercept), TotalSs(ts, us);
             && Normal(ts, us, lr.slope, lr.intercept)
             && lr.rSquared == (if tss > 0.0 then 1.0 - sse / tss else 1.0)
             && lr.stdError == sqrt(sse / (|points| - 2) as real)
    ensures IsFit(points, lr)
  {
    hide Mul, Times, Elapsed, Used, Residuals;
    var ts, us := Elapsed(points, lr.origin), Used(points);
    var a, b := lr.slope, lr.intercept;
    SpanSpreads(points);
    NormalIsBest(ts, us, a, b, 0, |ts| - 1);
    SseNotNegative(ts, us, a, b);
    var tss := TotalSs(ts, us);
    assert Sse(ts, us, a, b) <= tss;
    if tss > 0.0 {
      Share(Sse(ts, us, a, b), tss);
    }
  }

  /** Points on one line are fitted by that line, with nothing left over. */
  lemma ExactLineRecovered(points: seq<CapacityPoint>, lr: LinearRegression, a: real, b: real)
    requires |points| >= 3 && IsFit(points, lr)
    requires forall i :: 0 <= i < |points| ==>
               points[i].usedBytes as real == Mul(a, Seconds(points[i].timestamp - points[0].timestamp)) + b
    ensures lr.slope == a && lr.intercept == b && lr.rSquared == 1.0 && lr.stdError == 0.0
  {
    hide Mul, Times, Elapsed, Used, Residuals;
    var ts, us := Elapsed(points, points[0].timestamp), Used(points);
    var e := Residuals(ts, us, a, b);
    forall k | 0 <= k < |e| ensures Times(e, e)[k] == 0.0 {
      ZeroTimes(0.0);
    }
    SumOfZeros(Times(e, e));
    SseNotNegative(ts, us, lr.slope, lr.intercept);
    assert Sse(ts, us, lr.slope, lr.intercept) <= Sse(ts, us, a, b) == 0.0;
    var gap, tss := 1.0 - lr.rSquared, TotalSs(ts, us);
    NoShare(gap, tss);
    NoShare(lr.stdError, lr.stdError);
  }

  lemma {:induction false} SumOfZeros(s: seq<real>)
    requires forall k :: 0 <= k < |s| ==> s[k] == 0.0
    ensures Sum(s) == 0.0
  {
    if s != [] {
      SumOfZeros(s[..|s| - 1]);
    }
  }

  lemma NoShare(gap: real, whole: real)
    ensures whole > 0.0 && gap * whole == 0.0 ==> gap == 0.0
  {
  }

  // ---- DaysUntilFull ----

  /** The fitted line, s seconds after the origin. */
  function LineAt(lr: LinearRegression, s: real): real { lr.slope * s + lr.intercept }

  function Target(totalBytes: int, pct: real): real { totalBytes as real * pct / 100.0 }

  function DaysUntilFull(fit: Option<LinearRegression>, historyEnd: int, totalBytes: int, pct: real): Option<real> {
    if fit == None || fit.value.slope <= 0.0 then None else
    var lr := fit.value;
    var target := Target(totalBytes, pct);
    var currentPred := LineAt(lr, Seconds(historyEnd - lr.origin));
    if currentPred >= target then Some(0.0)
    else Some((target - currentPred) / lr.slope / 86400.0)
  }

  /** The answer inverts the fit: it is zero exactly when the target is already met, and
      otherwise it separates the days before which the line is short of the target from
      those after which it is not. */
  lemma DaysInvertFit(lr: LinearRegression, historyEnd: int, totalBytes: int, pct: real, x: real)
    requires lr.slope > 0.0
    ensures var target := Target(totalBytes, pct);
            var now := Seconds(historyEnd - lr.origin);
            var r := DaysUntilFull(Some(lr), historyEnd, totalBytes, pct);
            && r.Some? && r.value >= 0.0
            && (r.value == 0.0 <==> LineAt(lr, now) >= target)
            && (r.value > 0.0 ==> LineAt(lr, now + r.value * 86400.0) == target)
            && (r.value > 0.0 ==> (LineAt(lr, now + x * 86400.0) >= target <==> x >= r.value))
            && (r.value == 0.0 <==> 100.0 * (lr.slope * now + lr.intercept) >= totalBytes as real * pct)
            && (r.value > 0.0 ==>
                  100.0 * (lr.slope * (now + r.value * 86400.0) + lr.intercept) == totalBytes as real * pct)
  {
    var target := Target(totalBytes, pct);
    var now := Seconds(historyEnd - lr.origin);
    var current := LineAt(lr, now);
    if current < target {
      var days := (target - current) / lr.slope / 86400.0;
      QuotientSign(target - current, lr.slope, days * 86400.0);
      LineMoves(lr, now, days * 86400.0);
      LineMoves(lr, now, x * 86400.0);
      ProductOrder(lr.slope, days * 86400.0, x * 86400.0);
    }
  }

  /** There is no answer exactly for no fit, or one that does not rise. */
  lemma NoAnswerIff(fit: Option<LinearRegression>, historyEnd: int, totalBytes: int, pct: real)
    ensures DaysUntilFull(fit, historyEnd, totalBytes, pct) == None <==> fit == None || fit.value.slope <= 0.0
  {
  }

  lemma QuotientSign(p: real, q: real, r: real)
    requires p > 0.0 && q > 0.0 && r == p / q
    ensures r > 0.0 && q * r == p
  {
  }

  lemma LineMoves(lr: LinearRegression, s: real, d: real)
    ensures LineAt(lr, s + d) == LineAt(lr, s) + lr.slope * d
  {
  }

  /** A higher target is never reached sooner. */
  lemma DaysFollowTarget(lr: LinearRegression, historyEnd: int, totalBytes: int, p: real, q: real)
    requires lr.slope > 0.0 && Target(totalBytes, p) <= Target(totalBytes, q)
    ensures DaysUntilFull(Some(lr), historyEnd, totalBytes, p).value
            <= DaysUntilFull(Some(lr), historyEnd, totalBytes, q).value
  {
    var d := DaysUntilFull(Some(lr), historyEnd, totalBytes, q).value;
    DaysInvertFit(lr, historyEnd, totalBytes, p, d);
    DaysInvertFit(lr, historyEnd, totalBytes, q, d);
  }

  /** So neither is a higher percentage, of a capacity that is not negative; of a negative
      one it would be reached no later. */
  lemma DaysMonotone(lr: LinearRegression, historyEnd: int, totalBytes: int, p: real, q: real)
    requires lr.slope > 0.0 && p <= q
    ensures var dp := DaysUntilFull(Some(lr), historyEnd, totalBytes, p).value;
            var dq := DaysUntilFull(Some(lr), historyEnd, totalBytes, q).value;
            if totalBytes >= 0 then dp <= dq else dq <= dp
  {
    var t, d := totalBytes as real, q - p;
    assert t * q == t * p + t * d;
    if totalBytes >= 0 {
      assert t * d >= 0.0;
      DaysFollowTarget(lr, historyEnd, totalBytes, p, q);
    } else {
      assert -t * d >= 0.0;
      DaysFollowTarget(lr, historyEnd, totalBytes, q, p);
    }
  }

  // ---- Project ----

  /** The i-th prediction before it is rounded to bytes. */
  function Unrounded(lr: LinearRegression, historyEnd: int, interval: int, i: nat): real {
    var pred := LineAt(lr, Seconds(historyEnd - lr.origin) + i as real * Seconds(interval));
    if pred < 0.0 then 0.0 else pred
  }

  function Margin(lr: LinearRegression, sqrt: real -> real, i: nat): real {
    (if lr.rSquared < 0.5 then 2.5 else 1.96) * lr.stdError * sqrt(1.0 + i as real * 0.05)
  }

  function PredictionAt(lr: LinearRegression, sqrt: real -> real, historyEnd: int, interval: int,
                        i: nat, totalBytes: int): Prediction {
    var pred, margin := Unrounded(lr, historyEnd, interval, i), Margin(lr, sqrt, i);
    var lo, hi := Trunc(pred - margin), Trunc(pred + margin);
    Prediction(historyEnd + interval * i, Trunc(pred), if lo < 0 then 0 else lo,
               if hi > totalBytes then totalBytes else hi,
               if Min(1.0, lr.rSquared) < 0.0 then 0.0 else Min(1.0, lr.rSquared))
  }

  /** What a prediction says: the line at its time, never below zero, in whole bytes; around it
      a band of k standard errors, where k grows with the square root of 1 + i/20; and the share
      explained. */
  ghost predicate Predicts(p: Prediction, lr: LinearRegression, historyEnd: int, interval: int, i: nat,
                           totalBytes: int) {
    && p.timestamp == historyEnd + interval * i
    && IsFloor(p.predictedUsed, UsedAt(lr, p.timestamp))
    && (exists k :: InBand(p, lr, i, totalBytes, k))
    && p.confidence == (if lr.rSquared > 1.0 then 1.0 else if lr.rSquared < 0.0 then 0.0 else lr.rSquared)
  }

  /** The line at a time, and never less than nothing. */
  function UsedAt(lr: LinearRegression, time: int): real {
    var line := lr.slope * ((time - lr.origin) as real / 1_000_000_000.0) + lr.intercept;
    if line < 0.0 then 0.0 else line
  }

  ghost predicate InBand(p: Prediction, lr: LinearRegression, i: nat, totalBytes: int, k: real) {
    && IsWidth(k, if lr.rSquared < 0.5 then 2.5 else 1.96, i)
    && IsLower(p.lowerBound, UsedAt(lr, p.timestamp) - Mul(lr.stdError, k))
    && IsUpper(p.upperBound, UsedAt(lr, p.timestamp) + Mul(lr.stdError, k), totalBytes)
  }

  /** In whole bytes, and never below zero. */
  ghost predicate IsLower(lower: int, x: real) { if lower > 0 then IsFloor(lower, x) else lower == 0 && x < 1.0 }

  /** In whole bytes, and never above the pool's size. */
  ghost predicate IsUpper(upper: int, x: real, totalBytes: int) {
    if upper < totalBytes then IsFloor(upper, x) else upper == totalBytes && x >= totalBytes as real
  }

  ghost predicate IsFloor(n: int, x: real) { n as real <= x < n as real + 1.0 }

  ghost predicate IsWidth(k: real, c: real, i: nat) { k >= 0.0 && 20.0 * k * k == c * c * (20 + i) as real }

  /** The width that the margin of step i is made of. */
  function Width(lr: LinearRegression, sqrt: real -> real, i: nat): real {
    (if lr.rSquared < 0.5 then 2.5 else 1.96) * sqrt(1.0 + i as real * 0.05)
  }

  lemma WidthIs(lr: LinearRegression, sqrt: real -> real, i: nat)
    requires IsSqrt(sqrt)
    ensures IsWidth(Width(lr, sqrt, i), if lr.rSquared < 0.5 then 2.5 else 1.96, i)
    ensures Margin(lr, sqrt, i) == Mul(lr.stdError, Width(lr, sqrt, i))
  {
    var c, r := if lr.rSquared < 0.5 then 2.5 else 1.96, sqrt(1.0 + i as real * 0.05);
    WidthAlgebra(c, r, 1.0 + i as real * 0.05, lr.stdError);
    assert 20.0 * (1.0 + i as real * 0.05) == (20 + i) as real;
    hide IsSqrt;
    assert c * c * (20.0 * (1.0 + i as real * 0.05)) == c * c * (20 + i) as real;
  }

  lemma WidthAlgebra(c: real, r: real, x: real, e: real)
    requires c > 0.0 && r >= 0.0 && r * r == x
    ensures c * r >= 0.0
    ensures 20.0 * (c * r) * (c * r) == c * c * (20.0 * x)
    ensures c * e * r == Mul(e, c * r)
  {
    var k := c * r;
    assert k * k == c * c * x;
  }

  lemma TimeOfStep(lr: LinearRegression, historyEnd: int, interval: int, i: nat)
    ensures Seconds(historyEnd - lr.origin) + i as real * Seconds(interval)
            == Seconds(historyEnd + interval * i - lr.origin)
  {
    assert i as real * interval as real == (interval * i) as real;
  }

  lemma LowerIs(x: real)
    ensures IsLower(if Trunc(x) < 0 then 0 else Trunc(x), x)
  {
  }

  lemma UpperIs(x: real, totalBytes: int)
    requires x >= 0.0
    ensures IsFloor(Trunc(x), x) && IsUpper(if Trunc(x) > totalBytes then totalBytes else Trunc(x), x, totalBytes)
  {
  }

  lemma LineOfStep(lr: LinearRegression, historyEnd: int, interval: int, i: nat)
    ensures Unrounded(lr, historyEnd, interval, i) == UsedAt(lr, historyEnd + interval * i)
    ensures Unrounded(lr, historyEnd, interval, i) >= 0.0
  {
    TimeOfStep(lr, historyEnd, interval, i);
    assert Seconds(historyEnd + interval * i - lr.origin)
           == (historyEnd + interval * i - lr.origin) as real / 1_000_000_000.0;
    hide Seconds;
  }

  lemma MarginSign(lr: LinearRegression, sqrt: real -> real, i: nat)
    requires IsSqrt(sqrt) && lr.stdError >= 0.0
    ensures Margin(lr, sqrt, i) >= 0.0
  {
    MarginNotNegative(if lr.rSquared < 0.5 then 2.5 else 1.96, lr.stdError, sqrt(1.0 + i as real * 0.05));
  }

  lemma PredictionFields(lr: LinearRegression, sqrt: real -> real, historyEnd: int, interval: int, i: nat,
                         totalBytes: int)
    ensures var p := PredictionAt(lr, sqrt, historyEnd, interval, i, totalBytes);
            var pred, margin := Unrounded(lr, historyEnd, interval, i), Margin(lr, sqrt, i);
            && p.timestamp == historyEnd + interval * i && p.predictedUsed == Trunc(pred)
            && p.lowerBound == (if Trunc(pred - margin) < 0 then 0 else Trunc(pred - margin))
            && p.upperBound == (if Trunc(pred + margin) > totalBytes then totalBytes else Trunc(pred + margin))
            && p.confidence == (if lr.rSquared > 1.0 then 1.0 else if lr.rSquared < 0.0 then 0.0 else lr.rSquared)
  {
    hide Unrounded, Margin, Trunc;
  }

  lemma PredictionPredicts(lr: LinearRegression, sqrt: real -> real, historyEnd: int, interval: int, i: nat,
                           totalBytes: int)
    requires IsSqrt(sqrt) && lr.stdError >= 0.0
    ensures Predicts(PredictionAt(lr, sqrt, historyEnd, interval, i, totalBytes), lr, historyEnd, interval, i,
                     totalBytes)
  {
    hide PredictionAt, Unrounded, UsedAt, Margin, Width, IsWidth, IsFloor, IsLower, IsUpper, Trunc, Mul, IsSqrt;
    var pred, margin := Unrounded(lr, historyEnd, interval, i), Margin(lr, sqrt, i);
    PredictionFields(lr, sqrt, historyEnd, interval, i, totalBytes);
    LineOfStep(lr, historyEnd, interval, i);
    WidthIs(lr, sqrt, i);
    MarginSign(lr, sqrt, i);
    LowerIs(pred - margin);
    UpperIs(pred, totalBytes);
    UpperIs(pred + margin, totalBytes);
    assert InBand(PredictionAt(lr, sqrt, historyEnd, interval, i, totalBytes), lr, i, totalBytes, Width(lr, sqrt, i));
  }

  method Predict(lr: LinearRegression, sqrt: real -> real, historyEnd: int, interval: int, i: nat, totalBytes: int)
    returns (p: Prediction)
    ensures p == PredictionAt(lr, sqrt, historyEnd, interval, i, totalBytes)
  {
    var ci := 1.96;
    if lr.rSquared < 0.5 {
      ci := 2.5;
    }
    var pred := LineAt(lr, Seconds(historyEnd - lr.origin) + i as real * Seconds(interval));
    if pred < 0.0 {
      pred := 0.0;
    }
    var margin := ci * lr.stdError * sqrt(1.0 + i as real * 0.05);
    assert pred == Unrounded(lr, historyEnd, interval, i) && margin == Margin(lr, sqrt, i);
    hide Unrounded, Margin, Trunc, LineAt, Seconds;
    var lo, hi := Trunc(pred - margin), Trunc(pred + margin);
    if lo < 0 {
      lo := 0;
    }
    if hi > totalBytes {
      hi := totalBytes;
    }
    var confidence := Min(1.0, lr.rSquared);
    if confidence < 0.0 {
      confidence := 0.0;
    }
    p := Prediction(historyEnd + interval * i, Trunc(pred), lo, hi, confidence);
  }

  method Project(fit: Option<LinearRegression>, sqrt: real -> real, historyEnd: int, interval: int,
                 count: int, totalBytes: int)
    returns (out: seq<Prediction>)
    ensures fit == None || fit.value.slope <= 0.0 || count <= 0 ==> out == []
    ensures fit.Some? && fit.value.slope > 0.0 && count > 0 ==>
              && |out| == count
              && forall i :: 1 <= i <= count ==>
                   out[i - 1] == PredictionAt(fit.value, sqrt, historyEnd, interval, i, totalBytes)
    ensures fit.Some? && fit.value.slope > 0.0 && count > 0 && IsSqrt(sqrt) && fit.value.stdError >= 0.0 ==>
              forall n :: 0 <= n < count ==> Predicts(out[n], fit.value, historyEnd, interval, n + 1, totalBytes)
  {
    hide PredictionAt, Predicts, IsSqrt;
    out := [];
    if fit == None || fit.value.slope <= 0.0 || count <= 0 {
      return;
    }
    var i := 1;
    while i <= count
      invariant 1 <= i <= count + 1 && |out| == i - 1
      invariant forall k :: 1 <= k < i ==>
                  out[k - 1] == PredictionAt(fit.value, sqrt, historyEnd, interval, k, totalBytes)
    {
      var p := Predict(fit.value, sqrt, historyEnd, interval, i, totalBytes);
      out := out + [p];
      i := i + 1;
    }
    if IsSqrt(sqrt) && fit.value.stdError >= 0.0 {
      forall n | 0 <= n < count
        ensures Predicts(out[n], fit.value, historyEnd, interval, n + 1, totalBytes)
      {
        PredictionPredicts(fit.value, sqrt, historyEnd, interval, n + 1, totalBytes);
        assert out[n + 1 - 1] == PredictionAt(fit.value, sqrt, historyEnd, interval, n + 1, totalBytes);
      }
    }
  }

  /** The band holds the prediction, up to the clip at the pool size, and is in order unless
      even its lower end is beyond that size; a fit's confidence needs no clamping. */
  lemma BandHoldsPrediction(lr: LinearRegression, sqrt: real -> real, historyEnd: int, interval: int,
                            i: nat, totalBytes: int)
    requires IsSqrt(sqrt) && lr.stdError >= 0.0
    ensures var f := PredictionAt(lr, sqrt, historyEnd, interval, i, totalBytes);
            && 0 <= f.lowerBound <= f.predictedUsed
            && f.upperBound <= totalBytes
            && (f.predictedUsed <= f.upperBound <==> f.predictedUsed <= totalBytes)
            && (f.lowerBound <= f.upperBound <==> f.lowerBound <= totalBytes)
            && (0.0 <= lr.rSquared <= 1.0 ==> f.confidence == lr.rSquared)
  {
    var pred, margin := Unrounded(lr, historyEnd, interval, i), Margin(lr, sqrt, i);
    MarginNotNegative(if lr.rSquared < 0.5 then 2.5 else 1.96, lr.stdError, sqrt(1.0 + i as real * 0.05));
    TruncMonotone(pred - margin, pred);
    TruncMonotone(pred, pred + margin);
    TruncMonotone(0.0, pred);
  }

  lemma MarginNotNegative(ci: real, e: real, r: real)
    requires ci >= 0.0 && e >= 0.0 && r >= 0.0
    ensures ci * e * r >= 0.0
  {
    assert ci * e >= 0.0;
  }

  /** Looking further ahead never narrows the band. */
  lemma MarginWidens(lr: LinearRegression, sqrt: real -> real, i: nat, j: nat)
    requires IsSqrt(sqrt) && lr.stdError >= 0.0 && i <= j
    ensures Margin(lr, sqrt, i) <= Margin(lr, sqrt, j)
  {
    var x, y := sqrt(1.0 + i as real * 0.05), sqrt(1.0 + j as real * 0.05);
    if x > y {
      var d, e := x - y, x + y;
      assert d * e > 0.0;
      assert d * e == x * x - y * y;
    }
    var k := (if lr.rSquared < 0.5 then 2.5 else 1.96) * lr.stdError;
    assert k >= 0.0;
    assert k * (y - x) >= 0.0;
  }

  /** The projection and the days-to-target answer agree: for a positive target the i-th
      prediction reaches it exactly when i intervals are at least that many days. */
  lemma ProjectionMatchesDays(lr: LinearRegression, historyEnd: int, interval: int, i: nat, totalBytes: int, pct: real)
    requires lr.slope > 0.0 && Target(totalBytes, pct) > 0.0
    ensures var days := DaysUntilFull(Some(lr), historyEnd, totalBytes, pct).value;
            days > 0.0 || interval >= 0 ==>
              (Unrounded(lr, historyEnd, interval, i) >= Target(totalBytes, pct)
               <==> i as real * Seconds(interval) >= days * 86400.0)
  {
    var target, now := Target(totalBytes, pct), Seconds(historyEnd - lr.origin);
    var ahead := i as real * Seconds(interval);
    DaysInvertFit(lr, historyEnd, totalBytes, pct, ahead / 86400.0);
    LineMoves(lr, now, ahead);
    if interval >= 0 {
      assert ahead >= 0.0;
      assert lr.slope * ahead >= 0.0;
    }
  }

  /** So for a target of whole bytes do the numbers that Project returns. */
  lemma PredictedUsedMatchesDays(p: Prediction, lr: LinearRegression, historyEnd: int, interval: int, i: nat,
                                 totalBytes: int, pct: real, bytes: int)
    requires lr.slope > 0.0 && bytes > 0 && Target(totalBytes, pct) == bytes as real
    requires Predicts(p, lr, historyEnd, interval, i, totalBytes)
    ensures var days := DaysUntilFull(Some(lr), historyEnd, totalBytes, pct).value;
            days > 0.0 || interval >= 0 ==>
              (p.predictedUsed >= bytes <==> i as real * Seconds(interval) >= days * 86400.0)
  {
    ProjectionMatchesDays(lr, historyEnd, interval, i, totalBytes, pct);
    LineOfStep(lr, historyEnd, interval, i);
    FloorReaches(p.predictedUsed, Unrounded(lr, historyEnd, interval, i), bytes);
    hide *;
  }

  lemma FloorReaches(n: int, x: real, m: int)
    requires IsFloor(n, x)
    ensures n >= m <==> x >= m as real
  {
  }
}
