/** Drive health: the capped risk score, and the days to failure extrapolated from the
    regression slope of the error totals. */
module VdevHealth {
  import opened Prelude
  import opened Moments

  datatype Sample = Sample(
    timestamp: int, state: string, readErrors: int, writeErrors: int, cksumErrors: int,
    latency99: int, reallocated: int, pendingSect: int)

  datatype Recommendation = InsufficientData | Replace | Investigate | Healthy
  datatype SmartIssue = ReallocatedSectors(n: int) | PendingSectors(n: int)

  datatype HealthMetric = HealthMetric(
    errorRate: real, latencyTrend: real, riskScore: real, recommendation: Recommendation,
    smartIssues: seq<SmartIssue>, daysToFailure: int)

  function TotalErrors(s: Sample): int { s.readErrors + s.writeErrors + s.cksumErrors }

  // ---- estimateDTF ----

  function Totals(samples: seq<Sample>): (r: seq<real>)
    ensures |r| == |samples| && forall i :: 0 <= i < |r| ==> r[i] == TotalErrors(samples[i]) as real
  {
    seq(|samples|, i requires 0 <= i < |samples| => TotalErrors(samples[i]) as real)
  }

  /** The regression slope of the error totals over the sample index. */
  function Slope(samples: seq<Sample>): real
    requires |samples| >= 2
  {
    IndicesSpread(|samples|);
    Spread(Indices(|samples|), Totals(samples)) / Spread(Indices(|samples|), Indices(|samples|))
  }

  lemma IndicesSpread(n: nat)
    requires n >= 2
    ensures Spread(Indices(n), Indices(n)) > 0.0
  {
    SpreadPositive(Indices(n), 0, 1);
  }

  /** Days until 100 errors at the current slope; -1 for no prediction. */
  function DaysToFailure(samples: seq<Sample>): int {
    if |samples| < 2 || Slope(samples) <= 0.0 then -1 else
    var remaining := 100.0 - TotalErrors(samples[|samples| - 1]) as real;
    if remaining <= 0.0 then 1 else
    var interval := samples[1].timestamp - samples[0].timestamp;
    Quotient(Trunc(remaining / Slope(samples)) * interval, DAY)
  }

  /** The accumulators of the loop. */
  method Accumulate(samples: seq<Sample>) returns (sumX: real, sumY: real, sumXY: real, sumX2: real)
    ensures var xs, ys := Indices(|samples|), Totals(samples);
            && sumX == Sum(xs) && sumY == Sum(ys)
            && sumXY == Dot(xs, ys) && sumX2 == Dot(xs, xs)
  {
    hide Mul, Times, Totals, Indices;
    ghost var xs, ys := Indices(|samples|), Totals(samples);
    ghost var xy, xx := Times(xs, ys), Times(xs, xs);
    sumX, sumY, sumXY, sumX2 := 0.0, 0.0, 0.0, 0.0;
    for i := 0 to |samples|
      invariant sumX == Sum(xs[..i]) && sumY == Sum(ys[..i])
      invariant sumXY == Sum(xy[..i]) && sumX2 == Sum(xx[..i])
    {
      var x, y := i as real, TotalErrors(samples[i]) as real;
      sumX, sumY, sumXY, sumX2 := sumX + x, sumY + y, sumXY + Mul(x, y), sumX2 + Mul(x, x);
      SumNext(xs, i);
      SumNext(ys, i);
      SumNext(xy, i);
      SumNext(xx, i);
    }
    assert xs[..|xs|] == xs && ys[..|xs|] == ys && xy[..|xs|] == xy && xx[..|xs|] == xx;
  }

  /** What the answer says: the whole steps, of the interval between the first two samples,
      that the slope leaves until a hundred errors, in whole days. */
  ghost predicate Extrapolates(samples: seq<Sample>, days: int)
    requires |samples| >= 2
  {
    var last, a := samples[|samples| - 1], Slope(samples);
    var errors, d := last.readErrors + last.writeErrors + last.cksumErrors, samples[1].timestamp - samples[0].timestamp;
    if a <= 0.0 then days == -1
    else if errors >= 100 then days == 1
    else d >= 0 ==> exists k: int :: StepsLeft(a, 100 - errors, k) && WholeDays(k * d, days)
  }

  /** k is the number of whole steps of a in what is left. */
  ghost predicate StepsLeft(a: real, left: int, k: int) { k as real * a <= left as real < (k + 1) as real * a }

  ghost predicate WholeDays(nanoseconds: int, days: int) {
    days * 86_400_000_000_000 <= nanoseconds < (days + 1) * 86_400_000_000_000
  }

  lemma DaysExtrapolate(samples: seq<Sample>)
    requires |samples| >= 2
    ensures Extrapolates(samples, DaysToFailure(samples))
  {
    var last, a := samples[|samples| - 1], Slope(samples);
    var left, d := 100 - TotalErrors(last), samples[1].timestamp - samples[0].timestamp;
    hide Slope;
    if a > 0.0 && left > 0 {
      var k := Trunc(left as real / a);
      StepsOf(a, left);
      if d >= 0 {
        StepsNotNegative(k, d);
        DaysOf(k * d);
        assert StepsLeft(a, left, k) && WholeDays(k * d, DaysToFailure(samples));
      }
    }
  }

  lemma StepsOf(a: real, left: int)
    requires a > 0.0 && left > 0
    ensures Trunc(left as real / a) >= 0 && StepsLeft(a, left, Trunc(left as real / a))
  {
    var q := left as real / a;
    assert q * a == left as real;
    PositiveFactor(a, q);
    var k := q.Floor;
    ProductOrder(a, k as real, q);
    ProductOrder(a, q, (k + 1) as real);
  }

  lemma DaysOf(n: int)
    requires n >= 0
    ensures WholeDays(n, Quotient(n, DAY))
  {
  }

  method EstimateDTF(samples: seq<Sample>) returns (days: int)
    ensures days == DaysToFailure(samples)
    ensures if |samples| < 2 then days == -1 else Extrapolates(samples, days)
  {
    hide Mul, Times, Totals, Indices;
    if |samples| >= 2 {
      DaysExtrapolate(samples);
    }
    hide Extrapolates;
    if |samples| < 2 {
      return -1;
    }
    var n := |samples| as real;
    var sumX, sumY, sumXY, sumX2 := Accumulate(samples);
    IndicesSpread(|samples|);
    var denom := Mul(n, sumX2) - Mul(sumX, sumX);
    if denom == 0.0 {
      assert false;
    }
    var slope := (Mul(n, sumXY) - Mul(sumX, sumY)) / denom;
    if slope <= 0.0 {
      return -1;
    }
    var remaining := 100.0 - TotalErrors(samples[|samples| - 1]) as real;
    if remaining <= 0.0 {
      return 1;
    }
    var interval := samples[1].timestamp - samples[0].timestamp;
    return Quotient(Trunc(remaining / slope) * interval, DAY);
  }

  /** The slope is that of the line which fits the totals best, for one intercept. */
  lemma SlopeIsLeastSquares(samples: seq<Sample>)
    requires |samples| >= 2
    ensures exists b :: BestLine(Indices(|samples|), Totals(samples), Slope(samples), b)
  {
    hide Mul, Times, Totals, Indices, CramerIntercept;
    var n := |samples|;
    var xs, ys := Indices(n), Totals(samples);
    IndicesSpread(n);
    var b := CramerIntercept(n as real, Sum(xs), Sum(ys), Slope(samples));
    CramerSolves(n as real, Sum(xs), Sum(ys), Dot(xs, xs), Dot(xs, ys));
    NormalIsBest(xs, ys, Slope(samples), b, 0, 1);
    assert BestLine(xs, ys, Slope(samples), b);
  }

  lemma QuotientOfPositive(p: real, q: real)
    requires q > 0.0
    ensures p / q > 0.0 <==> p > 0.0
  {
    assert p / q * q == p;
    PositiveFactor(q, p / q);
  }

  /** With samples in time order, "no prediction" means too few samples or totals that do
      not trend upwards, and nothing else. */
  lemma NoPredictionIff(samples: seq<Sample>)
    requires |samples| >= 2 ==> samples[0].timestamp <= samples[1].timestamp
    ensures DaysToFailure(samples) == -1
            <==> |samples| < 2 || Spread(Indices(|samples|), Totals(samples)) <= 0.0
    ensures DaysToFailure(samples) >= -1
  {
    hide Mul, Times, Totals, Indices, Spread;
    if |samples| >= 2 {
      var xs := Indices(|samples|);
      IndicesSpread(|samples|);
      QuotientOfPositive(Spread(xs, Totals(samples)), Spread(xs, xs));
      if Slope(samples) > 0.0 {
        var remaining := 100.0 - TotalErrors(samples[|samples| - 1]) as real;
        if remaining > 0.0 {
          QuotientOfPositive(remaining, Slope(samples));
          StepsNotNegative(Trunc(remaining / Slope(samples)), samples[1].timestamp - samples[0].timestamp);
        }
      }
    }
  }

  lemma StepsNotNegative(steps: int, interval: int)
    requires steps >= 0 && interval >= 0
    ensures Quotient(steps * interval, DAY) >= 0
  {
    assert steps * interval >= 0;
  }

  /** A drive whose error total never fell and has risen always gets a prediction. */
  lemma WorseningDrivePredicted(samples: seq<Sample>)
    requires |samples| >= 2 && samples[0].timestamp <= samples[1].timestamp
    requires forall i, j :: 0 <= i < j < |samples| ==> TotalErrors(samples[i]) <= TotalErrors(samples[j])
    requires TotalErrors(samples[0]) < TotalErrors(samples[|samples| - 1])
    ensures Slope(samples) > 0.0 && DaysToFailure(samples) >= 0
  {
    hide Mul, Times, Totals, Indices;
    var xs, ys := Indices(|samples|), Totals(samples);
    Chebyshev(xs, ys);
    IndicesSpread(|samples|);
    QuotientOfPositive(Spread(xs, ys), Spread(xs, xs));
    NoPredictionIff(samples);
  }

  /** A total that rises by g with every sample has slope g, so that its answer is the whole
      steps of g that are left, in whole days. */
  lemma SteadyRise(samples: seq<Sample>, g: int)
    requires |samples| >= 2 && g > 0 && samples[0].timestamp <= samples[1].timestamp
    requires forall i :: 0 <= i < |samples| ==> TotalErrors(samples[i]) == TotalErrors(samples[0]) + i * g
    requires TotalErrors(samples[|samples| - 1]) < 100
    ensures var left, d := 100 - TotalErrors(samples[|samples| - 1]), samples[1].timestamp - samples[0].timestamp;
            Slope(samples) == g as real && WholeDays(left / g * d, DaysToFailure(samples))
  {
    SteadySlope(samples, g);
    DaysExtrapolate(samples);
    hide Slope, DaysToFailure, Extrapolates, WholeDays;
    SteadyDays(samples, g, DaysToFailure(samples));
  }

  lemma SteadySlope(samples: seq<Sample>, g: int)
    requires |samples| >= 2
    requires forall i :: 0 <= i < |samples| ==> TotalErrors(samples[i]) == TotalErrors(samples[0]) + i * g
    ensures Slope(samples) == g as real
  {
    hide Slope, TotalErrors;
    forall i | 0 <= i < |samples|
      ensures TotalErrors(samples[i]) as real == TotalErrors(samples[0]) as real + i as real * g as real
    {
      ProductAsReal(i, g);
    }
    SlopeOfLine(samples, g as real);
  }

  lemma ProductAsReal(i: int, g: int)
    ensures (i * g) as real == i as real * g as real
  {
  }

  lemma SteadyDays(samples: seq<Sample>, g: int, days: int)
    requires |samples| >= 2 && g > 0 && samples[0].timestamp <= samples[1].timestamp
    requires TotalErrors(samples[|samples| - 1]) < 100
    requires Slope(samples) == g as real && Extrapolates(samples, days)
    ensures var left, d := 100 - TotalErrors(samples[|samples| - 1]), samples[1].timestamp - samples[0].timestamp;
            WholeDays(left / g * d, days)
  {
    var left, d := 100 - TotalErrors(samples[|samples| - 1]), samples[1].timestamp - samples[0].timestamp;
    hide Slope, StepsLeft, WholeDays;
    var k: int :| StepsLeft(g as real, left, k) && WholeDays(k * d, days);
    WholeSteps(left, g, k);
  }

  lemma WholeSteps(left: int, g: int, k: int)
    requires g > 0 && left > 0 && StepsLeft(g as real, left, k)
    ensures k == left / g
  {
    assert k as real * g as real == (k * g) as real && (k + 1) as real * g as real == ((k + 1) * g) as real;
    assert k * g <= left < (k + 1) * g;
    QuotientUnique(left, g, k);
  }

  lemma QuotientUnique(n: int, g: int, k: int)
    requires g > 0 && k * g <= n < (k + 1) * g
    ensures k == n / g
  {
    var q := n / g;
    assert q * g <= n < (q + 1) * g;
    FactorOrder(k, q + 1, g);
    FactorOrder(q, k + 1, g);
  }

  lemma FactorOrder(a: int, b: int, g: int)
    requires g > 0
    ensures a * g < b * g <==> a < b
  {
    if a < b {
      assert (b - a) * g > 0;
    } else {
      assert (a - b) * g >= 0;
    }
  }

  lemma SlopeOfLine(samples: seq<Sample>, g: real)
    requires |samples| >= 2
    requires forall i :: 0 <= i < |samples| ==>
               TotalErrors(samples[i]) as real == TotalErrors(samples[0]) as real + i as real * g
    ensures Slope(samples) == g
  {
    var xs, ys, c := Indices(|samples|), Totals(samples), TotalErrors(samples[0]) as real;
    SlopeIsLeastSquares(samples);
    NothingLeft(samples, g, c);
    hide Slope, Indices, Totals, Sse, Residuals, TotalErrors;
    var b :| BestLine(xs, ys, Slope(samples), b);
    SseNotNegative(xs, ys, Slope(samples), b);
    assert Sse(xs, ys, Slope(samples), b) <= Sse(xs, ys, g, c);
  }

  lemma NothingLeft(samples: seq<Sample>, g: real, c: real)
    requires forall i :: 0 <= i < |samples| ==> TotalErrors(samples[i]) as real == c + i as real * g
    ensures Sse(Indices(|samples|), Totals(samples), g, c) == 0.0
  {
    var xs, ys := Indices(|samples|), Totals(samples);
    var e := Residuals(xs, ys, g, c);
    hide Residuals, Indices, Totals, Mul, Times;
    forall k | 0 <= k < |e| ensures Times(e, e)[k] == 0.0 {
      NoResidual(ys[k], g, xs[k], c);
    }
    SumOfSame(Times(e, e), 0.0);
  }

  lemma NoResidual(y: real, g: real, x: real, c: real)
    requires y == c + x * g
    ensures var e := y - (Mul(g, x) + c); e == 0.0 && Mul(e, e) == 0.0
  {
  }

  // ---- computeMetric ----

  function Latencies(samples: seq<Sample>): (r: seq<real>)
    ensures |r| == |samples| && forall i :: 0 <= i < |r| ==> r[i] == samples[i].latency99 as real
  {
    seq(|samples|, i requires 0 <= i < |samples| => samples[i].latency99 as real)
  }

  function MeanLatency(samples: seq<Sample>): real {
    if samples == [] then 0.0 else Sum(Latencies(samples)) / |samples| as real
  }

  method AvgLatency(samples: seq<Sample>) returns (avg: real)
    ensures avg == MeanLatency(samples)
  {
    if samples == [] {
      return 0.0;
    }
    var sum := 0.0;
    ghost var ls := Latencies(samples);
    for i := 0 to |samples|
      invariant sum == Sum(ls[..i])
    {
      sum := sum + samples[i].latency99 as real;
      SumNext(ls, i);
    }
    assert ls[..|ls|] == ls;
    avg := sum / |samples| as real;
  }

  /** The trend is the growth, in percent, from the mean latency of the first quarter of the
      samples to that of the last; zero when there is no quarter or no latency to grow from. */
  ghost predicate IsTrend(samples: seq<Sample>, trend: real) {
    var n := |samples|;
    if n < 4 then trend == 0.0 else
    IsGrowth(MeanLatency(samples[..n / 4]), MeanLatency(samples[3 * n / 4..]), trend)
  }

  /** By how many percent q4 exceeds q1. */
  ghost predicate IsGrowth(q1: real, q4: real, trend: real) {
    if q1 > 0.0 then (100.0 + trend) * q1 == 100.0 * q4 else trend == 0.0
  }

  function ChecksumRisk(n: int): real { if n > 0 then Min(n as real * 10.0, 40.0) else 0.0 }
  function ReadWriteRisk(r: int, w: int): real { if r > 0 || w > 0 then Min((r + w) as real * 5.0, 30.0) else 0.0 }
  function TrendRisk(trend: real): real { if trend > 50.0 then 20.0 else if trend > 20.0 then 10.0 else 0.0 }
  function ReallocatedRisk(n: int): real { if n > 0 then Min(n as real * 2.0, 20.0) else 0.0 }
  function PendingRisk(n: int): real { if n > 0 then Min(n as real * 5.0, 20.0) else 0.0 }
  predicate NotOnline(state: string) { state != "ONLINE" && state != "" }

  /** What the counters and the trend say, before the pool's own view of the drive is added. */
  function SignalRisk(s: Sample, trend: real): real {
    ChecksumRisk(s.cksumErrors) + ReadWriteRisk(s.readErrors, s.writeErrors) + TrendRisk(trend)
    + ReallocatedRisk(s.reallocated) + PendingRisk(s.pendingSect)
  }

  function Risk(s: Sample, trend: real): real {
    Min(SignalRisk(s, trend) + (if NotOnline(s.state) then 30.0 else 0.0), 100.0)
  }

  function Advice(risk: real): Recommendation {
    if risk >= 70.0 then Replace else if risk >= 40.0 then Investigate else Healthy
  }

  function Issues(s: Sample): seq<SmartIssue> {
    (if s.reallocated > 0 then [ReallocatedSectors(s.reallocated)] else [])
    + (if s.pendingSect > 0 then [PendingSectors(s.pendingSect)] else [])
  }

  method LatencyTrend(samples: seq<Sample>) returns (trend: real)
    ensures IsTrend(samples, trend)
  {
    hide MeanLatency;
    trend := 0.0;
    var n := |samples|;
    if n >= 4 {
      var q1 := AvgLatency(samples[..n / 4]);
      var q4 := AvgLatency(samples[3 * n / 4..]);
      if q1 > 0.0 {
        trend := (q4 - q1) / q1 * 100.0;
        GrowthInPercent(q1, q4);
      }
    }
  }

  method Score(last: Sample, trend: real) returns (score: real, issues: seq<SmartIssue>)
    ensures score == Risk(last, trend) && issues == Issues(last)
  {
    score, issues := 0.0, [];
    if last.cksumErrors > 0 {
      score := score + Min(last.cksumErrors as real * 10.0, 40.0);
    }
    assert score == ChecksumRisk(last.cksumErrors);
    if last.readErrors > 0 || last.writeErrors > 0 {
      score := score + Min((last.readErrors + last.writeErrors) as real * 5.0, 30.0);
    }
    assert score == ChecksumRisk(last.cksumErrors) + ReadWriteRisk(last.readErrors, last.writeErrors);
    ghost var errors := score;
    if trend > 50.0 {
      score := score + 20.0;
    } else if trend > 20.0 {
      score := score + 10.0;
    }
    assert score == errors + TrendRisk(trend);
    if last.reallocated > 0 {
      score := score + Min(last.reallocated as real * 2.0, 20.0);
      issues := issues + [ReallocatedSectors(last.reallocated)];
    }
    assert score == errors + TrendRisk(trend) + ReallocatedRisk(last.reallocated);
    if last.pendingSect > 0 {
      score := score + Min(last.pendingSect as real * 5.0, 20.0);
      issues := issues + [PendingSectors(last.pendingSect)];
    }
    assert score == SignalRisk(last, trend);
    if NotOnline(last.state) {
      score := score + 30.0;
    }
    score := Min(score, 100.0);
  }

  function Capped(limit: int, points: int): int { if points > limit then limit else points }

  /** Ten points for a checksum error, five for another, two for a reallocated and five for a
      pending sector, each kind up to a limit of its own; for a latency that has grown by more
      than a fifth ten, by more than a half twenty; thirty for being offline; at most a hundred. */
  function Points(s: Sample, trend: real): int {
    Capped(100, Capped(40, 10 * s.cksumErrors) + Capped(30, 5 * (s.readErrors + s.writeErrors))
                + Capped(20, 2 * s.reallocated) + Capped(20, 5 * s.pendingSect)
                + (if trend > 50.0 then 20 else if trend > 20.0 then 10 else 0)
                + (if s.state == "ONLINE" || s.state == "" then 0 else 30))
  }

  /** What a metric says of the last sample. */
  ghost predicate Scores(m: HealthMetric, s: Sample) {
    && m.errorRate == (s.readErrors + s.writeErrors + s.cksumErrors) as real
    && (CountersOk(s) ==> m.riskScore == Points(s, m.latencyTrend) as real)
    && (m.recommendation == Replace <==> m.riskScore >= 70.0)
    && (m.recommendation == Investigate <==> 40.0 <= m.riskScore < 70.0)
    && (m.recommendation == Healthy <==> m.riskScore < 40.0)
    && Reports(m.smartIssues, s)
  }

  ghost predicate Reports(issues: seq<SmartIssue>, s: Sample) {
    && (forall n :: ReallocatedSectors(n) in issues <==> n == s.reallocated && n > 0)
    && (forall n :: PendingSectors(n) in issues <==> n == s.pendingSect && n > 0)
    && |issues| == (if s.reallocated > 0 then 1 else 0) + (if s.pendingSect > 0 then 1 else 0)
  }

  lemma IssuesReport(s: Sample)
    ensures Reports(Issues(s), s)
  {
  }

  lemma RiskInPoints(s: Sample, trend: real)
    requires CountersOk(s)
    ensures Risk(s, trend) == Points(s, trend) as real
  {
    assert ChecksumRisk(s.cksumErrors) == Capped(40, 10 * s.cksumErrors) as real;
    assert ReadWriteRisk(s.readErrors, s.writeErrors) == Capped(30, 5 * (s.readErrors + s.writeErrors)) as real;
    assert ReallocatedRisk(s.reallocated) == Capped(20, 2 * s.reallocated) as real;
    assert PendingRisk(s.pendingSect) == Capped(20, 5 * s.pendingSect) as real;
    hide ChecksumRisk, ReadWriteRisk, ReallocatedRisk, PendingRisk;
  }

  lemma MetricScores(m: HealthMetric, s: Sample)
    requires m.errorRate == TotalErrors(s) as real && m.riskScore == Risk(s, m.latencyTrend)
    requires m.recommendation == Advice(m.riskScore) && m.smartIssues == Issues(s)
    ensures Scores(m, s)
  {
    if CountersOk(s) {
      RiskInPoints(s, m.latencyTrend);
    }
    IssuesReport(s);
    hide Risk, Points, CountersOk, Issues, Reports;
  }

  method ComputeMetric(samples: seq<Sample>) returns (m: HealthMetric)
    ensures samples == [] ==> m == HealthMetric(0.0, 0.0, 0.0, InsufficientData, [], 0)
    ensures samples != [] ==>
              var last := samples[|samples| - 1];
              && m.errorRate == TotalErrors(last) as real
              && IsTrend(samples, m.latencyTrend)
              && m.riskScore == Risk(last, m.latencyTrend)
              && m.recommendation == Advice(m.riskScore)
              && m.smartIssues == Issues(last)
              && m.daysToFailure == (if m.riskScore >= 40.0 then DaysToFailure(samples) else 0)
              && (NotOnline(last.state) && CountersOk(last) ==>
                    (m.recommendation == Healthy <==> BarelyDamaged(last, m.latencyTrend)))
              && Scores(m, last)
              && (m.riskScore < 40.0 ==> m.daysToFailure == 0)
              && (m.riskScore >= 40.0 && |samples| >= 2 ==> Extrapolates(samples, m.daysToFailure))
  {
    hide IsTrend, Risk, Issues, DaysToFailure, Scores, Extrapolates;
    m := HealthMetric(0.0, 0.0, 0.0, InsufficientData, [], 0);
    if samples == [] {
      return;
    }
    var last := samples[|samples| - 1];
    var trend := LatencyTrend(samples);
    if CountersOk(last) {
      OfflineDriveCalledHealthyIff(last, trend);
    }
    var score, issues := Score(last, trend);
    m := m.(errorRate := TotalErrors(last) as real, latencyTrend := trend, riskScore := score, smartIssues := issues);
    if m.riskScore >= 70.0 {
      var days := EstimateDTF(samples);
      m := m.(recommendation := Replace, daysToFailure := days);
    } else if m.riskScore >= 40.0 {
      var days := EstimateDTF(samples);
      m := m.(recommendation := Investigate, daysToFailure := days);
    } else {
      m := m.(recommendation := Healthy);
    }
    MetricScores(m, last);
  }

  lemma GrowthInPercent(q1: real, q4: real)
    ensures q1 > 0.0 ==> (100.0 + (q4 - q1) / q1 * 100.0) * q1 == 100.0 * q4
  {
    if q1 > 0.0 {
      assert (q4 - q1) / q1 * q1 == q4 - q1;
    }
  }

  /** With one latency in the first quarter of the samples and one in the last, the trend is the
      growth from one to the other in percent; of fewer than four samples it is 0. */
  lemma TrendOfQuarters(samples: seq<Sample>, trend: real, a: nat, b: nat)
    requires IsTrend(samples, trend)
    ensures |samples| < 4 ==> trend == 0.0
    ensures |samples| >= 4
            && (forall i :: 0 <= i < |samples| / 4 ==> samples[i].latency99 == a)
            && (forall i :: 3 * |samples| / 4 <= i < |samples| ==> samples[i].latency99 == b) ==>
              if a == 0 then trend == 0.0 else (100.0 + trend) * a as real == 100.0 * b as real
  {
    var n := |samples|;
    assert n >= 4 ==> IsGrowth(MeanLatency(samples[..n / 4]), MeanLatency(samples[3 * n / 4..]), trend);
    hide MeanLatency, IsGrowth;
    if n >= 4 && (forall i :: 0 <= i < n / 4 ==> samples[i].latency99 == a)
       && (forall i :: 3 * n / 4 <= i < n ==> samples[i].latency99 == b) {
      SteadyLatency(samples[..n / 4], a);
      SteadyLatency(samples[3 * n / 4..], b);
      GrowthOf(a, b, trend);
    }
  }

  lemma GrowthOf(a: nat, b: nat, trend: real)
    requires IsGrowth(a as real, b as real, trend)
    ensures if a == 0 then trend == 0.0 else (100.0 + trend) * a as real == 100.0 * b as real
  {
  }

  predicate CountersOk(s: Sample) {
    s.readErrors >= 0 && s.writeErrors >= 0 && s.cksumErrors >= 0 && s.reallocated >= 0 && s.pendingSect >= 0
  }

  /** s' shows at least the damage that s shows. */
  predicate NoBetter(s: Sample, s': Sample) {
    && s.readErrors <= s'.readErrors && s.writeErrors <= s'.writeErrors && s.cksumErrors <= s'.cksumErrors
    && s.reallocated <= s'.reallocated && s.pendingSect <= s'.pendingSect
    && (NotOnline(s.state) ==> NotOnline(s'.state))
  }

  lemma SignalsMonotone(s: Sample, s': Sample, trend: real, trend': real)
    requires CountersOk(s) && NoBetter(s, s') && trend <= trend'
    ensures 0.0 <= SignalRisk(s, trend) <= SignalRisk(s', trend')
  {
    assert 0.0 <= ChecksumRisk(s.cksumErrors) <= ChecksumRisk(s'.cksumErrors);
    assert 0.0 <= ReadWriteRisk(s.readErrors, s.writeErrors) <= ReadWriteRisk(s'.readErrors, s'.writeErrors);
    assert 0.0 <= TrendRisk(trend) <= TrendRisk(trend');
    assert 0.0 <= ReallocatedRisk(s.reallocated) <= ReallocatedRisk(s'.reallocated);
    assert 0.0 <= PendingRisk(s.pendingSect) <= PendingRisk(s'.pendingSect);
  }

  /** The score is a percentage that more damage never lowers, so more damage never turns a
      warning into an all-clear. */
  lemma RiskMonotone(s: Sample, s': Sample, trend: real, trend': real)
    requires CountersOk(s) && NoBetter(s, s') && trend <= trend'
    ensures 0.0 <= Risk(s, trend) <= Risk(s', trend') <= 100.0
    ensures Advice(Risk(s, trend)) == Replace ==> Advice(Risk(s', trend')) == Replace
    ensures Advice(Risk(s', trend')) == Healthy ==> Advice(Risk(s, trend)) == Healthy
  {
    hide SignalRisk;
    SignalsMonotone(s, s', trend, trend');
  }

  /** No checksum error, no marked rise in latency, and at most one other small defect: one
      read or write error and up to two reallocated sectors, or up to four of these, or one
      pending sector and up to two of these. */
  predicate BarelyDamaged(s: Sample, trend: real) {
    && s.cksumErrors == 0 && trend <= 20.0
    && 5 * (s.readErrors + s.writeErrors) + 2 * s.reallocated + 5 * s.pendingSect < 10
  }

  /** Being offline scores only 30, below every threshold: a drive that is not online is called
      healthy exactly while it is barely damaged. */
  lemma OfflineDriveCalledHealthyIff(s: Sample, trend: real)
    requires CountersOk(s)
    ensures NotOnline(s.state) ==> (Advice(Risk(s, trend)) == Healthy <==> BarelyDamaged(s, trend))
  {
    SignalsBelowTen(s, trend);
  }

  lemma SignalsBelowTen(s: Sample, trend: real)
    requires CountersOk(s)
    ensures SignalRisk(s, trend) < 10.0 <==> BarelyDamaged(s, trend)
  {
    assert ChecksumRisk(s.cksumErrors) < 10.0 <==> s.cksumErrors == 0;
    assert TrendRisk(trend) < 10.0 <==> trend <= 20.0;
    var rw, re, pe := s.readErrors + s.writeErrors, s.reallocated, s.pendingSect;
    assert rw < 2 ==> ReadWriteRisk(s.readErrors, s.writeErrors) == (5 * rw) as real;
    assert rw >= 2 ==> ReadWriteRisk(s.readErrors, s.writeErrors) >= 10.0;
    assert re < 5 ==> ReallocatedRisk(re) == (2 * re) as real;
    assert re >= 5 ==> ReallocatedRisk(re) >= 10.0;
    assert pe < 2 ==> PendingRisk(pe) == (5 * pe) as real;
    assert pe >= 2 ==> PendingRisk(pe) >= 10.0;
  }

  /** So a drive that has been FAULTED in every sample, and is otherwise quiet, is called healthy. */
  lemma FaultedDriveCalledHealthy(samples: seq<Sample>, trend: real, latency: nat)
    requires samples != [] && IsTrend(samples, trend)
    requires forall i :: 0 <= i < |samples| ==>
               samples[i] == Sample(samples[i].timestamp, "FAULTED", 0, 0, 0, latency, 0, 0)
    ensures Advice(Risk(samples[|samples| - 1], trend)) == Healthy
  {
    var n, l := |samples|, latency as real;
    if n >= 4 {
      SteadyLatency(samples[..n / 4], latency);
      SteadyLatency(samples[3 * n / 4..], latency);
      assert l > 0.0 ==> (100.0 + trend) * l == 100.0 * l;
      NoGrowth(trend, l);
    }
    OfflineDriveCalledHealthyIff(samples[n - 1], trend);
    hide MeanLatency, Risk;
  }

  lemma SteadyLatency(samples: seq<Sample>, latency: nat)
    requires samples != [] && forall i :: 0 <= i < |samples| ==> samples[i].latency99 == latency
    ensures MeanLatency(samples) == latency as real
  {
    SumOfSame(Latencies(samples), latency as real);
  }

  lemma NoGrowth(trend: real, l: real)
    requires l >= 0.0 && (l > 0.0 ==> (100.0 + trend) * l == 100.0 * l)
    ensures l > 0.0 ==> trend == 0.0
  {
    if l > 0.0 {
      assert trend * l == 0.0;
      PositiveFactor(l, trend);
    }
  }
}
