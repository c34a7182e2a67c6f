/** The ARC anomaly detector of one pool: a sliding window of hit ratios, a baseline refreshed
    from it, and a bounded log of events. The bounded state is proved to be what the unbounded
    history of measurements says it should be; the laws are about that history. */
module Detector {
  import opened Prelude
  import opened Moments

  datatype ARCPoint = ARCPoint(timestamp: int, hitRatio: real, sizeBytes: nat)
  datatype Severity = Info | Warning | Critical
  datatype AnomalyEvent = AnomalyEvent(
    timestamp: int, pool: string, currentRatio: real, baselineMean: real, baselineStdDev: real,
    deviationSigmas: real, severity: Severity)
  datatype Baseline = Baseline(mean: real, stddev: real, samples: nat)

  /** What a detector is created with. */
  datatype Settings = Settings(pool: string, windowSize: int, sensitivity: real, sqrt: real -> real)

  const MAX_EVENTS := 200

  // ---- what the history says ----

  function Ratios(points: seq<ARCPoint>): (r: seq<real>)
    ensures |r| == |points| && forall i :: 0 <= i < |r| ==> r[i] == points[i].hitRatio
  {
    seq(|points|, i requires 0 <= i < |points| => points[i].hitRatio)
  }

  function Mean(xs: seq<real>): real
    requires xs != []
  {
    Sum(xs) / |xs| as real
  }

  /** The mean squared deviation from the mean. */
  function Variance(xs: seq<real>): real
    requires xs != []
  {
    Sum(Cross(xs, xs, Mean(xs), Mean(xs))) / |xs| as real
  }

  /** Whether the last measurement of h refreshed the baseline: only at window lengths 10, 20, ... */
  predicate Refreshed(h: seq<ARCPoint>, windowSize: int) {
    var n := |Last(h, windowSize)|;
    n % 10 == 0 && n >= 10
  }

  function BaselineOf(xs: seq<real>, sqrt: real -> real): Baseline
    requires xs != []
  {
    Baseline(Mean(xs), sqrt(Variance(xs)), |xs|)
  }

  function BaselineAfter(h: seq<ARCPoint>, s: Settings): Baseline {
    if h == [] then Baseline(0.85, 0.05, 0)
    else if Refreshed(h, s.windowSize) then BaselineOf(Ratios(Last(h, s.windowSize)), s.sqrt)
    else BaselineAfter(h[..|h| - 1], s)
  }

  /** The judgement of a measurement against a baseline, with n measurements in the window. */
  function Judged(p: ARCPoint, n: nat, b: Baseline, s: Settings): Option<AnomalyEvent> {
    if n < 20 || b.stddev == 0.0 || p.hitRatio >= b.mean - Mul(s.sensitivity, b.stddev) then None
    else
      var sigmas := (b.mean - p.hitRatio) / b.stddev;
      Some(AnomalyEvent(p.timestamp, s.pool, p.hitRatio, b.mean, b.stddev, sigmas,
                        if sigmas >= 4.0 then Critical else Warning))
  }

  /** The event fired by the last measurement of h. */
  function Verdict(h: seq<ARCPoint>, s: Settings): Option<AnomalyEvent>
    requires h != []
  {
    Judged(h[|h| - 1], |Last(h, s.windowSize)|, BaselineAfter(h, s), s)
  }

  /** Every event fired over the history, oldest first. */
  function Fired(h: seq<ARCPoint>, s: Settings): seq<AnomalyEvent> {
    if h == [] then [] else
    Fired(h[..|h| - 1], s) + match Verdict(h, s) case Some(ev) => [ev] case None => []
  }

  // ---- what they mean ----

  /** An event says where and when the ratio was measured, and how far below which mean. */
  predicate IsReportOf(ev: AnomalyEvent, p: ARCPoint, b: Baseline, s: Settings) {
    && ev.timestamp == p.timestamp && ev.pool == s.pool && ev.currentRatio == p.hitRatio
    && ev.baselineMean == b.mean && ev.baselineStdDev == b.stddev
    && ev.deviationSigmas * b.stddev == b.mean - p.hitRatio
    && ev.severity == if ev.deviationSigmas >= 4.0 then Critical else Warning
  }

  predicate IsBaselineOf(b: Baseline, xs: seq<real>) {
    && xs != [] && b.samples == |xs| && b.mean == Mean(xs)
    && b.stddev >= 0.0 && b.stddev * b.stddev == Variance(xs)
  }

  /** The newest event joins the log, which forgets the oldest from two hundred on. */
  function Pushed(evs: seq<AnomalyEvent>, ev: AnomalyEvent): seq<AnomalyEvent> {
    (if |evs| < 200 then evs else evs[1..]) + [ev]
  }

  /** More than k deviations below the mean. */
  predicate Drops(ratio: real, b: Baseline, k: real) { ratio < b.mean - k * b.stddev }

  /** A measurement fires exactly if at least twenty are in the window, the deviation in force
      is not zero and it is more than `sensitivity` deviations below the mean in force. */
  lemma FiresIff(h: seq<ARCPoint>, s: Settings)
    requires h != []
    ensures var p, b, w := h[|h| - 1], BaselineAfter(h, s), Last(h, s.windowSize);
            && Verdict(h, s) == Judged(p, |w|, b, s)
            && (Verdict(h, s).Some? <==> |w| >= 20 && b.stddev != 0.0 && Drops(p.hitRatio, b, s.sensitivity))
            && (Verdict(h, s).Some? ==> IsReportOf(Verdict(h, s).value, p, b, s))
  {
    hide Last, BaselineAfter, Judged, IsReportOf, Drops;
    JudgedMeans(h[|h| - 1], |Last(h, s.windowSize)|, BaselineAfter(h, s), s);
  }

  /** The baseline in force is that of the window whenever that holds a multiple of ten, and
      else the one before. */
  lemma BaselineInForce(h: seq<ARCPoint>, s: Settings)
    requires h != [] && IsSqrt(s.sqrt)
    ensures var b, w := BaselineAfter(h, s), Last(h, s.windowSize);
            if w != [] && |w| % 10 == 0 then IsBaselineOf(b, Ratios(w)) else b == BaselineAfter(h[..|h| - 1], s)
  {
    hide Ratios, BaselineOf, IsBaselineOf, Last, IsSqrt;
    var w := Last(h, s.windowSize);
    if w != [] && |w| % 10 == 0 {
      BaselineIsOf(Ratios(w), s.sqrt);
    }
  }

  /** What a measurement makes of the window, the baseline, the verdict and the log. */
  lemma MeasurementTaken(h: seq<ARCPoint>, p: ARCPoint, s: Settings)
    requires IsSqrt(s.sqrt)
    ensures var b, w, v := BaselineAfter(h + [p], s), Last(h + [p], s.windowSize), Verdict(h + [p], s);
            var evs := Last(Fired(h, s), MAX_EVENTS);
            && v == Judged(p, |w|, b, s)
            && (v.Some? <==> |w| >= 20 && b.stddev != 0.0 && Drops(p.hitRatio, b, s.sensitivity))
            && (v.Some? ==> IsReportOf(v.value, p, b, s))
            && (if w != [] && |w| % 10 == 0 then IsBaselineOf(b, Ratios(w)) else b == BaselineAfter(h, s))
            && Last(Fired(h + [p], s), MAX_EVENTS) == (if v == None then evs else Last(evs + [v.value], MAX_EVENTS))
            && |evs| <= MAX_EVENTS
  {
    assert (h + [p])[..|h|] == h && (h + [p])[|h|] == p;
    hide *;
    FiresIff(h + [p], s);
    BaselineInForce(h + [p], s);
    FiredNext(h, p, s);
    LastLength(Fired(h, s), MAX_EVENTS);
    if Verdict(h + [p], s).Some? {
      LastOfAppend(Fired(h, s), Verdict(h + [p], s).value, MAX_EVENTS);
    }
  }

  lemma BaselineIsOf(xs: seq<real>, sqrt: real -> real)
    requires xs != [] && IsSqrt(sqrt)
    ensures IsBaselineOf(BaselineOf(xs, sqrt), xs)
  {
    VarianceByMoments(xs);
    hide Variance, Mean;
  }

  lemma JudgedMeans(p: ARCPoint, n: nat, b: Baseline, s: Settings)
    ensures Judged(p, n, b, s).Some? <==>
              n >= 20 && b.stddev != 0.0 && Drops(p.hitRatio, b, s.sensitivity)
    ensures Judged(p, n, b, s).Some? ==> IsReportOf(Judged(p, n, b, s).value, p, b, s)
  {
    if b.stddev != 0.0 {
      assert (b.mean - p.hitRatio) / b.stddev * b.stddev == b.mean - p.hitRatio;
    }
  }

  // ---- the detector ----

  class Detector {
    const settings: Settings
    var window: seq<ARCPoint>
    var baseline: Baseline
    var recentEvents: seq<AnomalyEvent>
    ghost var history: seq<ARCPoint>

    ghost predicate Valid()
      reads this
    {
      && IsSqrt(settings.sqrt)
      && window == Last(history, settings.windowSize)
      && baseline == BaselineAfter(history, settings)
      && recentEvents == Last(Fired(history, settings), MAX_EVENTS)
    }

    constructor (settings: Settings)
      requires IsSqrt(settings.sqrt)
      ensures Valid() && history == [] && this.settings == settings && baseline == Baseline(0.85, 0.05, 0)
    {
      this.settings := settings;
      window, baseline, recentEvents, history := [], Baseline(0.85, 0.05, 0), [], [];
    }

    method RecomputeBaseline()
      requires IsSqrt(settings.sqrt) && window != []
      modifies this`baseline
      ensures baseline == BaselineOf(Ratios(window), settings.sqrt)
    {
      hide Mul, Times, Ratios, Variance;
      ghost var xs := Ratios(window);
      var n := |window| as real;
      var sum, sumSq := 0.0, 0.0;
      for i := 0 to |window|
        invariant sum == Sum(xs[..i]) && sumSq == Sum(Times(xs, xs)[..i])
      {
        var x := window[i].hitRatio;
        sum, sumSq := sum + x, sumSq + Mul(x, x);
        SumNext(xs, i);
        SumNext(Times(xs, xs), i);
      }
      assert xs[..|xs|] == xs && Times(xs, xs)[..|xs|] == Times(xs, xs);
      var mean := sum / n;
      var variance := sumSq / n - Mul(mean, mean);
      VarianceByMoments(xs);
      if variance < 0.0 {
        assert false;
      }
      baseline := Baseline(mean, settings.sqrt(variance), |window|);
    }

    /** The window and the baseline take in p. */
    method Slide(p: ARCPoint)
      requires IsSqrt(settings.sqrt)
      requires window == Last(history, settings.windowSize) && baseline == BaselineAfter(history, settings)
      modifies this`window, this`baseline
      ensures window == Last(history + [p], settings.windowSize)
      ensures baseline == BaselineAfter(history + [p], settings)
    {
      hide BaselineOf;
      assert (history + [p])[..|history|] == history;
      LastOfAppend(history, p, settings.windowSize);
      window := window + [p];
      if |window| > settings.windowSize {
        window := window[1..];
      }
      if |window| % 10 == 0 && |window| >= 10 {
        RecomputeBaseline();
      }
    }

    method Log(ev: AnomalyEvent)
      requires |recentEvents| <= MAX_EVENTS
      modifies this`recentEvents
      ensures recentEvents == Last(old(recentEvents) + [ev], MAX_EVENTS)
      ensures recentEvents == Pushed(old(recentEvents), ev)
    {
      recentEvents := recentEvents + [ev];
      if |recentEvents| > MAX_EVENTS {
        recentEvents := recentEvents[|recentEvents| - MAX_EVENTS..];
      }
    }

    /** Takes in a measurement. An event is returned exactly if the window then has at least
        twenty points, the deviation in force is not zero and the ratio is more than `sensitivity`
        deviations below the mean in force: those of the window after a refresh, and otherwise
        those of before. */
    method Record(p: ARCPoint) returns (r: Option<AnomalyEvent>)
      requires Valid()
      modifies this
      ensures Valid() && history == old(history) + [p]
      ensures r == Verdict(history, settings)
      ensures r.Some? <==>
                |window| >= 20 && baseline.stddev != 0.0 && Drops(p.hitRatio, baseline, settings.sensitivity)
      ensures r.Some? ==> IsReportOf(r.value, p, baseline, settings)
      ensures if window != [] && |window| % 10 == 0 then IsBaselineOf(baseline, Ratios(window))
              else baseline == old(baseline)
      ensures recentEvents == if r == None then old(recentEvents) else Pushed(old(recentEvents), r.value)
    {
      hide Last, Fired, Judged, Verdict, BaselineAfter, IsReportOf, IsBaselineOf, Pushed, Drops, IsSqrt;
      MeasurementTaken(history, p, settings);
      Slide(p);
      history := history + [p];
      r := Judge(p);
      if r.Some? {
        Log(r.value);
      }
    }

    method Judge(p: ARCPoint) returns (r: Option<AnomalyEvent>)
      ensures r == Judged(p, |window|, baseline, settings)
    {
      if |window| < 20 || baseline.stddev == 0.0 {
        return None;
      }
      var threshold := baseline.mean - Mul(settings.sensitivity, baseline.stddev);
      if p.hitRatio >= threshold {
        return None;
      }
      var sigmas := (baseline.mean - p.hitRatio) / baseline.stddev;
      var sev := if sigmas >= 4.0 then Critical else Warning;
      r := Some(AnomalyEvent(p.timestamp, settings.pool, p.hitRatio, baseline.mean, baseline.stddev, sigmas, sev));
    }
  }

  lemma FiredNext(h: seq<ARCPoint>, p: ARCPoint, s: Settings)
    ensures Fired(h + [p], s) == match Verdict(h + [p], s)
                                 case Some(ev) => Fired(h, s) + [ev]
                                 case None => Fired(h, s)
  {
    assert (h + [p])[..|h|] == h;
  }

  // ---- laws ----

  lemma VarianceIsSpread(xs: seq<real>)
    requires xs != []
    ensures var n := |xs| as real; n * n * Variance(xs) == Spread(xs, xs)
    ensures Dot(xs, xs) / |xs| as real - Mul(Mean(xs), Mean(xs)) == Variance(xs)
  {
    hide Mul, Times, Cross;
    var m := Mean(xs);
    CrossExpands(xs, xs, m, m);
    VarianceAlgebra(|xs| as real, Sum(xs), Dot(xs, xs), m, Sum(Cross(xs, xs, m, m)), Variance(xs), Spread(xs, xs));
  }

  lemma VarianceAlgebra(n: real, s: real, d: real, m: real, c: real, v: real, spread: real)
    requires n > 0.0 && m == s / n && v == c / n && spread == Mul(n, d) - Mul(s, s)
    requires c == Mul(Mul(m, m), n) + Mul(-m, s) + Mul(-m, s) + Mul(1.0, d)
    ensures n * n * v == spread
    ensures d / n - Mul(m, m) == v
  {
    assert m * n == s;
    assert c == d - m * s;
    assert v * n == c;
    assert n * (m * s) == s * s;
  }

  /** The variance formula of the code is the mean squared deviation, and is never negative:
      the clamp never fires in exact arithmetic. */
  lemma VarianceByMoments(xs: seq<real>)
    requires xs != []
    ensures Dot(xs, xs) / |xs| as real - Mul(Mean(xs), Mean(xs)) == Variance(xs)
    ensures Variance(xs) >= 0.0
    ensures (exists i, j :: 0 <= i < j < |xs| && xs[i] != xs[j]) ==> Variance(xs) > 0.0
  {
    hide Mul, Times, Cross, Variance;
    var n, v := |xs| as real, Variance(xs);
    VarianceIsSpread(xs);
    SpreadPositive(xs, 0, 0);
    SignOfQuotient(n * n, v, Spread(xs, xs));
    if i, j :| 0 <= i < j < |xs| && xs[i] != xs[j] {
      SpreadPositive(xs, i, j);
    }
  }

  lemma SignOfQuotient(k: real, v: real, s: real)
    requires k * v == s && s >= 0.0 && k != 0.0 && k >= 0.0
    ensures v >= 0.0 && (s > 0.0 ==> v > 0.0)
  {
    PositiveFactor(k, v);
  }

  /** Every event is a drop of more than `sensitivity` standard deviations below the mean it
      reports, and is critical from four on. */
  lemma EventExceedsSensitivity(h: seq<ARCPoint>, s: Settings)
    requires h != [] && IsSqrt(s.sqrt) && Verdict(h, s).Some?
    ensures var ev := Verdict(h, s).value;
            && ev.baselineStdDev > 0.0
            && ev.currentRatio == h[|h| - 1].hitRatio
            && Mul(ev.deviationSigmas, ev.baselineStdDev) == ev.baselineMean - ev.currentRatio
            && ev.deviationSigmas > s.sensitivity
            && (ev.severity == Critical <==> ev.deviationSigmas >= 4.0)
            && (ev.severity == Warning <==> ev.deviationSigmas < 4.0)
  {
    hide Mul, BaselineOf, Variance, Mean;
    var b, x := BaselineAfter(h, s), h[|h| - 1].hitRatio;
    StdDevNotNegative(h, s);
    Division(b.mean - x, b.stddev);
    SigmaOrder(s.sensitivity, (b.mean - x) / b.stddev, b.stddev, b.mean - x);
  }

  lemma {:induction false} StdDevNotNegative(h: seq<ARCPoint>, s: Settings)
    requires IsSqrt(s.sqrt)
    ensures BaselineAfter(h, s).stddev >= 0.0
  {
    hide Variance, Mean;
    if h != [] {
      if Refreshed(h, s.windowSize) {
        VarianceByMoments(Ratios(Last(h, s.windowSize)));
      } else {
        StdDevNotNegative(h[..|h| - 1], s);
      }
    }
  }

  lemma Division(p: real, q: real)
    requires q != 0.0
    ensures Mul(p / q, q) == p
  {
  }

  lemma SigmaOrder(k: real, sigmas: real, dev: real, gap: real)
    requires dev > 0.0 && Mul(sigmas, dev) == gap && gap > Mul(k, dev)
    ensures sigmas > k
  {
    assert Mul(dev, sigmas - k) > 0.0;
    PositiveFactor(dev, sigmas - k);
  }

  /** Samuelson's bound: a measurement that has just been taken into the baseline it is judged
      by cannot lie more than sqrt(n - 1) deviations below it. */
  lemma RefreshedEventBound(h: seq<ARCPoint>, s: Settings)
    requires h != [] && IsSqrt(s.sqrt) && Verdict(h, s).Some? && Refreshed(h, s.windowSize)
    ensures var sigmas := Verdict(h, s).value.deviationSigmas;
            Mul(sigmas, sigmas) <= (|Last(h, s.windowSize)| - 1) as real
  {
    hide Mul, Times, Cross, Ratios, Variance, Mean;
    var xs := Ratios(Last(h, s.windowSize));
    var n, x, b := |xs|, h[|h| - 1].hitRatio, BaselineAfter(h, s);
    assert xs[n - 1] == x;
    EventExceedsSensitivity(h, s);
    VarianceByMoments(xs);
    VarianceIsSpread(xs);
    Samuelson(xs);
    MeanIsQuotient(xs);
    var sigmas := Verdict(h, s).value.deviationSigmas;
    BoundAlgebra(n as real, x, Sum(xs), b.mean, b.stddev, Variance(xs), sigmas, Spread(xs, xs));
  }

  lemma MeanIsQuotient(xs: seq<real>)
    requires xs != []
    ensures Mul(Mean(xs), |xs| as real) == Sum(xs)
  {
  }

  lemma BoundAlgebra(n: real, x: real, s: real, m: real, dev: real, v: real, sigmas: real, spread: real)
    requires n >= 1.0 && dev > 0.0 && dev * dev == v && Mul(m, n) == s
    requires Mul(sigmas, dev) == m - x && n * n * v == spread
    requires var d := Mul(n, x) - s; Mul(d, d) <= Mul(n - 1.0, spread)
    ensures Mul(sigmas, sigmas) <= n - 1.0
  {
    var g, k := sigmas * dev, n * n;
    assert n * x - s == -(n * g);
    assert (n * x - s) * (n * x - s) == k * (g * g);
    assert (n - 1.0) * spread == k * ((n - 1.0) * v);
    SquareSign(n);
    CancelFactor(k, g * g, (n - 1.0) * v);
    SquareSign(dev);
    assert g * g == v * (sigmas * sigmas);
    CancelFactor(v, sigmas * sigmas, n - 1.0);
  }

  lemma CancelFactor(k: real, p: real, q: real)
    requires k > 0.0 && k * p <= k * q
    ensures p <= q
  {
    if p > q {
      PositiveFactor(k, p - q);
    }
  }

  // ---- the order of the events ----

  predicate Chronological(h: seq<ARCPoint>) {
    forall i, j :: 0 <= i < j < |h| ==> h[i].timestamp <= h[j].timestamp
  }

  predicate OldestFirst(evs: seq<AnomalyEvent>) {
    forall i, j :: 0 <= i < j < |evs| ==> evs[i].timestamp <= evs[j].timestamp
  }

  /** Measurements taken in time order fire their events in time order, and the bounded log
      keeps that order. */
  lemma LogInTimeOrder(h: seq<ARCPoint>, s: Settings)
    requires Chronological(h)
    ensures OldestFirst(Last(Fired(h, s), MAX_EVENTS))
  {
    FiredInTimeOrder(h, s);
  }

  lemma {:induction false} FiredInTimeOrder(h: seq<ARCPoint>, s: Settings)
    requires Chronological(h)
    ensures OldestFirst(Fired(h, s))
    ensures forall ev :: ev in Fired(h, s) ==> h != [] && ev.timestamp <= h[|h| - 1].timestamp
  {
    hide BaselineAfter, Mul;
    if h != [] {
      FiredInTimeOrder(h[..|h| - 1], s);
    }
  }

  /** Nothing fires before the twentieth measurement. */
  lemma {:induction false} QuietAtFirst(h: seq<ARCPoint>, s: Settings)
    requires |h| < 20
    ensures Fired(h, s) == []
  {
    if h != [] {
      QuietAtFirst(h[..|h| - 1], s);
    }
  }

  // ---- detectors that have seen one value for long, and then another ----

  function Steady(n: nat, ratio: real): (h: seq<ARCPoint>)
    ensures |h| == n && forall i :: 0 <= i < n ==> h[i] == ARCPoint(0, ratio, 0)
  {
    seq(n, i => ARCPoint(0, ratio, 0))
  }

  /** Nineteen full hits, then two misses. */
  function TwoMisses(t: int, u: int): seq<ARCPoint> {
    Steady(19, 1.0) + [ARCPoint(t, 0.0, 0)] + [ARCPoint(u, 0.0, 0)]
  }

  /** The mean of nineteen ones and a zero is 19/20 and their variance 19/400. */
  lemma BaselineOfDrop(xs: seq<real>, sqrt: real -> real)
    requires IsSqrt(sqrt) && |xs| == 20 && xs[19] == 0.0 && forall i :: 0 <= i < 19 ==> xs[i] == 1.0
    ensures var b := BaselineOf(xs, sqrt);
            b.mean == 0.95 && b.stddev * b.stddev == 0.0475 && 0.0 < b.stddev < 0.25
  {
    assert Sum(xs) == 19.0 by {
      SumOfSame(xs[..19], 1.0);
    }
    assert Times(xs, xs) == xs;
    VarianceByMoments(xs);
    hide Variance, Times, Sum;
    var d := sqrt(Variance(xs));
    assert Mean(xs) == 0.95 && Variance(xs) == 0.0475;
    RootIsSmall(d);
  }

  lemma RootIsSmall(d: real)
    requires d >= 0.0 && d * d == 0.0475
    ensures 0.0 < d < 0.25
  {
    var p := Mul(0.25 + d, 0.25 - d);
    assert p == 0.0625 - d * d;
    PositiveFactor(0.25 + d, 0.25 - d);
    hide Mul;
    assert d != 0.0;
  }

  lemma MissFires(h: seq<ARCPoint>, miss: ARCPoint, s: Settings, b: Baseline)
    requires IsSqrt(s.sqrt) && s.windowSize == 40 && s.sensitivity == 2.0 && 19 <= |h| < 40
    requires BaselineAfter(h + [miss], s) == b && b.mean == 0.95 && 0.0 < b.stddev < 0.25 && miss.hitRatio == 0.0
    ensures Verdict(h + [miss], s).Some? && Verdict(h + [miss], s).value.timestamp == miss.timestamp
    ensures Fired(h + [miss], s) == Fired(h, s) + [Verdict(h + [miss], s).value]
  {
    FiredNext(h, miss, s);
    hide BaselineAfter, Fired;
  }

  /** The baseline after the first miss, which the second does not refresh. */
  lemma BaselineOfMisses(h: seq<ARCPoint>, t: int, u: int, s: Settings)
    requires IsSqrt(s.sqrt) && s.windowSize == 40 && h == Steady(19, 1.0)
    ensures var b := BaselineAfter(h + [ARCPoint(t, 0.0, 0)], s);
            && BaselineAfter(h + [ARCPoint(t, 0.0, 0)] + [ARCPoint(u, 0.0, 0)], s) == b
            && b.mean == 0.95 && 0.0 < b.stddev < 0.25
  {
    var h1 := h + [ARCPoint(t, 0.0, 0)];
    BaselineOfDrop(Ratios(h1), s.sqrt);
    assert Last(h1, 40) == h1;
    assert (h1 + [ARCPoint(u, 0.0, 0)])[..20] == h1;
    hide BaselineOf, Ratios;
  }

  /** With the manager's settings both misses fire. */
  lemma TwoMissesFire(s: Settings, t: int, u: int)
    requires IsSqrt(s.sqrt) && s.windowSize == 40 && s.sensitivity == 2.0
    ensures var evs := Fired(TwoMisses(t, u), s);
            |evs| == 2 && evs[0].timestamp == t && evs[1].timestamp == u
    ensures Verdict(TwoMisses(t, u), s).Some?
  {
    var h, miss, miss' := Steady(19, 1.0), ARCPoint(t, 0.0, 0), ARCPoint(u, 0.0, 0);
    assert TwoMisses(t, u) == h + [miss] + [miss'];
    hide *;
    QuietAtFirst(h, s);
    BaselineOfMisses(h, t, u, s);
    MissFires(h, miss, s, BaselineAfter(h + [miss], s));
    MissFires(h + [miss], miss', s, BaselineAfter(h + [miss], s));
  }

  // ---- when the baseline follows ----

  /** With the manager's window of 40 every measurement from the 40th on refreshes the
      baseline; with a window that is not a multiple of 10 none from the full window on does,
      and the baseline stays what it was. */
  lemma RefreshOnceFull(h: seq<ARCPoint>, windowSize: nat)
    requires |h| >= windowSize
    ensures Refreshed(h, windowSize) <==> windowSize % 10 == 0 && windowSize > 0
  {
  }

  lemma {:induction false} FrozenBaseline(h: seq<ARCPoint>, more: seq<ARCPoint>, s: Settings)
    requires s.windowSize >= 0 && s.windowSize % 10 != 0 && |h| >= s.windowSize
    ensures BaselineAfter(h + more, s) == BaselineAfter(h, s)
  {
    if more == [] {
      assert h + more == h;
    } else {
      assert (h + more)[..|h + more| - 1] == h + more[..|more| - 1];
      RefreshOnceFull(h + more, s.windowSize);
      FrozenBaseline(h, more[..|more| - 1], s);
    }
  }

  lemma {:induction false} SteadyBaseline(n: nat, s: Settings)
    ensures BaselineAfter(Steady(n, 1.0), s).mean >= 0.85
  {
    hide Variance;
    var h := Steady(n, 1.0);
    if n > 0 {
      if Refreshed(h, s.windowSize) {
        SteadyMean(Last(h, s.windowSize), 1.0);
      } else {
        assert h[..n - 1] == Steady(n - 1, 1.0);
        SteadyBaseline(n - 1, s);
      }
    }
  }

  lemma SteadyMean(w: seq<ARCPoint>, ratio: real)
    requires w != [] && forall i :: 0 <= i < |w| ==> w[i].hitRatio == ratio
    ensures Mean(Ratios(w)) == ratio
  {
    SumOfSame(Ratios(w), ratio);
  }

  /** The failing input: a full window of hits, and then any number of misses from a full
      window on. Every measurement in the window is 0, and the baseline still says 0.85 or more. */
  lemma FrozenBaselineMisleads(s: Settings, n: nat)
    requires s.windowSize > 0 && s.windowSize % 10 != 0 && n >= s.windowSize
    ensures var h := Steady(s.windowSize, 1.0) + Steady(n, 0.0);
            BaselineAfter(h, s).mean >= 0.85 && Mean(Ratios(Last(h, s.windowSize))) == 0.0
  {
    hide BaselineAfter, Mean;
    var h := Steady(s.windowSize, 1.0) + Steady(n, 0.0);
    FrozenBaseline(Steady(s.windowSize, 1.0), Steady(n, 0.0), s);
    SteadyBaseline(s.windowSize, s);
    SteadyMean(Last(h, s.windowSize), 0.0);
  }

  lemma {:induction false} SamplesInTens(h: seq<ARCPoint>, s: Settings)
    ensures BaselineAfter(h, s).samples % 10 == 0
  {
    hide BaselineOf;
    if h != [] {
      if Refreshed(h, s.windowSize) {
        SamplesOf(Ratios(Last(h, s.windowSize)), s.sqrt);
      } else {
        SamplesInTens(h[..|h| - 1], s);
      }
    }
  }

  lemma SamplesOf(xs: seq<real>, sqrt: real -> real)
    requires xs != []
    ensures BaselineOf(xs, sqrt).samples == |xs|
  {
  }

  /** After any measurement the baseline is that of the window exactly if the window's length
      is a multiple of ten: so never while 21 to 29 or 31 to 39 measurements are judged. */
  lemma BaselineIsWindowsIff(h: seq<ARCPoint>, s: Settings)
    requires h != [] && s.windowSize > 0
    ensures BaselineAfter(h, s) == BaselineOf(Ratios(Last(h, s.windowSize)), s.sqrt)
            <==> |Last(h, s.windowSize)| % 10 == 0
  {
    hide *;
    WindowRefreshed(h, s);
    SamplesInTens(h, s);
    SamplesOf(Ratios(Last(h, s.windowSize)), s.sqrt);
  }

  lemma WindowRefreshed(h: seq<ARCPoint>, s: Settings)
    requires h != [] && s.windowSize > 0
    ensures Last(h, s.windowSize) != []
    ensures |Last(h, s.windowSize)| % 10 == 0 ==>
              BaselineAfter(h, s) == BaselineOf(Ratios(Last(h, s.windowSize)), s.sqrt)
  {
    hide BaselineOf, Ratios;
  }

  /** The failing input at the manager's window of 40: after 19 hits and two misses, of which the
      second is judged and reported, the mean of the window is 19/21 and the baseline's 19/20. */
  lemma BaselineLags(s: Settings, t: int, u: int)
    requires IsSqrt(s.sqrt) && s.windowSize == 40 && s.sensitivity == 2.0
    ensures var h := TwoMisses(t, u);
            && Verdict(h, s).Some? && BaselineAfter(h, s).mean == 19.0 / 20.0
            && Mean(Ratios(Last(h, s.windowSize))) == 19.0 / 21.0
  {
    var h := TwoMisses(t, u);
    TwoMissesFire(s, t, u);
    BaselineOfMisses(Steady(19, 1.0), t, u, s);
    assert Last(h, 40) == h;
    MeanOfMisses(Ratios(h));
    hide *;
  }

  lemma MeanOfMisses(xs: seq<real>)
    requires |xs| == 21 && xs[19] == xs[20] == 0.0 && forall i :: 0 <= i < 19 ==> xs[i] == 1.0
    ensures Mean(xs) == 19.0 / 21.0
  {
    SumOfSame(xs[..19], 1.0);
    SumNext(xs, 19);
    SumNext(xs, 20);
    hide Sum;
    assert xs[..21] == xs;
  }

  /** So from a full window on it always is that of the window exactly if the window size is a
      multiple of ten. */
  lemma BaselineFollowsIff(s: Settings)
    requires s.windowSize > 0
    ensures (forall h: seq<ARCPoint> :: |h| >= s.windowSize ==>
               BaselineAfter(h, s) == BaselineOf(Ratios(Last(h, s.windowSize)), s.sqrt))
            <==> s.windowSize % 10 == 0
  {
    hide BaselineAfter, BaselineOf;
    forall h: seq<ARCPoint> | |h| >= s.windowSize
      ensures BaselineAfter(h, s) == BaselineOf(Ratios(Last(h, s.windowSize)), s.sqrt) <==> s.windowSize % 10 == 0
    {
      BaselineIsWindowsIff(h, s);
    }
    assert |Steady(s.windowSize, 1.0)| >= s.windowSize;
  }

  /** So a full window of n that keeps refreshing never fires at a sensitivity of sqrt(n - 1)
      or more, whatever is measured. */
  lemma TooSensitiveNeverFires(h: seq<ARCPoint>, s: Settings)
    requires h != [] && IsSqrt(s.sqrt) && s.windowSize % 10 == 0 && 0 < s.windowSize <= |h|
    requires s.sensitivity >= 0.0 && Mul(s.sensitivity, s.sensitivity) >= (s.windowSize - 1) as real
    ensures Verdict(h, s) == None
  {
    hide Mul, BaselineAfter;
    RefreshOnceFull(h, s.windowSize);
    if Verdict(h, s).Some? {
      EventExceedsSensitivity(h, s);
      RefreshedEventBound(h, s);
      SquareOrder(s.sensitivity, Verdict(h, s).value.deviationSigmas);
    }
  }

  lemma SquareOrder(x: real, y: real)
    requires 0.0 <= x < y
    ensures Mul(x, x) < Mul(y, y)
  {
    var d, e := y - x, y + x;
    assert d * e > 0.0;
    assert d * e == y * y - x * x;
  }
}
