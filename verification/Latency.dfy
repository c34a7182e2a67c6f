/** Vdev latency: a percentile by sorted rank, and the baseline cached per vdev, which is the
    95th percentile of the last seven days. */
module Latency {
  import opened Prelude

  // ---- percentile ----

  predicate AtMost(x: int, y: int) { x <= y }
  function LessThan(v: int): int -> bool { (x: int) => x < v }
  function NotAbove(v: int): int -> bool { (x: int) => x <= v }

  /** How many elements lie below v, and how many not above it. */
  function Below(data: seq<int>, v: int): nat { |Filter(data, LessThan(v))| }
  function UpTo(data: seq<int>, v: int): nat { |Filter(data, NotAbove(v))| }

  /** The 0-based rank that the code picks. */
  function Rank(n: nat, p: nat): nat
    requires n > 0
  {
    if p * n / 100 >= n then n - 1 else p * n / 100
  }

  /** v is the element that has rank k in order. */
  predicate AtRank(data: seq<int>, k: nat, v: int) { v in data && Below(data, v) <= k < UpTo(data, v) }

  predicate IsPercentile(data: seq<int>, p: nat, v: int) {
    if data == [] then v == 0 else AtRank(data, Rank(|data|, p), v)
  }

  /** In order, the element at index k has rank k. */
  lemma SortedRank(s: seq<int>, k: nat)
    requires Sorted(s, AtMost) && k < |s|
    ensures AtRank(s, k, s[k])
  {
    hide Filter;
    BelowSorted(s, k);
    FilterSplit(s, k + 1, NotAbove(s[k]));
    FilterAll(s[..k + 1], NotAbove(s[k]));
  }

  lemma BelowSorted(s: seq<int>, k: nat)
    requires Sorted(s, AtMost) && k < |s|
    ensures Below(s, s[k]) <= k
  {
    var low := LessThan(s[k]);
    assert forall i :: 0 <= i < |s| - k ==> !low(s[k..][i]);
    hide Sorted, Filter;
    FilterSplit(s, k, low);
    FilterNone(s[k..], low);
    FilterAll(s[..k], low);
  }

  lemma AtRankPermuted(s: seq<int>, t: seq<int>, k: nat, v: int)
    requires multiset(s) == multiset(t) && AtRank(s, k, v)
    ensures AtRank(t, k, v)
  {
    FilterPermuted(s, t, LessThan(v));
    FilterPermuted(s, t, NotAbove(v));
    assert v in multiset(s);
  }

  /** A higher rank never has a smaller element. */
  lemma RankMonotone(data: seq<int>, k: nat, v: int, k': nat, v': int)
    requires AtRank(data, k, v) && AtRank(data, k', v') && k <= k'
    ensures v <= v'
  {
    if v' < v {
      FilterWeaker(data, NotAbove(v'), LessThan(v));
    }
  }

  method Percentile(data: seq<int>, p: nat) returns (v: int)
    ensures IsPercentile(data, p, v)
  {
    if data == [] {
      return 0;
    }
    var sorted := new int[|data|](i requires 0 <= i < |data| => data[i]);
    assert sorted[..] == data;
    SortSlice(sorted, AtMost);
    assert |multiset(data)| == |multiset(sorted[..])|;
    var idx := p * sorted.Length / 100;
    if idx >= sorted.Length {
      idx := sorted.Length - 1;
    }
    RankNotNegative(sorted.Length, p);
    SortedRank(sorted[..], idx);
    AtRankPermuted(sorted[..], data, idx, sorted[idx]);
    v := sorted[idx];
  }

  lemma RankNotNegative(n: nat, p: nat)
    ensures p * n / 100 >= 0
  {
    assert p * n >= 0;
  }

  /** There is one p-th percentile, the same for every order of the data, and it grows with p:
      in particular P50 <= P95 <= P99. */
  lemma PercentileMonotone(data: seq<int>, data': seq<int>, p: nat, v: int, p': nat, v': int)
    requires multiset(data) == multiset(data') && p <= p'
    requires IsPercentile(data, p, v) && IsPercentile(data', p', v')
    ensures v <= v' && (p == p' ==> v == v')
  {
    assert |multiset(data)| == |multiset(data')|;
    if data != [] {
      RanksGrow(|data|, p, p');
      AtRankPermuted(data', data, Rank(|data|, p'), v');
      RankMonotone(data, Rank(|data|, p), v, Rank(|data|, p'), v');
      if p == p' {
        RankMonotone(data, Rank(|data|, p'), v', Rank(|data|, p), v);
      }
    }
  }

  lemma RanksGrow(n: nat, p: nat, p': nat)
    requires n > 0 && p <= p'
    ensures Rank(n, p) <= Rank(n, p')
  {
    assert p * n <= p' * n by {
      assert (p' - p) * n >= 0;
    }
  }

  /** At most p percent of the data lie below the p-th percentile and more than p percent not
      above it; from p = 100 on it is the maximum. */
  lemma PercentileShare(data: seq<int>, p: nat, v: int)
    requires data != [] && IsPercentile(data, p, v)
    ensures p < 100 ==> 100 * Below(data, v) <= p * |data| < 100 * UpTo(data, v)
    ensures p >= 100 ==> forall x :: x in data ==> x <= v
  {
    hide Filter;
    RankShare(|data|, p);
    if p >= 100 {
      FilterAll(data, NotAbove(v));
      if x :| x in data && x > v {
        FewerThanAll(data, NotAbove(v), x);
      }
    }
  }

  lemma RankShare(n: nat, p: nat)
    requires n > 0
    ensures p < 100 ==> 100 * Rank(n, p) <= p * n < 100 * (Rank(n, p) + 1)
    ensures p >= 100 ==> Rank(n, p) == n - 1
  {
    var m := p * n;
    if p < 100 {
      assert m < 100 * n;
    } else {
      assert (p - 100) * n >= 0;
    }
  }

  lemma {:induction false} FewerThanAll(s: seq<int>, p: int -> bool, x: int)
    requires x in s && !p(x)
    ensures |Filter(s, p)| < |s|
  {
    var init := s[..|s| - 1];
    assert s == init + [s[|s| - 1]];
    FilterAll(init, p);
    if x in init {
      FewerThanAll(init, p, x);
    }
  }

  // ---- the cached baseline ----

  datatype Sample = Sample(readNs: int, writeNs: int, timestamp: int)
  datatype Baseline = Baseline(readP95: int, writeP95: int, sampleCount: nat)

  const RETENTION := 7 * DAY

  function Reads(s: seq<Sample>): (r: seq<int>)
    ensures |r| == |s| && forall i :: 0 <= i < |r| ==> r[i] == s[i].readNs
  {
    seq(|s|, i requires 0 <= i < |s| => s[i].readNs)
  }

  function Writes(s: seq<Sample>): (r: seq<int>)
    ensures |r| == |s| && forall i :: 0 <= i < |r| ==> r[i] == s[i].writeNs
  {
    seq(|s|, i requires 0 <= i < |s| => s[i].writeNs)
  }

  /** The readings of one run; a read without a write gets a zero. */
  function Paired(readNs: seq<int>, writeNs: seq<int>, now: int): (r: seq<Sample>)
    ensures |r| == |readNs|
    ensures forall i :: 0 <= i < |r| ==> r[i] == Sample(readNs[i], if i < |writeNs| then writeNs[i] else 0, now)
  {
    seq(|readNs|, i requires 0 <= i < |readNs| => Sample(readNs[i], if i < |writeNs| then writeNs[i] else 0, now))
  }

  function Recent(now: int): Sample -> bool { (s: Sample) => s.timestamp > now - RETENTION }

  predicate IsBaseline(b: Baseline, kept: seq<Sample>) {
    && IsPercentile(Reads(kept), 95, b.readP95)
    && IsPercentile(Writes(kept), 95, b.writeP95)
    && b.sampleCount == |kept|
  }

  /** The samples of the last seven days. */
  ghost predicate Retained(kept: seq<Sample>, log: seq<Sample>, now: int) {
    forall s :: s in kept <==> s in log && s.timestamp > now - 604_800_000_000_000
  }

  lemma RetainedAre(log: seq<Sample>, now: int)
    ensures Retained(Filter(log, Recent(now)), log, now)
  {
    FilterMembers(log, Recent(now));
    hide Filter;
  }

  /** The retained history of a vdev is the last seven days of all its samples, as of its
      latest update, and the cached baseline is the 95th percentile of just that. */
  ghost predicate Cached(history: map<string, seq<Sample>>, baseline: map<string, Baseline>,
                         log: map<string, seq<Sample>>, stamp: map<string, int>) {
    && history.Keys == baseline.Keys == log.Keys == stamp.Keys
    && forall key :: key in log ==>
         && history[key] == Filter(log[key], Recent(stamp[key]))
         && Retained(history[key], log[key], stamp[key])
         && IsBaseline(baseline[key], history[key])
  }

  lemma CacheUpdate(history: map<string, seq<Sample>>, baseline: map<string, Baseline>,
                    log: map<string, seq<Sample>>, stamp: map<string, int>,
                    key: string, all: seq<Sample>, now: int, b: Baseline)
    requires Cached(history, baseline, log, stamp) && IsBaseline(b, Filter(all, Recent(now)))
    ensures Cached(history[key := Filter(all, Recent(now))], baseline[key := b], log[key := all], stamp[key := now])
  {
    RetainedAre(all, now);
    hide Filter, IsBaseline, Retained;
  }

  /** A baseline's two percentiles each have at most 95 percent of the readings below them and
      more than 95 percent not above them. */
  lemma BaselineShares(b: Baseline, kept: seq<Sample>)
    requires kept != [] && IsBaseline(b, kept)
    ensures 100 * Below(Reads(kept), b.readP95) <= 95 * |kept| < 100 * UpTo(Reads(kept), b.readP95)
    ensures 100 * Below(Writes(kept), b.writeP95) <= 95 * |kept| < 100 * UpTo(Writes(kept), b.writeP95)
    ensures forall i :: 0 <= i < |kept| ==> Reads(kept)[i] == kept[i].readNs && Writes(kept)[i] == kept[i].writeNs
  {
    PercentileShare(Reads(kept), 95, b.readP95);
    PercentileShare(Writes(kept), 95, b.writeP95);
    hide IsPercentile, Below, UpTo;
  }

  class Store {
    var history: map<string, seq<Sample>>
    var baseline: map<string, Baseline>
    ghost var log: map<string, seq<Sample>>  // every sample ever taken
    ghost var stamp: map<string, int>        // when each vdev was last updated

    ghost predicate Valid()
      reads this
    {
      Cached(history, baseline, log, stamp)
    }

    constructor ()
      ensures Valid() && log == map[]
    {
      history, baseline, log, stamp := map[], map[], map[], map[];
    }

    method UpdateBaseline(key: string, readNs: seq<int>, writeNs: seq<int>, now: int)
      requires Valid() && (key in stamp ==> now >= stamp[key])
      modifies this
      ensures Valid()
      ensures log == old(log)[key := (if key in old(log) then old(log)[key] else []) + Paired(readNs, writeNs, now)]
      ensures stamp == old(stamp)[key := now]
      ensures forall k :: k in old(log) && k != key ==> history[k] == old(history[k]) && baseline[k] == old(baseline[k])
    {
      hide Filter, Paired, IsBaseline, Recent, Retained;
      var before := if key in history then history[key] else [];
      ghost var all := if key in log then log[key] else [];
      ghost var since := if key in stamp then stamp[key] else now;
      FilterAll<Sample>([], Recent(since));
      assert before == Filter(all, Recent(since));
      var kept, b := Renew(before, readNs, writeNs, now, all, since);
      ghost var more := Paired(readNs, writeNs, now);
      CacheUpdate(history, baseline, log, stamp, key, all + more, now, b);
      hide Cached;
      history, baseline := history[key := kept], baseline[key := b];
      log, stamp := log[key := all + more], stamp[key := now];
    }

    method GetBaseline(key: string) returns (b: Option<Baseline>)
      requires Valid()
      ensures b.Some? <==> key in log
      ensures b.Some? ==> IsBaseline(b.value, Filter(log[key], Recent(stamp[key])))
    {
      b := if key in baseline then Some(baseline[key]) else None;
    }
  }

  /** One vdev's retained samples with the readings of a run, and their baseline. */
  method Renew(before: seq<Sample>, readNs: seq<int>, writeNs: seq<int>, now: int,
               ghost all: seq<Sample>, ghost since: int) returns (kept: seq<Sample>, b: Baseline)
    requires before == Filter(all, Recent(since)) && since <= now
    ensures kept == Filter(all + Paired(readNs, writeNs, now), Recent(now))
    ensures IsBaseline(b, kept)
  {
    hide Filter, Paired, IsBaseline, Recent;
    var samples := Extend(before, readNs, writeNs, now);
    kept := Retain(samples, now);
    RetainAgain(all, Paired(readNs, writeNs, now), since, now);
    b := Measure(kept);
  }

  method Extend(before: seq<Sample>, readNs: seq<int>, writeNs: seq<int>, now: int) returns (samples: seq<Sample>)
    ensures samples == before + Paired(readNs, writeNs, now)
  {
    samples := before;
    for i := 0 to |readNs|
      invariant samples == before + Paired(readNs, writeNs, now)[..i]
    {
      samples := samples + [Sample(readNs[i], if i < |writeNs| then writeNs[i] else 0, now)];
    }
  }

  method Measure(kept: seq<Sample>) returns (b: Baseline)
    ensures IsBaseline(b, kept)
  {
    hide IsPercentile;
    var r := Percentile(Reads(kept), 95);
    var w := Percentile(Writes(kept), 95);
    b := Baseline(r, w, |kept|);
  }

  method Retain(samples: seq<Sample>, now: int) returns (kept: seq<Sample>)
    ensures kept == Filter(samples, Recent(now))
  {
    kept := [];
    for i := 0 to |samples|
      invariant kept == Filter(samples[..i], Recent(now))
    {
      FilterPrefix(samples, i, Recent(now));
      hide Filter;
      if Recent(now)(samples[i]) {
        kept := kept + [samples[i]];
      }
    }
    assert samples[..|samples|] == samples;
  }

  lemma RetainAgain(log: seq<Sample>, more: seq<Sample>, since: int, now: int)
    requires since <= now
    ensures Filter(Filter(log, Recent(since)) + more, Recent(now)) == Filter(log + more, Recent(now))
  {
    FilterAppend(Filter(log, Recent(since)), more, Recent(now));
    FilterAppend(log, more, Recent(now));
    FilterTwice(log, Recent(since), Recent(now));
  }

  // ---- the verdict ----

  datatype Level = Ok | Warning | Critical

  function Assess(baseline: Option<Baseline>, readP95: int): Level {
    if baseline == None || baseline.value.sampleCount < 10 then Ok else
    var threshold := Trunc(baseline.value.readP95 as real * 1.5);
    if readP95 > threshold * 2 then Critical else if readP95 > threshold then Warning else Ok
  }

  /** Three times the baseline, but one nearer to zero when that is odd. */
  function Threefold(n: int): int { if n >= 0 then 3 * n - n % 2 else 3 * n + -n % 2 }

  /** The message of the critical level speaks of twice the baseline; the level starts at three
      times it, and the warning level at half of that. */
  lemma CriticalIsThreefold(b: Option<Baseline>, readP95: int)
    ensures var judged := b.Some? && b.value.sampleCount >= 10;
            && (Assess(b, readP95) == Critical <==> judged && readP95 > Threefold(b.value.readP95))
            && (Assess(b, readP95) != Ok
                <==> judged && (readP95 > Threefold(b.value.readP95) || 2 * readP95 > Threefold(b.value.readP95)))
  {
    if b.Some? {
      HalfMore(b.value.readP95);
    }
    hide Trunc, Threefold;
  }

  /** Whether the reading lies between twice and three times the baseline. */
  predicate BetweenTwoAndThree(n: int, readP95: int) {
    2 * n < readP95 <= Threefold(n) || Threefold(n) < readP95 <= 2 * n
  }

  /** So a reading is called critical just when it is above twice the baseline exactly if there
      is no baseline, or one of few samples and the reading is not above twice it, or one of
      enough samples and the reading is not between twice and three times it ... */
  lemma CriticalAsPromisedIff(b: Option<Baseline>, readP95: int)
    ensures (Assess(b, readP95) == Critical <==> b.Some? && readP95 > 2 * b.value.readP95)
            <==> match b
                 case None => true
                 case Some(x) => if x.sampleCount < 10 then readP95 <= 2 * x.readP95
                                 else !BetweenTwoAndThree(x.readP95, readP95)
  {
    CriticalIsThreefold(b, readP95);
    hide Assess, Threefold;
  }

  /** ... as a reading of two and a half times the baseline is. */
  lemma TwiceIsNotCritical(b: Baseline, n: nat)
    requires b.sampleCount >= 10 && b.readP95 == 2 * n && n > 0
    ensures 5 * n > 2 * b.readP95 && Assess(Some(b), 5 * n) == Warning
  {
    CriticalIsThreefold(Some(b), 5 * n);
  }

  lemma HalfMore(b: int)
    ensures 2 * Trunc(b as real * 1.5) == Threefold(b)
  {
    if b >= 0 {
      HalfOfCount(b);
    } else {
      HalfOfCount(-b);
      Negated(b);
    }
    hide Trunc;
  }

  lemma Negated(b: int)
    ensures b as real * 1.5 == -((-b) as real * 1.5)
  {
  }

  lemma HalfOfCount(n: nat)
    ensures 2 * Trunc(n as real * 1.5) == 3 * n - n % 2
    ensures 2 * Trunc(-(n as real * 1.5)) == -(3 * n - n % 2)
  {
    HalfOf(n, n / 2, n % 2);
    TruncSigned(n as real * 1.5);
    Doubled(n, n / 2, n % 2);
    hide Trunc;
  }

  lemma Doubled(n: nat, k: nat, r: nat)
    requires n == 2 * k + r
    ensures 2 * (3 * k + r) == 3 * n - r
  {
  }

  lemma TruncSigned(x: real)
    requires x >= 0.0
    ensures Trunc(x) == x.Floor && Trunc(-x) == -x.Floor
  {
  }

  lemma HalfOf(n: nat, k: nat, r: nat)
    requires n == 2 * k + r && r < 2
    ensures (n as real * 1.5).Floor == 3 * k + r
  {
    assert n as real * 1.5 == (3 * k) as real + r as real * 1.5;
    FloorIs(n as real * 1.5, 3 * k + r);
  }

  lemma FloorIs(x: real, m: int)
    requires m as real <= x < m as real + 1.0
    ensures x.Floor == m
  {
  }

  // ---- a run is judged by a baseline that it is part of ----

  function MoreThan(v: int): int -> bool { (x: int) => x > v }
  function Above(data: seq<int>, v: int): nat { |Filter(data, MoreThan(v))| }

  lemma {:induction false} AboveIsRest(data: seq<int>, v: int)
    ensures Above(data, v) + UpTo(data, v) == |data|
  {
    if data != [] {
      AboveIsRest(data[..|data| - 1], v);
    }
  }

  /** Less than a twentieth of the data is above their 95th percentile ... */
  lemma FewAbove(data: seq<int>, v: int)
    requires data != [] && IsPercentile(data, 95, v)
    ensures 20 * Above(data, v) < |data|
  {
    PercentileShare(data, 95, v);
    AboveIsRest(data, v);
    hide *;
  }

  /** ... and at least that much above anything below it. */
  lemma ManyAbove(data: seq<int>, p95: int, v: int)
    requires data != [] && IsPercentile(data, 95, p95) && v < p95
    ensures 20 * Above(data, v) >= |data|
  {
    PercentileShare(data, 95, p95);
    AboveIsRest(data, v);
    FilterWeaker(data, NotAbove(v), LessThan(p95));
    hide Filter;
  }

  /** A run that is not judged normal is a smaller part of what is retained: it never is all of
      it, and if each of its readings is above the baseline it is less than a twentieth. */
  lemma AlarmNeedsOlderSamples(b: Baseline, older: seq<Sample>, run: seq<int>, writes: seq<int>, now: int, p95: int)
    requires IsBaseline(b, older + Paired(run, writes, now)) && IsPercentile(run, 95, p95)
    requires b.readP95 >= 0 && Assess(Some(b), p95) != Ok
    ensures older != [] && run != []
    ensures (forall x :: x in run ==> x > b.readP95) ==> 20 * |run| < |older| + |run|
  {
    hide *;
    var v := b.readP95;
    BaselineReads(b, older, run, writes, now);
    AlarmIsAbove(b, p95);
    PercentileOfNone(run, p95);
    FewAbove(Reads(older) + run, v);
    ManyAbove(run, p95, v);
    AboveGrows(Reads(older), run, v);
  }

  lemma BaselineReads(b: Baseline, older: seq<Sample>, run: seq<int>, writes: seq<int>, now: int)
    requires IsBaseline(b, older + Paired(run, writes, now))
    ensures IsPercentile(Reads(older) + run, 95, b.readP95) && b.sampleCount == |older| + |run|
  {
    hide IsPercentile;
    assert Reads(older + Paired(run, writes, now)) == Reads(older) + run;
  }

  lemma AlarmIsAbove(b: Baseline, p95: int)
    requires b.readP95 >= 0 && Assess(Some(b), p95) != Ok
    ensures p95 > b.readP95
  {
    CriticalIsThreefold(Some(b), p95);
    hide Assess;
  }

  lemma AboveGrows(x: seq<int>, y: seq<int>, v: int)
    ensures Above(x + y, v) >= Above(y, v)
    ensures (forall i :: i in y ==> i > v) ==> Above(y, v) == |y|
  {
    FilterAppend(x, y, MoreThan(v));
    FilterAll(y, MoreThan(v));
    hide Filter;
  }

  lemma PercentileOfNone(data: seq<int>, v: int)
    requires IsPercentile(data, 95, v)
    ensures data == [] ==> v == 0
  {
  }

  /** The samples of the run that is being judged are all retained. */
  lemma RunIsRetained(log: seq<Sample>, run: seq<int>, writes: seq<int>, now: int)
    ensures Filter(log + Paired(run, writes, now), Recent(now)) == Filter(log, Recent(now)) + Paired(run, writes, now)
  {
    FilterAppend(log, Paired(run, writes, now), Recent(now));
    FilterAll(Paired(run, writes, now), Recent(now));
    hide Filter;
  }

  /** So a vdev's first run, or its first in a week, is never an alarm, whatever was measured:
      what it is judged by is its own percentile. (A negative one, which a latency has not, would be.) */
  lemma FirstRunIsOkIff(b: Baseline, log: seq<Sample>, run: seq<int>, writes: seq<int>, now: int, p95: int)
    requires Filter(log, Recent(now)) == [] && IsPercentile(run, 95, p95)
    requires IsBaseline(b, Filter(log + Paired(run, writes, now), Recent(now)))
    ensures Assess(Some(b), p95) == Ok <==> |run| < 10 || p95 >= 0
  {
    hide *;
    RunIsRetained(log, run, writes, now);
    BaselineReads(b, [], run, writes, now);
    assert Reads([]) + run == run;
    PercentileMonotone(run, run, 95, p95, 95, b.readP95);
    JudgedByItself(b);
  }

  lemma JudgedByItself(b: Baseline)
    ensures Assess(Some(b), b.readP95) == Ok <==> b.sampleCount < 10 || b.readP95 >= 0
  {
    CriticalIsThreefold(Some(b), b.readP95);
    hide Assess;
  }
}
