/** The chargeback manager: a pruned history of dataset usage, and the report that groups it by
    dataset, averages it and prices it. */
module Chargeback {
  import opened Prelude
  import opened Moments

  datatype DatasetUsage = DatasetUsage(
    dataset: string, owner: string, pool: string, physicalGB: real, snapshotGB: real, dedupRatio: real,
    readOps: int, writeOps: int, collectedAt: int)

  datatype RateCard = RateCard(
    storagePerGBMonth: real, readPerMillion: real, writePerMillion: real, snapshotPerGBMonth: real)

  datatype Charge = Charge(
    dataset: string, owner: string, storageGB: real, storageCost: real, ioCost: real, snapshotCost: real,
    dedupSavings: real, total: real, pctOfPool: real)

  datatype Report = Report(pool: string, start: int, end: int, charges: seq<Charge>, total: real)

  const MAX_AGE := 30 * DAY

  // ---- sums over a set of datasets, whatever the order of iteration ----

  ghost function SetSum(s: set<string>, f: string -> real): real {
    if s == {} then 0.0 else
    var x :| x in s;
    f(x) + SetSum(s - {x}, f)
  }

  lemma {:induction false} SetSumPick(s: set<string>, f: string -> real, y: string)
    requires y in s
    ensures SetSum(s, f) == f(y) + SetSum(s - {y}, f)
  {
    var x :| x in s && SetSum(s, f) == f(x) + SetSum(s - {x}, f);
    if x != y {
      SetSumPick(s - {x}, f, y);
      SetSumPick(s - {y}, f, x);
      assert s - {x} - {y} == s - {y} - {x};
    }
  }

  lemma {:induction false} SetSumAgree(s: set<string>, f: string -> real, g: string -> real)
    requires forall x :: x in s ==> f(x) == g(x)
    ensures SetSum(s, f) == SetSum(s, g)
  {
    if s != {} {
      var x :| x in s;
      SetSumPick(s, f, x);
      SetSumPick(s, g, x);
      SetSumAgree(s - {x}, f, g);
    }
  }

  function Values(ds: seq<string>, f: string -> real): (r: seq<real>)
    ensures |r| == |ds| && forall i :: 0 <= i < |r| ==> r[i] == f(ds[i])
  {
    seq(|ds|, i requires 0 <= i < |ds| => f(ds[i]))
  }

  predicate Distinct(ds: seq<string>) { forall i, j :: 0 <= i < j < |ds| ==> ds[i] != ds[j] }

  function SetOf(ds: seq<string>): set<string> { set d | d in ds }

  /** Listing the elements once each, in any order, gives the same sum. */
  lemma {:induction false} ListedSum(ds: seq<string>, f: string -> real)
    requires Distinct(ds)
    ensures Sum(Values(ds, f)) == SetSum(SetOf(ds), f)
  {
    if ds != [] {
      var init, d := ds[..|ds| - 1], ds[|ds| - 1];
      ListedSum(init, f);
      assert Values(ds, f)[..|init|] == Values(init, f);
      assert SetOf(ds) - {d} == SetOf(init);
      SetSumPick(SetOf(ds), f, d);
    }
  }

  // ---- the samples of a period ----

  datatype Period = Period(pool: string, start: int, end: int)

  function InPeriod(p: Period): DatasetUsage -> bool {
    (u: DatasetUsage) => u.pool == p.pool && p.start <= u.collectedAt <= p.end
  }

  function Of(p: Period, d: string): DatasetUsage -> bool {
    (u: DatasetUsage) => u.pool == p.pool && p.start <= u.collectedAt <= p.end && u.dataset == d
  }

  /** The in-period samples of one dataset. */
  function Samples(h: seq<DatasetUsage>, p: Period, d: string): seq<DatasetUsage> { Filter(h, Of(p, d)) }

  ghost function Datasets(h: seq<DatasetUsage>, p: Period): set<string> {
    set u | u in Filter(h, InPeriod(p)) :: u.dataset
  }

  lemma {:induction false} DatasetsHaveSamples(h: seq<DatasetUsage>, p: Period, d: string)
    ensures d in Datasets(h, p) <==> Samples(h, p, d) != []
  {
    FilterMembers(h, InPeriod(p));
    FilterMembers(h, Of(p, d));
    if Samples(h, p, d) != [] {
      assert Samples(h, p, d)[0] in Samples(h, p, d);
    }
  }

  function Count(h: seq<DatasetUsage>, p: Period): string -> real { (d: string) => |Samples(h, p, d)| as real }

  /** One sample more. */
  lemma NextSample(h: seq<DatasetUsage>, u: DatasetUsage, p: Period)
    ensures forall d :: Samples(h + [u], p, d) == if Of(p, d)(u) then Samples(h, p, d) + [u] else Samples(h, p, d)
    ensures Filter(h + [u], InPeriod(p))
            == if InPeriod(p)(u) then Filter(h, InPeriod(p)) + [u] else Filter(h, InPeriod(p))
    ensures Datasets(h + [u], p) == if InPeriod(p)(u) then Datasets(h, p) + {u.dataset} else Datasets(h, p)
  {
    FilterNext(h, u, InPeriod(p));
    forall d ensures Samples(h + [u], p, d) == if Of(p, d)(u) then Samples(h, p, d) + [u] else Samples(h, p, d) {
      FilterNext(h, u, Of(p, d));
    }
    hide Filter, Samples;
  }

  /** Every in-period sample is counted in exactly one dataset. */
  lemma {:induction false} SamplesPartition(h: seq<DatasetUsage>, p: Period)
    ensures SetSum(Datasets(h, p), Count(h, p)) == |Filter(h, InPeriod(p))| as real
  {
    if h != [] {
      var init, u := h[..|h| - 1], h[|h| - 1];
      SamplesPartition(init, p);
      assert h == init + [u];
      NextSample(init, u, p);
      hide Filter, Samples, Datasets;
      if InPeriod(p)(u) {
        OneDatasetGrows(init, h, p, u.dataset);
      } else {
        SetSumAgree(Datasets(h, p), Count(init, p), Count(h, p));
      }
    }
  }

  lemma OneDatasetGrows(h: seq<DatasetUsage>, h': seq<DatasetUsage>, p: Period, d: string)
    requires Datasets(h', p) == Datasets(h, p) + {d} && |Samples(h', p, d)| == |Samples(h, p, d)| + 1
    requires forall x :: x != d ==> Samples(h', p, x) == Samples(h, p, x)
    ensures SetSum(Datasets(h', p), Count(h', p)) == SetSum(Datasets(h, p), Count(h, p)) + 1.0
  {
    DatasetsHaveSamples(h, p, d);
    hide Samples, Datasets;
    var s, s' := Datasets(h, p), Datasets(h', p);
    SetSumPick(s', Count(h', p), d);
    SetSumAgree(s' - {d}, Count(h, p), Count(h', p));
    if d in s {
      SetSumPick(s, Count(h, p), d);
      assert s' - {d} == s - {d};
    } else {
      assert s' - {d} == s;
    }
  }

  // ---- aggregates ----

  datatype Agg = Agg(owner: string, storage: real, snap: real, dedup: real, readOps: int, writeOps: int, samples: nat)

  function Physical(us: seq<DatasetUsage>): (r: seq<real>)
    ensures |r| == |us| && forall i :: 0 <= i < |r| ==> r[i] == us[i].physicalGB
  {
    seq(|us|, i requires 0 <= i < |us| => us[i].physicalGB)
  }

  function Snap(us: seq<DatasetUsage>): (r: seq<real>)
    ensures |r| == |us| && forall i :: 0 <= i < |r| ==> r[i] == us[i].snapshotGB
  {
    seq(|us|, i requires 0 <= i < |us| => us[i].snapshotGB)
  }

  function Dedup(us: seq<DatasetUsage>): (r: seq<real>)
    ensures |r| == |us| && forall i :: 0 <= i < |r| ==> r[i] == us[i].dedupRatio
  {
    seq(|us|, i requires 0 <= i < |us| => us[i].dedupRatio)
  }

  function Ops(us: seq<DatasetUsage>): (int, int) {
    if us == [] then (0, 0) else
    var (r, w), u := Ops(us[..|us| - 1]), us[|us| - 1];
    (r + u.readOps, w + u.writeOps)
  }

  /** The totals over the samples of one dataset; the owner is that of the first. */
  function AggOf(us: seq<DatasetUsage>): Agg
    requires us != []
  {
    Agg(us[0].owner, Sum(Physical(us)), Sum(Snap(us)), Sum(Dedup(us)), Ops(us).0, Ops(us).1, |us|)
  }

  /** One sample added to what has been collected. */
  function Add(a: Option<Agg>, u: DatasetUsage): Agg {
    var b := if a.Some? then a.value else Agg(u.owner, 0.0, 0.0, 0.0, 0, 0, 0);
    Agg(b.owner, b.storage + u.physicalGB, b.snap + u.snapshotGB, b.dedup + u.dedupRatio,
        b.readOps + u.readOps, b.writeOps + u.writeOps, b.samples + 1)
  }

  function MaybeAgg(us: seq<DatasetUsage>): Option<Agg> { if us == [] then None else Some(AggOf(us)) }

  lemma AggGrows(us: seq<DatasetUsage>, u: DatasetUsage)
    ensures MaybeAgg(us + [u]) == Some(Add(MaybeAgg(us), u))
  {
    hide Sum, Ops;
    OpsMore(us, u);
    SumMore(Physical(us), u.physicalGB);
    SumMore(Snap(us), u.snapshotGB);
    SumMore(Dedup(us), u.dedupRatio);
    SumOfNone();
    assert Physical(us + [u]) == Physical(us) + [u.physicalGB];
    assert Snap(us + [u]) == Snap(us) + [u.snapshotGB];
    assert Dedup(us + [u]) == Dedup(us) + [u.dedupRatio];
  }

  lemma OpsMore(us: seq<DatasetUsage>, u: DatasetUsage)
    ensures Ops(us + [u]) == (Ops(us).0 + u.readOps, Ops(us).1 + u.writeOps)
  {
    assert (us + [u])[..|us|] == us;
  }

  lemma SumOfNone()
    ensures Sum([]) == 0.0 && Ops([]) == (0, 0)
  {
  }

  function Lookup(m: map<string, Agg>, d: string): Option<Agg> { if d in m then Some(m[d]) else None }

  // ---- charges ----

  function AvgStorage(a: Agg): real { if a.samples > 0 then Div(a.storage, a.samples as real) else 0.0 }

  function StorageOf(h: seq<DatasetUsage>, p: Period): string -> real {
    (d: string) => if Samples(h, p, d) == [] then 0.0 else AvgStorage(AggOf(Samples(h, p, d)))
  }

  ghost function PoolTotal(h: seq<DatasetUsage>, p: Period): real { SetSum(Datasets(h, p), StorageOf(h, p)) }

  function MonthFraction(p: Period): real { (p.end - p.start) as real / HOUR as real / 720.0 }

  function IOCost(a: Agg, rc: RateCard): real {
    Mul(a.readOps as real / 1000000.0, rc.readPerMillion) + Mul(a.writeOps as real / 1000000.0, rc.writePerMillion)
  }

  function ChargeOf(d: string, a: Agg, rc: RateCard, fraction: real, poolTotal: real): Charge
    requires a.samples > 0
  {
    var n := a.samples as real;
    var avgStorage, avgSnap, avgDedup := Div(a.storage, n), Div(a.snap, n), Div(a.dedup, n);
    var storageCost := Mul(Mul(avgStorage, rc.storagePerGBMonth), fraction);
    var snapCost := Mul(Mul(avgSnap, rc.snapshotPerGBMonth), fraction);
    var ioCost := IOCost(a, rc);
    var savings := if avgDedup > 1.0
                   then Mul(Mul(Mul(avgStorage, 1.0 - Div(1.0, avgDedup)), rc.storagePerGBMonth), fraction) else 0.0;
    Charge(d, a.owner, avgStorage, storageCost, ioCost, snapCost, savings,
           storageCost + snapCost + ioCost - savings,
           if poolTotal > 0.0 then Div(avgStorage, poolTotal) * 100.0 else 0.0)
  }

  function Totals(cs: seq<Charge>): (r: seq<real>)
    ensures |r| == |cs| && forall i :: 0 <= i < |r| ==> r[i] == cs[i].total
  {
    seq(|cs|, i requires 0 <= i < |cs| => cs[i].total)
  }

  function Percents(cs: seq<Charge>): (r: seq<real>)
    ensures |r| == |cs| && forall i :: 0 <= i < |r| ==> r[i] == cs[i].pctOfPool
  {
    seq(|cs|, i requires 0 <= i < |cs| => cs[i].pctOfPool)
  }

  /** What a report is: one charge per dataset with samples in the period, priced from the
      averages over exactly those samples, and the charges' sum. */
  ghost predicate IsReport(r: Report, ds: seq<string>, h: seq<DatasetUsage>, p: Period, rc: RateCard) {
    && r.pool == p.pool && r.start == p.start && r.end == p.end
    && Distinct(ds) && SetOf(ds) == Datasets(h, p)
    && |r.charges| == |ds|
    && (forall i :: 0 <= i < |ds| ==>
          && Samples(h, p, ds[i]) != []
          && r.charges[i] == ChargeOf(ds[i], AggOf(Samples(h, p, ds[i])), rc, MonthFraction(p), PoolTotal(h, p)))
    && r.total == Sum(Totals(r.charges))
  }

  lemma NoTotal()
    ensures Sum(Totals([])) == 0.0
  {
  }

  lemma TotalMore(cs: seq<Charge>, c: Charge)
    ensures Sum(Totals(cs + [c])) == Sum(Totals(cs)) + c.total
  {
    assert Totals(cs + [c])[..|cs|] == Totals(cs);
  }

  lemma SetOfList(ds: seq<string>, keys: set<string>)
    requires forall d :: d in ds <==> d in keys
    ensures SetOf(ds) == keys
  {
  }

  function Recent(now: int): DatasetUsage -> bool { (u: DatasetUsage) => u.collectedAt > now - MAX_AGE }

  class Manager {
    var history: seq<DatasetUsage>
    var rateCard: RateCard
    ghost var log: seq<DatasetUsage>  // everything ever collected
    ghost var clock: int              // when Collect last ran

    ghost predicate Valid()
      reads this
    {
      history == Filter(log, Recent(clock))
    }

    constructor ()
      ensures Valid() && log == [] && rateCard == RateCard(0.023, 0.40, 5.00, 0.0125)
    {
      history, log, rateCard := [], [], RateCard(0.023, 0.40, 5.00, 0.0125);
    }

    /** The rows have been parsed; what is older than thirty days is filtered out in place. */
    method Collect(usages: seq<DatasetUsage>, now: int)
      requires Valid() && now >= clock
      modifies this
      ensures Valid() && clock == now && log == old(log) + usages && rateCard == old(rateCard)
      ensures forall u :: u in history <==> u in log && u.collectedAt > now - 2_592_000_000_000_000
    {
      var all := history + usages;
      var slice := new DatasetUsage[|all|](i requires 0 <= i < |all| => all[i]);
      assert slice[..|all|] == all;
      var kept := FilterInPlace(slice, |all|, Recent(now));
      history := slice[..kept];
      FilterAppend(Filter(log, Recent(clock)), usages, Recent(now));
      FilterAppend(log, usages, Recent(now));
      FilterTwice(log, Recent(clock), Recent(now));
      log, clock := log + usages, now;
      FilterMembers(log, Recent(now));
    }

    method Aggregate(p: Period) returns (byDataset: map<string, Agg>)
      ensures forall d :: Lookup(byDataset, d) == MaybeAgg(Samples(history, p, d))
    {
      hide Add, AggOf, MaybeAgg, Samples, Filter, Datasets;
      byDataset := map[];
      NoSamples(p);
      for i := 0 to |history|
        invariant forall d :: Lookup(byDataset, d) == MaybeAgg(Samples(history[..i], p, d))
      {
        var u := history[i];
        assert history[..i + 1] == history[..i] + [u];
        NextSample(history[..i], u, p);
        AggGrows(Samples(history[..i], p, u.dataset), u);
        if u.pool != p.pool || u.collectedAt < p.start || u.collectedAt > p.end {
          continue;
        }
        byDataset := byDataset[u.dataset := Add(Lookup(byDataset, u.dataset), u)];
      }
      assert history[..|history|] == history;
    }

    /** The first pass over the aggregates. */
    method TotalStorage(byDataset: map<string, Agg>, ghost f: string -> real) returns (poolTotal: real)
      requires forall d :: d in byDataset ==> AvgStorage(byDataset[d]) == f(d)
      ensures poolTotal == SetSum(byDataset.Keys, f)
    {
      poolTotal := 0.0;
      var left := byDataset.Keys;
      while left != {}
        invariant left <= byDataset.Keys
        invariant poolTotal + SetSum(left, f) == SetSum(byDataset.Keys, f)
      {
        var d :| d in left;
        SetSumPick(left, f, d);
        left := left - {d};
        poolTotal := poolTotal + AvgStorage(byDataset[d]);
      }
    }

    /** The second pass, in an order of its own. */
    method Price(byDataset: map<string, Agg>, fraction: real, poolTotal: real)
      returns (charges: seq<Charge>, total: real, ghost ds: seq<string>)
      requires forall d :: d in byDataset ==> byDataset[d].samples > 0
      ensures Distinct(ds) && SetOf(ds) == byDataset.Keys && |charges| == |ds|
      ensures forall i :: 0 <= i < |ds| ==>
                charges[i] == ChargeOf(ds[i], byDataset[ds[i]], rateCard, fraction, poolTotal)
      ensures total == Sum(Totals(charges))
    {
      NoTotal();
      hide ChargeOf, Sum, SetOf;
      charges, total, ds := [], 0.0, [];
      var left := byDataset.Keys;
      while left != {}
        invariant left <= byDataset.Keys
        invariant Distinct(ds) && forall d :: d in ds <==> d in byDataset && d !in left
        invariant |charges| == |ds| && total == Sum(Totals(charges))
        invariant forall i :: 0 <= i < |ds| ==>
                    charges[i] == ChargeOf(ds[i], byDataset[ds[i]], rateCard, fraction, poolTotal)
      {
        var d :| d in left;
        left := left - {d};
        var c := ChargeOf(d, byDataset[d], rateCard, fraction, poolTotal);
        TotalMore(charges, c);
        charges, ds, total := charges + [c], ds + [d], total + c.total;
      }
      SetOfList(ds, byDataset.Keys);
    }

    method GenerateReport(pool: string, start: int, end: int) returns (r: Report)
      ensures exists ds :: IsReport(r, ds, history, Period(pool, start, end), rateCard)
      ensures Valid() && start > clock - MAX_AGE ==>
                exists ds :: IsReport(r, ds, log, Period(pool, start, end), rateCard)
    {
      hide AggOf, Samples, Datasets, ChargeOf, MonthFraction, SetOf, Distinct, MaybeAgg;
      var p := Period(pool, start, end);
      var byDataset := Aggregate(p);
      AggregatesOf(byDataset, history, p);
      var poolTotal := TotalStorage(byDataset, StorageOf(history, p));
      var charges, total;
      ghost var ds;
      charges, total, ds := Price(byDataset, MonthFraction(p), poolTotal);
      forall i | 0 <= i < |ds| ensures ds[i] in byDataset {
        Listed(ds, i);
      }
      r := Report(pool, start, end, charges, total);
      assert IsReport(r, ds, history, p, rateCard);
      hide IsReport;
      if Valid() && start > clock - MAX_AGE {
        ReportOfAll(r, ds, log, clock, p, rateCard);
      }
    }
  }

  lemma Listed(ds: seq<string>, i: nat)
    requires i < |ds|
    ensures ds[i] in SetOf(ds)
  {
  }

  lemma NoSamples(p: Period)
    ensures forall d :: MaybeAgg(Samples([], p, d)) == None
  {
  }

  /** What the aggregated map says, for the loops over it. */
  lemma AggregatesOf(m: map<string, Agg>, h: seq<DatasetUsage>, p: Period)
    requires forall d :: Lookup(m, d) == MaybeAgg(Samples(h, p, d))
    ensures m.Keys == Datasets(h, p)
    ensures forall d :: d in m ==>
              && Samples(h, p, d) != [] && m[d] == AggOf(Samples(h, p, d)) && m[d].samples > 0
              && AvgStorage(m[d]) == StorageOf(h, p)(d)
  {
    forall d ensures d in m <==> d in Datasets(h, p) {
      DatasetsHaveSamples(h, p, d);
      assert Lookup(m, d) == MaybeAgg(Samples(h, p, d));
    }
  }

  // ---- what thirty days of history show ----

  /** A report on the kept history counts the samples that one on everything ever collected
      would, exactly if every in-period sample is younger than thirty days. */
  lemma HistoryCompleteIff(log: seq<DatasetUsage>, clock: int, p: Period)
    ensures (forall d :: Samples(Filter(log, Recent(clock)), p, d) == Samples(log, p, d))
            <==> forall u :: u in log && InPeriod(p)(u) ==> Recent(clock)(u)
  {
    var kept := Filter(log, Recent(clock));
    if forall u :: u in log && InPeriod(p)(u) ==> Recent(clock)(u) {
      forall d ensures Samples(kept, p, d) == Samples(log, p, d) {
        FilterTwice(log, Recent(clock), Of(p, d));
      }
    } else {
      var u :| u in log && InPeriod(p)(u) && !Recent(clock)(u);
      FilterMembers(log, Recent(clock));
      FilterMembers(kept, Of(p, u.dataset));
      FilterMembers(log, Of(p, u.dataset));
      assert u in Samples(log, p, u.dataset) && u !in Samples(kept, p, u.dataset);
    }
  }

  /** Whatever was collected, that is so exactly if the period starts within thirty days. */
  lemma PeriodCompleteIff(clock: int, p: Period)
    requires p.start <= p.end
    ensures (forall log, d :: Samples(Filter(log, Recent(clock)), p, d) == Samples(log, p, d))
            <==> p.start > clock - MAX_AGE
  {
    if p.start > clock - MAX_AGE {
      forall log, d ensures Samples(Filter(log, Recent(clock)), p, d) == Samples(log, p, d) {
        HistoryCompleteIff(log, clock, p);
      }
    } else {
      var u := DatasetUsage("", "", p.pool, 0.0, 0.0, 1.0, 0, 0, p.start);
      HistoryCompleteIff([u], clock, p);
      assert u in [u] && InPeriod(p)(u);
    }
  }

  /** A sample that is thirty days old when Collect runs is in no later report, of whatever
      period; and a dataset with none younger in a period is not in its report at all. */
  lemma OldSampleForgotten(log: seq<DatasetUsage>, u: DatasetUsage, clock: int, p: Period)
    requires u in log && InPeriod(p)(u) && clock >= u.collectedAt + MAX_AGE
    ensures u in Samples(log, p, u.dataset)
    ensures forall q: Period, d :: u !in Samples(Filter(log, Recent(clock)), q, d)
    ensures (forall x :: x in log && Of(p, u.dataset)(x) ==> !Recent(clock)(x)) ==>
              u.dataset in Datasets(log, p) && u.dataset !in Datasets(Filter(log, Recent(clock)), p)
  {
    var kept := Filter(log, Recent(clock));
    FilterMembers(log, Recent(clock));
    FilterMembers(log, Of(p, u.dataset));
    FilterMembers(log, InPeriod(p));
    FilterMembers(kept, InPeriod(p));
    forall q: Period, d ensures u !in Samples(kept, q, d) {
      FilterMembers(kept, Of(q, d));
    }
    hide Filter;
  }

  lemma SameReport(r: Report, ds: seq<string>, h: seq<DatasetUsage>, h': seq<DatasetUsage>, p: Period, rc: RateCard)
    requires IsReport(r, ds, h, p, rc) && forall d :: Samples(h, p, d) == Samples(h', p, d)
    ensures IsReport(r, ds, h', p, rc)
  {
    hide Samples, ChargeOf, AggOf, MonthFraction;
    assert Datasets(h, p) == Datasets(h', p) by {
      forall d ensures d in Datasets(h, p) <==> d in Datasets(h', p) {
        DatasetsHaveSamples(h, p, d);
        DatasetsHaveSamples(h', p, d);
      }
    }
    hide Datasets;
    SetSumAgree(Datasets(h, p), StorageOf(h, p), StorageOf(h', p));
  }

  /** Such a report is the one that the complete log calls for. */
  lemma ReportOfAll(r: Report, ds: seq<string>, log: seq<DatasetUsage>, clock: int, p: Period, rc: RateCard)
    requires IsReport(r, ds, Filter(log, Recent(clock)), p, rc) && p.start > clock - MAX_AGE
    ensures IsReport(r, ds, log, p, rc)
  {
    HistoryCompleteIff(log, clock, p);
    SameReport(r, ds, Filter(log, Recent(clock)), log, p, rc);
  }

  // ---- what a charge says ----

  function Column(us: seq<DatasetUsage>, f: DatasetUsage -> real): (r: seq<real>) {
    seq(|us|, i requires 0 <= i < |us| => f(us[i]))
  }

  function PhysicalGB(): DatasetUsage -> real { (u: DatasetUsage) => u.physicalGB }
  function SnapshotGB(): DatasetUsage -> real { (u: DatasetUsage) => u.snapshotGB }
  function DedupRatio(): DatasetUsage -> real { (u: DatasetUsage) => u.dedupRatio }
  function ReadOps(): DatasetUsage -> real { (u: DatasetUsage) => u.readOps as real }
  function WriteOps(): DatasetUsage -> real { (u: DatasetUsage) => u.writeOps as real }

  lemma ColumnsAre(us: seq<DatasetUsage>)
    ensures Column(us, PhysicalGB()) == Physical(us)
    ensures Column(us, SnapshotGB()) == Snap(us)
    ensures Column(us, DedupRatio()) == Dedup(us)
  {
  }

  /** A price per gigabyte and thirty days, for the length of the period. */
  ghost predicate IsMonthly(cost: real, gb: real, rate: real, p: Period) {
    cost * 2_592_000_000_000_000.0 == Mul(Mul(gb, rate), (p.end - p.start) as real)
  }

  /** A price per million operations. */
  ghost predicate IsIOCost(cost: real, us: seq<DatasetUsage>, rc: RateCard) {
    cost * 1_000_000.0 == Mul(Sum(Column(us, ReadOps())), rc.readPerMillion)
                           + Mul(Sum(Column(us, WriteOps())), rc.writePerMillion)
  }

  /** Of the storage cost as much as the mean deduplication ratio is above one. */
  ghost predicate IsSaving(saving: real, storageCost: real, us: seq<DatasetUsage>) {
    var ratios, n := Sum(Column(us, DedupRatio())), |us| as real;
    if ratios > n then Mul(ratios, saving) == Mul(ratios - n, storageCost) else saving == 0.0
  }

  ghost predicate IsMean(mean: real, xs: seq<real>) { Mul(|xs| as real, mean) == Sum(xs) }

  /** A charge prices the means over a dataset's samples. */
  ghost predicate Prices(c: Charge, d: string, us: seq<DatasetUsage>, rc: RateCard, p: Period, poolTotal: real) {
    && us != [] && c.dataset == d && c.owner == us[0].owner
    && IsMean(c.storageGB, Column(us, PhysicalGB()))
    && IsMonthly(c.storageCost, c.storageGB, rc.storagePerGBMonth, p)
    && (exists gb ::
          IsMean(gb, Column(us, SnapshotGB())) && IsMonthly(c.snapshotCost, gb, rc.snapshotPerGBMonth, p))
    && IsIOCost(c.ioCost, us, rc)
    && IsSaving(c.dedupSavings, c.storageCost, us)
    && c.total == c.storageCost + c.snapshotCost + c.ioCost - c.dedupSavings
    && (if poolTotal > 0.0 then Mul(poolTotal, c.pctOfPool) == 100.0 * c.storageGB else c.pctOfPool == 0.0)
  }

  lemma {:induction false} OpsAreSums(us: seq<DatasetUsage>)
    ensures Ops(us).0 as real == Sum(Column(us, ReadOps())) && Ops(us).1 as real == Sum(Column(us, WriteOps()))
  {
    if us != [] {
      var n := |us| - 1;
      OpsAreSums(us[..n]);
      assert Column(us, ReadOps())[..n] == Column(us[..n], ReadOps());
      assert Column(us, WriteOps())[..n] == Column(us[..n], WriteOps());
    }
  }

  lemma MonthlyIs(gb: real, rate: real, p: Period)
    ensures IsMonthly(Mul(Mul(gb, rate), MonthFraction(p)), gb, rate, p)
  {
    var length := (p.end - p.start) as real;
    assert MonthFraction(p) * 2_592_000_000_000_000.0 == length;
    Scaled(Mul(gb, rate), MonthFraction(p), 2_592_000_000_000_000.0, length);
  }

  lemma Scaled(k: real, x: real, c: real, y: real)
    requires x * c == y
    ensures Mul(k, x) * c == Mul(k, y)
  {
    assert k * (x * c) == k * x * c;
  }

  lemma IOCostIs(us: seq<DatasetUsage>, rc: RateCard)
    requires us != []
    ensures IsIOCost(IOCost(AggOf(us), rc), us, rc)
  {
    OpsAreSums(us);
    Millionth(Ops(us).0 as real, rc.readPerMillion);
    Millionth(Ops(us).1 as real, rc.writePerMillion);
    hide Mul, Ops;
  }

  lemma Millionth(x: real, rate: real)
    ensures Mul(x / 1000000.0, rate) * 1_000_000.0 == Mul(x, rate)
  {
    assert x / 1000000.0 * rate * 1_000_000.0 == x * rate;
  }

  lemma SavingIs(gb: real, rate: real, fraction: real, us: seq<DatasetUsage>)
    requires us != []
    ensures var mean := Div(Sum(Dedup(us)), |us| as real);
            IsSaving(if mean > 1.0 then Mul(Mul(Mul(gb, 1.0 - Div(1.0, mean)), rate), fraction) else 0.0,
                     Mul(Mul(gb, rate), fraction), us)
  {
    var n, total := |us| as real, Sum(Dedup(us));
    var mean := Div(total, n);
    ColumnsAre(us);
    QuotientOf(total, n);
    ProductOrder(n, mean, 1.0);
    UnitProduct(n);
    if mean > 1.0 {
      QuotientOf(1.0, mean);
      SavingAlgebra(gb, rate, fraction, n, total, mean, Div(1.0, mean));
    }
    hide Mul, Div, Sum, Dedup, Column;
  }

  lemma SavingAlgebra(gb: real, rate: real, fraction: real, n: real, total: real, mean: real, part: real)
    requires Mul(n, mean) == total && Mul(mean, part) == 1.0
    ensures Mul(total, Mul(Mul(Mul(gb, 1.0 - part), rate), fraction)) == Mul(total - n, Mul(Mul(gb, rate), fraction))
  {
    var price := rate * fraction;
    assert total * part == n * (mean * part) == n;
    Regrouped(gb, 1.0 - part, rate, fraction);
    assert gb * rate * fraction == gb * price;
    assert total * (gb * (1.0 - part) * price) == (total - total * part) * (gb * price) by {
      Redistributed(total, gb * price, part, gb, price);
    }
  }

  lemma Regrouped(gb: real, share: real, rate: real, fraction: real)
    ensures gb * share * rate * fraction == gb * share * (rate * fraction)
  {
  }

  lemma Redistributed(total: real, cost: real, part: real, gb: real, price: real)
    requires cost == gb * price
    ensures total * (gb * (1.0 - part) * price) == (total - total * part) * cost
  {
    assert gb * (1.0 - part) * price == (1.0 - part) * cost;
    assert total * ((1.0 - part) * cost) == (total - total * part) * cost;
  }

  /** Every charge of a dataset prices its samples. */
  lemma ChargePrices(d: string, us: seq<DatasetUsage>, rc: RateCard, p: Period, poolTotal: real)
    requires us != []
    ensures Prices(ChargeOf(d, AggOf(us), rc, MonthFraction(p), poolTotal), d, us, rc, p, poolTotal)
  {
    hide Mul, Div, Sum, MonthFraction, IsMonthly, IsIOCost, IsSaving, IOCost, Ops, Column;
    ColumnsAre(us);
    var n := |us| as real;
    var gb, snap := Div(Sum(Physical(us)), n), Div(Sum(Snap(us)), n);
    QuotientOf(Sum(Physical(us)), n);
    QuotientOf(Sum(Snap(us)), n);
    MonthlyIs(gb, rc.storagePerGBMonth, p);
    MonthlyIs(snap, rc.snapshotPerGBMonth, p);
    IOCostIs(us, rc);
    SavingIs(gb, rc.storagePerGBMonth, MonthFraction(p), us);
    if poolTotal > 0.0 {
      QuotientOf(gb, poolTotal);
      TimesHundred(poolTotal, Div(gb, poolTotal));
    }
    assert IsMean(snap, Column(us, SnapshotGB()));
  }

  lemma TimesHundred(t: real, q: real)
    ensures Mul(t, q * 100.0) == 100.0 * Mul(t, q)
  {
  }

  /** A report prices, for each of its datasets, exactly the samples of the pool and dataset
      that were collected from its start to its end. */
  lemma ReportPrices(r: Report, ds: seq<string>, h: seq<DatasetUsage>, p: Period, rc: RateCard, i: nat)
    requires IsReport(r, ds, h, p, rc) && i < |ds|
    ensures var us := Samples(h, p, ds[i]);
            && Prices(r.charges[i], ds[i], us, rc, p, PoolTotal(h, p))
            && forall u :: u in us <==>
                 u in h && u.pool == r.pool && u.dataset == ds[i] && r.start <= u.collectedAt <= r.end
  {
    var us := Samples(h, p, ds[i]);
    FilterMembers(h, Of(p, ds[i]));
    ChargePrices(ds[i], us, rc, p, PoolTotal(h, p));
    hide Filter, Prices, ChargeOf, AggOf, MonthFraction, PoolTotal;
  }

  // ---- laws of a report ----

  /** When the pool holds anything the percentages add up to a hundred. */
  lemma PercentsSum(r: Report, ds: seq<string>, h: seq<DatasetUsage>, p: Period, rc: RateCard)
    requires IsReport(r, ds, h, p, rc) && PoolTotal(h, p) > 0.0
    ensures Sum(Percents(r.charges)) == 100.0
  {
    hide Mul, Div, Samples, Datasets, ChargeOf, AggOf, SetOf;
    var total, f := PoolTotal(h, p), StorageOf(h, p);
    var unit := Div(1.0, total);
    QuotientOf(1.0, total);
    ListedSum(ds, f);
    forall i | 0 <= i < |ds| ensures Percents(r.charges)[i] == Mul(100.0 * unit, Values(ds, f)[i]) {
      SamplesCount(h, p, ds[i]);
      PercentOfPool(ds[i], AggOf(Samples(h, p, ds[i])), rc, MonthFraction(p), total);
    }
    ScaledSum(Percents(r.charges), Values(ds, f), 100.0 * unit);
    WholeIsHundred(total, unit);
  }

  lemma PercentOfPool(d: string, a: Agg, rc: RateCard, fraction: real, total: real)
    requires a.samples > 0 && total > 0.0
    ensures ChargeOf(d, a, rc, fraction, total).pctOfPool == Mul(100.0 * Div(1.0, total), AvgStorage(a))
  {
    hide Mul, Div;
    QuotientOf(1.0, total);
    QuotientOf(AvgStorage(a), total);
    ShareOf(AvgStorage(a), total, Div(AvgStorage(a), total), Div(1.0, total));
  }

  lemma {:induction false} ScaledSum(ps: seq<real>, xs: seq<real>, k: real)
    requires |ps| == |xs| && forall i :: 0 <= i < |ps| ==> ps[i] == Mul(k, xs[i])
    ensures Sum(ps) == Mul(k, Sum(xs))
  {
    hide Mul;
    if ps != [] {
      var n := |ps| - 1;
      ScaledSum(ps[..n], xs[..n], k);
      Distribute(k, Sum(xs[..n]), xs[n], Sum(xs));
    } else {
      TimesZero(k, k, k, k);
    }
  }

  lemma ShareOf(x: real, total: real, share: real, unit: real)
    requires total > 0.0 && Mul(total, share) == x && Mul(total, unit) == 1.0
    ensures share * 100.0 == Mul(100.0 * unit, x)
  {
    assert Mul(total, Mul(unit, x)) == Mul(Mul(total, unit), x);
    ProductOrder(total, share, Mul(unit, x));
  }

  lemma WholeIsHundred(total: real, unit: real)
    requires Mul(total, unit) == 1.0
    ensures Mul(100.0 * unit, total) == 100.0
  {
  }

  predicate RatesOk(rc: RateCard) {
    rc.storagePerGBMonth >= 0.0 && rc.readPerMillion >= 0.0 && rc.writePerMillion >= 0.0 && rc.snapshotPerGBMonth >= 0.0
  }

  predicate SampleOk(u: DatasetUsage) {
    u.physicalGB >= 0.0 && u.snapshotGB >= 0.0 && u.readOps >= 0 && u.writeOps >= 0
  }

  lemma {:induction false} AggNotNegative(us: seq<DatasetUsage>)
    requires us != [] && forall u :: u in us ==> SampleOk(u)
    ensures var a := AggOf(us); a.storage >= 0.0 && a.snap >= 0.0 && a.readOps >= 0 && a.writeOps >= 0
  {
    forall i | 0 <= i < |us| ensures Physical(us)[i] >= 0.0 && Snap(us)[i] >= 0.0 {
      assert us[i] in us;
    }
    SumAtLeast(Physical(us), 0);
    SumAtLeast(Snap(us), 0);
    OpsNotNegative(us);
  }

  lemma {:induction false} OpsNotNegative(us: seq<DatasetUsage>)
    requires forall u :: u in us ==> SampleOk(u)
    ensures Ops(us).0 >= 0 && Ops(us).1 >= 0
  {
    if us != [] {
      assert us[|us| - 1] in us && forall u :: u in us[..|us| - 1] ==> u in us;
      OpsNotNegative(us[..|us| - 1]);
    }
  }

  /** With no negative rates or readings every charge is non-negative: what deduplication saves
      never exceeds the storage cost it is taken from. */
  lemma ChargeNotNegative(d: string, a: Agg, rc: RateCard, fraction: real, poolTotal: real)
    requires a.samples > 0 && a.storage >= 0.0 && a.snap >= 0.0 && a.readOps >= 0 && a.writeOps >= 0
    requires RatesOk(rc) && fraction >= 0.0
    ensures var c := ChargeOf(d, a, rc, fraction, poolTotal);
            && 0.0 <= c.dedupSavings <= c.storageCost
            && c.snapshotCost >= 0.0 && c.ioCost >= 0.0 && c.total >= 0.0
  {
    hide Mul, Div;
    var n := a.samples as real;
    var storage, snap, dedup := Div(a.storage, n), Div(a.snap, n), Div(a.dedup, n);
    QuotientOf(a.storage, n);
    QuotientOf(a.snap, n);
    PriceNotNegative(storage, rc.storagePerGBMonth, fraction);
    PriceNotNegative(snap, rc.snapshotPerGBMonth, fraction);
    ProductNotNegative(a.readOps as real / 1000000.0, rc.readPerMillion);
    ProductNotNegative(a.writeOps as real / 1000000.0, rc.writePerMillion);
    if dedup > 1.0 {
      QuotientOf(1.0, dedup);
      ProductOrder(dedup, Div(1.0, dedup), 1.0);
      UnitProduct(dedup);
      SavingsAtMost(storage, 1.0 - Div(1.0, dedup), rc.storagePerGBMonth, fraction);
    }
  }

  lemma UnitProduct(x: real)
    ensures Mul(x, 1.0) == x
  {
  }

  lemma PriceNotNegative(gb: real, rate: real, fraction: real)
    requires gb >= 0.0 && rate >= 0.0 && fraction >= 0.0
    ensures Mul(Mul(gb, rate), fraction) >= 0.0
  {
    ProductNotNegative(gb, rate);
    ProductNotNegative(Mul(gb, rate), fraction);
  }

  lemma SavingsAtMost(gb: real, share: real, rate: real, fraction: real)
    requires gb >= 0.0 && 0.0 <= share <= 1.0 && rate >= 0.0 && fraction >= 0.0
    ensures 0.0 <= Mul(Mul(Mul(gb, share), rate), fraction) <= Mul(Mul(gb, rate), fraction)
  {
    ProductNotNegative(gb, share);
    ProductNotNegative(gb, 1.0 - share);
    PriceNotNegative(Mul(gb, share), rate, fraction);
    PriceNotNegative(Mul(gb, 1.0 - share), rate, fraction);
    SplitPrice(gb, share, rate, fraction);
  }

  lemma SplitPrice(gb: real, share: real, rate: real, fraction: real)
    ensures Mul(Mul(gb, rate), fraction)
            == Mul(Mul(Mul(gb, share), rate), fraction) + Mul(Mul(Mul(gb, 1.0 - share), rate), fraction)
  {
    var kept, saved, price := gb * (1.0 - share), gb * share, rate * fraction;
    assert kept + saved == gb;
    assert gb * price == kept * price + saved * price;
  }

  /** Over a whole report: nothing is charged below zero, whatever period was asked for. */
  lemma ReportNotNegative(r: Report, ds: seq<string>, h: seq<DatasetUsage>, p: Period, rc: RateCard)
    requires IsReport(r, ds, h, p, rc) && RatesOk(rc) && forall u :: u in h ==> SampleOk(u)
    ensures forall c :: c in r.charges ==> c.total >= 0.0
    ensures r.total >= 0.0
  {
    hide Mul, Div, ChargeOf, AggOf, Samples, Datasets;
    forall i | 0 <= i < |ds| ensures r.charges[i].total >= 0.0 {
      PeriodForward(h, p, ds[i]);
      AggNotNegative(Samples(h, p, ds[i]));
      SamplesCount(h, p, ds[i]);
      ChargeNotNegative(ds[i], AggOf(Samples(h, p, ds[i])), rc, MonthFraction(p), PoolTotal(h, p));
    }
    SumAtLeast(Totals(r.charges), 0);
  }

  lemma SamplesCount(h: seq<DatasetUsage>, p: Period, d: string)
    requires Samples(h, p, d) != []
    ensures AggOf(Samples(h, p, d)).samples > 0
  {
  }

  /** A period that has samples does not end before it starts. */
  lemma PeriodForward(h: seq<DatasetUsage>, p: Period, d: string)
    requires Samples(h, p, d) != []
    ensures MonthFraction(p) >= 0.0
    ensures forall u :: u in Samples(h, p, d) ==> u in h
  {
    FilterMembers(h, Of(p, d));
    assert Samples(h, p, d)[0] in Samples(h, p, d);
    var hours := (p.end - p.start) as real / HOUR as real;
    assert hours >= 0.0;
  }
}
