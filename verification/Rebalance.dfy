/** The rebalance simulator: what a pool looks like once its data are spread over all vdevs in
    proportion to their capacity, and how much data that would move. */
module Rebalance {
  import opened Prelude
  import opened Moments

  datatype VdevConfig = VdevConfig(id: string, capacity: nat, used: nat)
  datatype PoolConfig = PoolConfig(vdevs: seq<VdevConfig>, totalSize: nat, usedSize: nat)
  datatype Config = Config(throughputMBps: real, warnUsage: real, warnMovement: real)
  datatype Detail = Detail(id: string, capacity: nat, used: nat, usage: real, deviation: real)
  datatype Distribution = Distribution(vdevs: seq<Detail>, average: real, maxDeviation: real, warnThreshold: real)
  datatype Warning = StillFull | HighMovement | LongDuration

  datatype Result = Result(
    after: PoolConfig, movement: nat, movementPercent: real, duration: int,
    utilBefore: real, utilAfter: real, improvedBy: real,
    beforeDistribution: Distribution, afterDistribution: Distribution, warnings: seq<Warning>)

  function TotalCapacity(vdevs: seq<VdevConfig>): nat {
    if vdevs == [] then 0 else TotalCapacity(vdevs[..|vdevs| - 1]) + vdevs[|vdevs| - 1].capacity
  }

  function TotalUsed(vdevs: seq<VdevConfig>): nat {
    if vdevs == [] then 0 else TotalUsed(vdevs[..|vdevs| - 1]) + vdevs[|vdevs| - 1].used
  }

  // ---- distribution ----

  function Usage(v: VdevConfig): real {
    if v.capacity > 0 then Div(v.used as real, v.capacity as real) * 100.0 else 0.0
  }

  function Usages(vdevs: seq<VdevConfig>): (r: seq<real>)
    ensures |r| == |vdevs| && forall i :: 0 <= i < |r| ==> r[i] == Usage(vdevs[i])
  {
    seq(|vdevs|, i requires 0 <= i < |vdevs| => Usage(vdevs[i]))
  }

  function Average(vdevs: seq<VdevConfig>): real
    requires vdevs != []
  {
    Div(Sum(Usages(vdevs)), |vdevs| as real)
  }

  function Abs(x: real): real { if x < 0.0 then -x else x }

  function DetailOf(v: VdevConfig, avg: real): Detail {
    Detail(v.id, v.capacity, v.used, Usage(v), Abs(Usage(v) - avg))
  }

  function Details(vdevs: seq<VdevConfig>, avg: real): (r: seq<Detail>)
    ensures |r| == |vdevs| && forall i :: 0 <= i < |r| ==> r[i] == DetailOf(vdevs[i], avg)
  {
    seq(|vdevs|, i requires 0 <= i < |vdevs| => DetailOf(vdevs[i], avg))
  }

  predicate FullerFirst(a: Detail, b: Detail) { a.usage >= b.usage }

  /** A distribution lists every vdev with its distance from the mean usage, fullest first, and
      the largest of those distances. */
  ghost predicate IsDistribution(d: Distribution, vdevs: seq<VdevConfig>, threshold: real) {
    if vdevs == [] then d == Distribution([], 0.0, 0.0, threshold) else
    && d.average == Average(vdevs)
    && multiset(d.vdevs) == multiset(Details(vdevs, d.average))
    && Sorted(d.vdevs, FullerFirst)
    && (forall v :: v in vdevs ==> DetailOf(v, d.average).deviation <= d.maxDeviation)
    && (exists v :: v in vdevs && DetailOf(v, d.average).deviation == d.maxDeviation)
    && d.warnThreshold == threshold
  }

  method BuildDistribution(vdevs: seq<VdevConfig>, threshold: real) returns (d: Distribution)
    ensures IsDistribution(d, vdevs, threshold)
  {
    hide Usage, Sorted;
    if vdevs == [] {
      return Distribution([], 0.0, 0.0, threshold);
    }
    var total := 0.0;
    ghost var us := Usages(vdevs);
    for i := 0 to |vdevs|
      invariant total == Sum(us[..i])
    {
      total := total + Usage(vdevs[i]);
      SumNext(us, i);
    }
    assert us[..|us|] == us;
    var avg := Div(total, |vdevs| as real);
    var details := new Detail[|vdevs|](i requires 0 <= i < |vdevs| => DetailOf(vdevs[i], avg));
    assert details[..] == Details(vdevs, avg);
    var maxDev := LargestDeviation(vdevs, avg);
    SortSlice(details, FullerFirst);
    d := Distribution(details[..], avg, maxDev, threshold);
  }

  method LargestDeviation(vdevs: seq<VdevConfig>, avg: real) returns (maxDev: real)
    requires vdevs != []
    ensures forall v :: v in vdevs ==> DetailOf(v, avg).deviation <= maxDev
    ensures exists v :: v in vdevs && DetailOf(v, avg).deviation == maxDev
  {
    hide Usage;
    maxDev := 0.0;
    ghost var w := 0;
    for i := 0 to |vdevs|
      invariant maxDev >= 0.0 && (i == 0 ==> maxDev == 0.0 && w == 0)
      invariant forall k :: 0 <= k < i ==> DetailOf(vdevs[k], avg).deviation <= maxDev
      invariant i > 0 ==> 0 <= w < i && DetailOf(vdevs[w], avg).deviation == maxDev
    {
      var dev := Abs(Usage(vdevs[i]) - avg);
      assert DetailOf(vdevs[i], avg).deviation == dev >= 0.0;
      if dev > maxDev {
        maxDev := dev;
        w := i;
      }
    }
  }

  /** What a row of a distribution says of its vdev. */
  ghost predicate Describes(x: Detail, v: VdevConfig, average: real) {
    && x.id == v.id && x.capacity == v.capacity && x.used == v.used
    && (if v.capacity == 0 then x.usage == 0.0 else Mul(v.capacity as real, x.usage) == 100.0 * v.used as real)
    && x.deviation >= 0.0 && (x.deviation == x.usage - average || x.deviation == average - x.usage)
  }

  lemma DetailDescribes(v: VdevConfig, average: real)
    ensures Describes(DetailOf(v, average), v, average)
  {
    if v.capacity > 0 {
      QuotientOf(v.used as real, v.capacity as real);
      Hundredfold(v.capacity as real, Div(v.used as real, v.capacity as real));
    }
    hide Mul, Div;
  }

  lemma Hundredfold(c: real, q: real)
    ensures Mul(c, q * 100.0) == 100.0 * Mul(c, q)
  {
  }

  /** A distribution has one row per vdev, fullest first, each with the vdev's usage in percent
      and its distance from the mean usage, of which the largest is given. */
  lemma DistributionMeans(d: Distribution, vdevs: seq<VdevConfig>, threshold: real)
    requires vdevs != [] && IsDistribution(d, vdevs, threshold)
    ensures |d.vdevs| == |vdevs|
    ensures forall i, j :: 0 <= i < j < |d.vdevs| ==> d.vdevs[i].usage >= d.vdevs[j].usage
    ensures forall x :: x in d.vdevs ==>
              x.deviation <= d.maxDeviation && exists v :: v in vdevs && Describes(x, v, d.average)
    ensures forall v :: v in vdevs ==> exists x :: x in d.vdevs && Describes(x, v, d.average)
    ensures exists x :: x in d.vdevs && x.deviation == d.maxDeviation
    ensures d.warnThreshold == threshold && Mul(|vdevs| as real, d.average) == Sum(Usages(vdevs))
  {
    MeanTimes(vdevs);
    SameElements(d.vdevs, Details(vdevs, d.average));
    RowsDescribe(vdevs, d.average);
    assert forall i, j :: 0 <= i < j < |d.vdevs| ==> FullerFirst(d.vdevs[i], d.vdevs[j]);
    hide Average, DetailOf, Describes, Sorted;
    forall x | x in d.vdevs ensures x.deviation <= d.maxDeviation {
      var v :| v in vdevs && x == DetailOf(v, d.average);
    }
    var v :| v in vdevs && DetailOf(v, d.average).deviation == d.maxDeviation;
  }

  lemma RowsDescribe(vdevs: seq<VdevConfig>, average: real)
    ensures var details := Details(vdevs, average);
            && |details| == |vdevs|
            && (forall x :: x in details ==>
                  exists v :: v in vdevs && x == DetailOf(v, average) && Describes(x, v, average))
            && (forall v :: v in vdevs ==>
                  DetailOf(v, average) in details && Describes(DetailOf(v, average), v, average))
  {
    var details := Details(vdevs, average);
    hide Describes, DetailOf;
    forall x | x in details ensures exists v :: v in vdevs && x == DetailOf(v, average) && Describes(x, v, average) {
      var i :| 0 <= i < |details| && details[i] == x;
      assert vdevs[i] in vdevs;
      DetailDescribes(vdevs[i], average);
    }
    forall v | v in vdevs ensures DetailOf(v, average) in details && Describes(DetailOf(v, average), v, average) {
      var i :| 0 <= i < |vdevs| && vdevs[i] == v;
      assert details[i] in details;
      DetailDescribes(v, average);
    }
  }

  lemma SameElements<T>(s: seq<T>, t: seq<T>)
    requires multiset(s) == multiset(t)
    ensures |s| == |t| && forall x :: x in s <==> x in t
  {
    assert |multiset(s)| == |multiset(t)|;
    assert forall x :: (x in s <==> x in multiset(s)) && (x in t <==> x in multiset(t));
  }

  // ---- the pool after rebalancing ----

  function Assigned(usedSize: nat, capacity: nat, totalSize: nat): nat
    requires totalSize > 0
  {
    ShareNotNegative(usedSize as real, capacity as real, totalSize as real);
    Trunc(Mul(usedSize as real, Div(capacity as real, totalSize as real)))
  }

  lemma ShareNotNegative(used: real, capacity: real, total: real)
    requires used >= 0.0 && capacity >= 0.0 && total > 0.0
    ensures Mul(used, Div(capacity, total)) >= 0.0
  {
    QuotientOf(capacity, total);
    ProductNotNegative(used, Div(capacity, total));
  }

  /** Each vdev with its share of the data. */
  function AfterVdevs(vdevs: seq<VdevConfig>, usedSize: nat, totalSize: nat): (r: seq<VdevConfig>)
    requires totalSize > 0
    ensures |r| == |vdevs|
    ensures forall i :: 0 <= i < |r| ==>
              r[i] == VdevConfig(vdevs[i].id, vdevs[i].capacity, Assigned(usedSize, vdevs[i].capacity, totalSize))
  {
    seq(|vdevs|, i requires 0 <= i < |vdevs| =>
      VdevConfig(vdevs[i].id, vdevs[i].capacity, Assigned(usedSize, vdevs[i].capacity, totalSize)))
  }

  method BuildAfterDistribution(after: PoolConfig, usedSize: nat, threshold: real) returns (d: Distribution)
    ensures after.totalSize == 0 ==> d == Distribution([], 0.0, 0.0, threshold)
    ensures after.totalSize > 0 ==> IsDistribution(d, AfterVdevs(after.vdevs, usedSize, after.totalSize), threshold)
  {
    hide IsDistribution, Assigned;
    if after.totalSize == 0 {
      return Distribution([], 0.0, 0.0, threshold);
    }
    var modified := [];
    for i := 0 to |after.vdevs|
      invariant modified == AfterVdevs(after.vdevs, usedSize, after.totalSize)[..i]
    {
      var v := after.vdevs[i];
      modified := modified + [v.(used := Assigned(usedSize, v.capacity, after.totalSize))];
    }
    assert modified == AfterVdevs(after.vdevs, usedSize, after.totalSize);
    d := BuildDistribution(modified, threshold);
  }

  /** What a vdev is due in proportion to its capacity. */
  function Due(usedSize: nat, capacity: nat, totalSize: nat): real
    requires totalSize > 0
  {
    Div(Mul(usedSize as real, capacity as real), totalSize as real)
  }

  /** It is rounded down by less than one byte. */
  lemma AssignedRounds(usedSize: nat, capacity: nat, totalSize: nat)
    requires totalSize > 0
    ensures var due := Due(usedSize, capacity, totalSize);
            due - 1.0 < Assigned(usedSize, capacity, totalSize) as real <= due
  {
    hide Mul, Div;
    var u, c, t := usedSize as real, capacity as real, totalSize as real;
    ShareNotNegative(u, c, t);
    QuotientOf(c, t);
    QuotientOf(Mul(u, c), t);
    SameShare(u, c, t, Div(c, t), Div(Mul(u, c), t));
  }

  lemma SameShare(u: real, c: real, t: real, q: real, due: real)
    requires t > 0.0 && Mul(t, q) == c && Mul(t, due) == Mul(u, c)
    ensures Mul(u, q) == due
  {
    assert Mul(t, Mul(u, q)) == Mul(u, Mul(t, q));
    ProductOrder(t, Mul(u, q), due);
  }

  lemma DueAdds(usedSize: nat, a: nat, b: nat, totalSize: nat)
    requires totalSize > 0
    ensures Due(usedSize, a + b, totalSize) == Due(usedSize, a, totalSize) + Due(usedSize, b, totalSize)
    ensures Due(usedSize, 0, totalSize) == 0.0 && Due(usedSize, totalSize, totalSize) == usedSize as real
  {
    hide Mul, Div;
    var u, x, y, t := usedSize as real, a as real, b as real, totalSize as real;
    QuotientOf(Mul(u, x), t);
    QuotientOf(Mul(u, y), t);
    QuotientOf(Mul(u, x + y), t);
    QuotientOf(Mul(u, t), t);
    QuotientOf(Mul(u, 0.0), t);
    SharesAdd(u, x, y, t, Div(Mul(u, x), t), Div(Mul(u, y), t));
    ProductOrder(t, Div(Mul(u, x + y), t), Div(Mul(u, x), t) + Div(Mul(u, y), t));
    ProductOrder(t, Div(Mul(u, t), t), u);
  }

  lemma SharesAdd(u: real, x: real, y: real, t: real, p: real, q: real)
    requires Mul(t, p) == Mul(u, x) && Mul(t, q) == Mul(u, y)
    ensures Mul(t, p + q) == Mul(u, x + y)
    ensures Mul(u, 0.0) == 0.0 && Mul(u, t) == Mul(t, u)
  {
  }

  /** What is assigned falls short of what is due by less than one byte per vdev. */
  lemma {:induction false} AssignedSum(vdevs: seq<VdevConfig>, usedSize: nat, totalSize: nat)
    requires totalSize > 0
    ensures var got := TotalUsed(AfterVdevs(vdevs, usedSize, totalSize)) as real;
            var due := Due(usedSize, TotalCapacity(vdevs), totalSize);
            got <= due && (vdevs != [] ==> due - |vdevs| as real < got)
  {
    hide Due, Assigned;
    DueAdds(usedSize, 0, 0, totalSize);
    if vdevs != [] {
      var init, v := vdevs[..|vdevs| - 1], vdevs[|vdevs| - 1];
      AssignedSum(init, usedSize, totalSize);
      AssignedRounds(usedSize, v.capacity, totalSize);
      DueAdds(usedSize, TotalCapacity(init), v.capacity, totalSize);
      assert AfterVdevs(vdevs, usedSize, totalSize)[..|init|] == AfterVdevs(init, usedSize, totalSize);
    }
  }

  /** With the total that the simulator computes, the capacity sum: no byte is invented and
      fewer than one per vdev are lost. */
  lemma DataConserved(vdevs: seq<VdevConfig>, usedSize: nat)
    requires TotalCapacity(vdevs) > 0
    ensures var got := TotalUsed(AfterVdevs(vdevs, usedSize, TotalCapacity(vdevs)));
            got <= usedSize < got + |vdevs|
  {
    hide Due, AfterVdevs;
    AssignedSum(vdevs, usedSize, TotalCapacity(vdevs));
    DueAdds(usedSize, 0, 0, TotalCapacity(vdevs));
  }

  // ---- evenness ----

  /** The usage of the whole pool, in percent. */
  function Utilisation(usedSize: nat, totalSize: nat): real
    requires totalSize > 0
  {
    Div(usedSize as real, totalSize as real) * 100.0
  }

  /** One byte of a vdev, in percent of it. */
  function Granule(capacity: nat): real
    requires capacity > 0
  {
    Div(1.0, capacity as real) * 100.0
  }

  /** A vdev of positive capacity ends up less than one of its bytes below the pool's usage. */
  lemma UsageNearUtilisation(usedSize: nat, id: string, capacity: nat, totalSize: nat)
    requires totalSize > 0 && capacity > 0
    ensures var u := Usage(VdevConfig(id, capacity, Assigned(usedSize, capacity, totalSize)));
            Utilisation(usedSize, totalSize) - Granule(capacity) < u <= Utilisation(usedSize, totalSize)
  {
    hide Assigned, Mul, Div;
    AssignedRounds(usedSize, capacity, totalSize);
    var got, u, c, t := Assigned(usedSize, capacity, totalSize) as real,
      usedSize as real, capacity as real, totalSize as real;
    QuotientOf(got, c);
    QuotientOf(u, t);
    QuotientOf(1.0, c);
    QuotientOf(Mul(u, c), t);
    PerCapacity(got, u, c, t, Div(got, c), Div(u, t), Div(1.0, c), Div(Mul(u, c), t));
  }

  lemma PerCapacity(got: real, used: real, cap: real, total: real, g: real, u: real, byte: real, due: real)
    requires cap > 0.0 && total > 0.0 && due - 1.0 < got <= due
    requires Mul(cap, g) == got && Mul(total, u) == used && Mul(cap, byte) == 1.0 && Mul(total, due) == Mul(used, cap)
    ensures u - byte < g <= u
  {
    assert Mul(total, Mul(cap, u)) == Mul(used, cap);
    ProductOrder(total, Mul(cap, u), due);
    assert Mul(cap, u - byte) == Mul(cap, u) - 1.0;
    ProductOrder(cap, g, u);
    ProductOrder(cap, g, u - byte);
  }

  /** Values in (top - width, top] have their mean there too. */
  lemma MeanBetween(xs: seq<real>, top: real, width: real)
    requires xs != [] && forall i :: 0 <= i < |xs| ==> top - width < xs[i] <= top
    ensures top - width < Div(Sum(xs), |xs| as real) <= top
  {
    hide Mul, Div;
    SumBetween(xs, top, width);
    var n := |xs| as real;
    QuotientOf(Sum(xs), n);
    ProductOrder(n, Div(Sum(xs), n), top);
    ProductOrder(n, Div(Sum(xs), n), top - width);
  }

  lemma {:induction false} SumBetween(xs: seq<real>, top: real, width: real)
    requires forall i :: 0 <= i < |xs| ==> top - width < xs[i] <= top
    ensures Sum(xs) <= Mul(|xs| as real, top)
    ensures xs != [] ==> Mul(|xs| as real, top - width) < Sum(xs)
  {
    hide Mul;
    OneMore(|xs| as real, top);
    OneMore(|xs| as real, top - width);
    if xs != [] {
      SumBetween(xs[..|xs| - 1], top, width);
    }
  }

  lemma OneMore(n: real, x: real)
    ensures Mul(n, x) == Mul(n - 1.0, x) + x
    ensures Mul(0.0, x) == 0.0
  {
  }

  /** No vdev's usage is `width` or more away from the mean usage. */
  ghost predicate Even(vdevs: seq<VdevConfig>, width: real)
    requires vdevs != []
  {
    forall v :: v in vdevs ==> DetailOf(v, Average(vdevs)).deviation < width
  }

  /** That is what the largest deviation of a distribution says. */
  lemma EvenIff(d: Distribution, vdevs: seq<VdevConfig>, threshold: real, width: real)
    requires vdevs != [] && IsDistribution(d, vdevs, threshold)
    ensures d.maxDeviation < width <==> Even(vdevs, width)
  {
    hide Usage, Sorted, Average;
    var v :| v in vdevs && DetailOf(v, d.average).deviation == d.maxDeviation;
  }

  /** If every vdev has some capacity, no usage after rebalancing is further from the mean than
      the granularity of the smallest vdev. */
  lemma EvenAfterRebalance(d: Distribution, vdevs: seq<VdevConfig>, usedSize: nat, threshold: real, width: real)
    requires TotalCapacity(vdevs) > 0
    requires IsDistribution(d, AfterVdevs(vdevs, usedSize, TotalCapacity(vdevs)), threshold)
    requires forall v :: v in vdevs ==> v.capacity > 0 && Granule(v.capacity) <= width
    ensures d.maxDeviation < width
  {
    hide *;
    SomeVdev(vdevs);
    AllEven(vdevs, usedSize, width);
    EvenIff(d, AfterVdevs(vdevs, usedSize, TotalCapacity(vdevs)), threshold, width);
  }

  lemma SomeVdev(vdevs: seq<VdevConfig>)
    requires TotalCapacity(vdevs) > 0
    ensures vdevs != []
  {
  }

  lemma AllEven(vdevs: seq<VdevConfig>, usedSize: nat, width: real)
    requires TotalCapacity(vdevs) > 0 && vdevs != []
    requires forall v :: v in vdevs ==> v.capacity > 0 && Granule(v.capacity) <= width
    ensures Even(AfterVdevs(vdevs, usedSize, TotalCapacity(vdevs)), width)
  {
    hide Usage, Assigned, Utilisation, Granule, Div;
    var total := TotalCapacity(vdevs);
    var after, top := AfterVdevs(vdevs, usedSize, total), Utilisation(usedSize, total);
    forall i | 0 <= i < |after| ensures top - width < Usage(after[i]) <= top {
      assert vdevs[i] in vdevs;
      UsageNearUtilisation(usedSize, vdevs[i].id, vdevs[i].capacity, total);
    }
    MeanBetween(Usages(after), top, width);
  }

  /** A vdev without capacity spoils that: the pool is even at every fill level exactly if no
      vdev is empty, as long as a byte of any other is at most half of it. */
  lemma EvenAtEveryFillIff(vdevs: seq<VdevConfig>, width: real)
    requires TotalCapacity(vdevs) > 0 && vdevs != [] && width <= 50.0
    requires forall v :: v in vdevs && v.capacity > 0 ==> Granule(v.capacity) <= width
    ensures (forall usedSize: nat :: usedSize <= TotalCapacity(vdevs) ==>
               Even(AfterVdevs(vdevs, usedSize, TotalCapacity(vdevs)), width))
            <==> forall v :: v in vdevs ==> v.capacity > 0
  {
    hide *;
    var total := TotalCapacity(vdevs);
    if forall v :: v in vdevs ==> v.capacity > 0 {
      forall usedSize: nat ensures Even(AfterVdevs(vdevs, usedSize, total), width) {
        AllEven(vdevs, usedSize, width);
      }
    } else {
      var v :| v in vdevs && v.capacity == 0;
      FullPoolUneven(vdevs, v, width);
    }
  }

  /** The failing input: a full pool, in which an empty vdev counts as 0% and every other as 100%. */
  lemma FullPoolUneven(vdevs: seq<VdevConfig>, v: VdevConfig, width: real)
    requires TotalCapacity(vdevs) > 0 && v in vdevs && v.capacity == 0 && width <= 50.0
    ensures !Even(AfterVdevs(vdevs, TotalCapacity(vdevs), TotalCapacity(vdevs)), width)
  {
    var total := TotalCapacity(vdevs);
    var after := AfterVdevs(vdevs, total, total);
    var w := SomeCapacity(vdevs);
    FullUsage(w.id, w.capacity, total);
    hide Assigned, Average, TotalCapacity, Div;
    var i :| 0 <= i < |vdevs| && vdevs[i] == v;
    var j :| 0 <= j < |vdevs| && vdevs[j] == w;
    assert after[i] in after && after[j] in after;
    assert Usage(after[i]) == 0.0 && Usage(after[j]) == 100.0;
  }

  lemma {:induction false} SomeCapacity(vdevs: seq<VdevConfig>) returns (v: VdevConfig)
    requires TotalCapacity(vdevs) > 0
    ensures v in vdevs && v.capacity > 0
  {
    v := vdevs[|vdevs| - 1];
    if v.capacity == 0 {
      v := SomeCapacity(vdevs[..|vdevs| - 1]);
    }
  }

  lemma FullUsage(id: string, capacity: nat, totalSize: nat)
    requires totalSize > 0 && capacity > 0
    ensures Usage(VdevConfig(id, capacity, Assigned(totalSize, capacity, totalSize))) == 100.0
  {
    var c, t := capacity as real, totalSize as real;
    QuotientOf(c, t);
    QuotientOf(c, c);
    UnitQuotient(c, Div(c, c));
    hide Mul, Div;
  }

  lemma UnitQuotient(c: real, q: real)
    requires c > 0.0 && Mul(c, q) == c
    ensures q == 1.0
  {
    assert Mul(c, 1.0) == c;
    ProductOrder(c, q, 1.0);
  }

  // ---- how uneven an empty vdev makes a pool ----

  /** How many vdevs can hold data. */
  function Holding(vdevs: seq<VdevConfig>): nat {
    if vdevs == [] then 0 else Holding(vdevs[..|vdevs| - 1]) + if vdevs[|vdevs| - 1].capacity > 0 then 1 else 0
  }

  /** Every vdev that can hold data is used between low and top percent. */
  ghost predicate Filled(vdevs: seq<VdevConfig>, low: real, top: real) {
    forall v :: v in vdevs && v.capacity > 0 ==> low <= Usage(v) <= top
  }

  lemma {:induction false} HoldersSum(vdevs: seq<VdevConfig>, low: real, top: real)
    requires Filled(vdevs, low, top)
    ensures Mul(Holding(vdevs) as real, low) <= Sum(Usages(vdevs)) <= Mul(Holding(vdevs) as real, top)
    ensures Holding(vdevs) <= |vdevs|
  {
    hide *;
    OneMore(Holding(vdevs) as real, low);
    OneMore(Holding(vdevs) as real, top);
    if vdevs == [] {
      NoHolders();
    } else {
      NextHolder(vdevs, low, top);
      HoldersSum(vdevs[..|vdevs| - 1], low, top);
    }
  }

  lemma NoHolders()
    ensures Holding([]) == 0 && Sum(Usages([])) == 0.0
  {
  }

  lemma NextHolder(vdevs: seq<VdevConfig>, low: real, top: real)
    requires vdevs != [] && Filled(vdevs, low, top)
    ensures var init, v := vdevs[..|vdevs| - 1], vdevs[|vdevs| - 1];
            && Filled(init, low, top)
            && Holding(vdevs) == Holding(init) + (if v.capacity > 0 then 1 else 0)
            && Sum(Usages(vdevs)) == Sum(Usages(init)) + Usage(v)
            && (if v.capacity > 0 then low <= Usage(v) <= top else Usage(v) == 0.0)
  {
    var init, v := vdevs[..|vdevs| - 1], vdevs[|vdevs| - 1];
    EmptyUsage(v);
    hide Usage;
    assert v in vdevs && forall w :: w in init ==> w in vdevs;
    assert Usages(vdevs)[..|init|] == Usages(init);
  }

  lemma EmptyUsage(v: VdevConfig)
    ensures v.capacity == 0 ==> Usage(v) == 0.0
  {
  }

  lemma MeanTimes(vdevs: seq<VdevConfig>)
    requires vdevs != []
    ensures Mul(|vdevs| as real, Average(vdevs)) == Sum(Usages(vdevs))
  {
    QuotientOf(Sum(Usages(vdevs)), |vdevs| as real);
  }

  /** A distance from the mean, against a width, by their multiples. */
  lemma Distance(n: real, x: real, mean: real, width: real)
    requires n > 0.0
    ensures x - mean < width <==> Mul(n, x) - Mul(n, mean) < Mul(n, width)
    ensures x <= mean ==> Mul(n, x) <= Mul(n, mean)
    ensures Mul(n, 0.0) == 0.0
  {
    ProductOrder(n, width, x - mean);
    ProductOrder(n, x, mean);
    assert Mul(n, x - mean) == Mul(n, x) - Mul(n, mean);
  }

  /** With an empty vdev, h of n vdevs used between low and top percent, and no rounding of more
      than a width: even if both the mean, of at most h top / n, and the distance of the fullest
      vdev from it stay below the width; uneven if one of them certainly does not. */
  lemma UnevenBounds(vdevs: seq<VdevConfig>, low: real, top: real, width: real, empty: VdevConfig, holder: VdevConfig)
    requires empty in vdevs && empty.capacity == 0 && holder in vdevs && holder.capacity > 0
    requires Filled(vdevs, low, top) && 0.0 <= top
    ensures var n, h := |vdevs| as real, Holding(vdevs) as real;
            && (Mul(h, top) < Mul(n, width) && Mul(n, top) - Mul(h, low) < Mul(n, width) && top - low < width ==>
                  Even(vdevs, width))
            && (Mul(h, low) >= Mul(n, width) || Mul(n, low) - Mul(h, top) >= Mul(n, width) ==>
                  !Even(vdevs, width))
  {
    hide Mul, Usage, Usages, Average, Holding;
    var n, h, avg := |vdevs| as real, Holding(vdevs) as real, Average(vdevs);
    HoldersSum(vdevs, low, top);
    MeanTimes(vdevs);
    EmptyUsage(empty);
    Distance(n, avg, 0.0, width);
    Distance(n, Usage(holder), avg, width);
    Distance(n, low, Usage(holder), width);
    MeanBelowTop(n, h, avg, top);
    if Mul(h, top) < Mul(n, width) && Mul(n, top) - Mul(h, low) < Mul(n, width) && top - low < width {
      forall v | v in vdevs ensures DetailOf(v, avg).deviation < width {
        EmptyUsage(v);
        Distance(n, Usage(v), avg, width);
        Distance(n, Usage(v), top, width);
      }
    }
    assert Mul(h, low) >= Mul(n, width) ==> DetailOf(empty, avg).deviation >= width;
    assert Mul(n, low) - Mul(h, top) >= Mul(n, width) ==> DetailOf(holder, avg).deviation >= width;
  }

  lemma MeanBelowTop(n: real, h: real, avg: real, top: real)
    requires 0.0 <= h <= n && n > 0.0 && top >= 0.0 && Mul(n, avg) <= Mul(h, top)
    ensures avg <= top
  {
    ProductNotNegative(n - h, top);
    assert Mul(n - h, top) == Mul(n, top) - Mul(h, top);
    ProductOrder(n, avg, top);
  }

  lemma {:induction false} SameHolding(vdevs: seq<VdevConfig>, usedSize: nat, totalSize: nat)
    requires totalSize > 0
    ensures Holding(AfterVdevs(vdevs, usedSize, totalSize)) == Holding(vdevs)
  {
    hide Assigned;
    if vdevs != [] {
      var n := |vdevs| - 1;
      SameHolding(vdevs[..n], usedSize, totalSize);
      assert AfterVdevs(vdevs, usedSize, totalSize)[..n] == AfterVdevs(vdevs[..n], usedSize, totalSize);
    }
  }

  lemma UtilisationNotNegative(usedSize: nat, totalSize: nat)
    requires totalSize > 0
    ensures Utilisation(usedSize, totalSize) >= 0.0
  {
    QuotientOf(usedSize as real, totalSize as real);
  }

  lemma AfterMember(vdevs: seq<VdevConfig>, usedSize: nat, totalSize: nat, v: VdevConfig)
    requires totalSize > 0 && v in vdevs
    ensures VdevConfig(v.id, v.capacity, Assigned(usedSize, v.capacity, totalSize))
            in AfterVdevs(vdevs, usedSize, totalSize)
  {
    hide Assigned;
    var i :| 0 <= i < |vdevs| && vdevs[i] == v;
    assert AfterVdevs(vdevs, usedSize, totalSize)[i] in AfterVdevs(vdevs, usedSize, totalSize);
  }

  lemma FilledAfter(vdevs: seq<VdevConfig>, usedSize: nat, totalSize: nat, low: real, top: real)
    requires totalSize > 0
    requires forall v :: v in vdevs && v.capacity > 0 ==>
               low <= Usage(VdevConfig(v.id, v.capacity, Assigned(usedSize, v.capacity, totalSize))) <= top
    ensures Filled(AfterVdevs(vdevs, usedSize, totalSize), low, top)
  {
    hide Usage, Assigned;
    var after := AfterVdevs(vdevs, usedSize, totalSize);
    forall w | w in after && w.capacity > 0 ensures low <= Usage(w) <= top {
      var i :| 0 <= i < |after| && after[i] == w;
      assert vdevs[i] in vdevs;
    }
  }

  /** With an empty vdev, h of n vdevs holding data, a byte of none of them more than g percent,
      and the pool used to U percent: the largest deviation stays below a width if hU < nw and
      (n - h)U + hg < nw, and does not if h(U - g) >= nw or (n - h)U - ng >= nw. */
  lemma EmptyVdevUnbalances(d: Distribution, vdevs: seq<VdevConfig>, usedSize: nat, threshold: real, width: real,
                            g: real, v: VdevConfig)
    requires TotalCapacity(vdevs) > 0 && v in vdevs && v.capacity == 0
    requires IsDistribution(d, AfterVdevs(vdevs, usedSize, TotalCapacity(vdevs)), threshold)
    requires g < width && forall w :: w in vdevs && w.capacity > 0 ==> Granule(w.capacity) <= g
    ensures var n, h, u := |vdevs| as real, Holding(vdevs) as real, Utilisation(usedSize, TotalCapacity(vdevs));
            && (Mul(h, u) < Mul(n, width) && Mul(n, u) - Mul(h, u - g) < Mul(n, width) ==> d.maxDeviation < width)
            && (Mul(h, u - g) >= Mul(n, width) || Mul(n, u - g) - Mul(h, u) >= Mul(n, width)
                ==> d.maxDeviation >= width)
  {
    hide *;
    var total := TotalCapacity(vdevs);
    var u := Utilisation(usedSize, total);
    forall w | w in vdevs && w.capacity > 0
      ensures u - g <= Usage(VdevConfig(w.id, w.capacity, Assigned(usedSize, w.capacity, total))) <= u
    {
      UsageNearUtilisation(usedSize, w.id, w.capacity, total);
    }
    UnevenAfter(d, vdevs, usedSize, threshold, width, u - g, v);
  }

  lemma UnevenAfter(d: Distribution, vdevs: seq<VdevConfig>, usedSize: nat, threshold: real, width: real,
                    low: real, v: VdevConfig)
    requires TotalCapacity(vdevs) > 0 && v in vdevs && v.capacity == 0
    requires IsDistribution(d, AfterVdevs(vdevs, usedSize, TotalCapacity(vdevs)), threshold)
    requires var total := TotalCapacity(vdevs);
             && Utilisation(usedSize, total) - low < width
             && forall w :: w in vdevs && w.capacity > 0 ==>
                  low <= Usage(VdevConfig(w.id, w.capacity, Assigned(usedSize, w.capacity, total)))
                      <= Utilisation(usedSize, total)
    ensures var n, h, u := |vdevs| as real, Holding(vdevs) as real, Utilisation(usedSize, TotalCapacity(vdevs));
            && (Mul(h, u) < Mul(n, width) && Mul(n, u) - Mul(h, low) < Mul(n, width) ==> d.maxDeviation < width)
            && (Mul(h, low) >= Mul(n, width) || Mul(n, low) - Mul(h, u) >= Mul(n, width) ==> d.maxDeviation >= width)
  {
    hide *;
    var total := TotalCapacity(vdevs);
    var after, u := AfterVdevs(vdevs, usedSize, total), Utilisation(usedSize, total);
    var w := SomeCapacity(vdevs);
    AfterMember(vdevs, usedSize, total, v);
    AfterMember(vdevs, usedSize, total, w);
    FilledAfter(vdevs, usedSize, total, low, u);
    SameHolding(vdevs, usedSize, total);
    UtilisationNotNegative(usedSize, total);
    UnevenBounds(after, low, u, width, VdevConfig(v.id, v.capacity, Assigned(usedSize, v.capacity, total)),
                 VdevConfig(w.id, w.capacity, Assigned(usedSize, w.capacity, total)));
    EvenIff(d, after, threshold, width);
  }

  /** Exactly so where no share is rounded: then the pool is even to within a width if and only
      if hU < nw and (n - h)U < nw. */
  lemma EmptyVdevExactIff(d: Distribution, vdevs: seq<VdevConfig>, usedSize: nat, threshold: real,
                          width: real, v: VdevConfig)
    requires TotalCapacity(vdevs) > 0 && v in vdevs && v.capacity == 0 && width > 0.0
    requires IsDistribution(d, AfterVdevs(vdevs, usedSize, TotalCapacity(vdevs)), threshold)
    requires forall w :: w in vdevs ==> WholeShare(usedSize, w.capacity, TotalCapacity(vdevs))
    ensures var n, h, u := |vdevs| as real, Holding(vdevs) as real, Utilisation(usedSize, TotalCapacity(vdevs));
            d.maxDeviation < width <==> Mul(h, u) < Mul(n, width) && Mul(n, u) - Mul(h, u) < Mul(n, width)
  {
    hide *;
    var total := TotalCapacity(vdevs);
    var u := Utilisation(usedSize, total);
    forall w | w in vdevs && w.capacity > 0
      ensures Usage(VdevConfig(w.id, w.capacity, Assigned(usedSize, w.capacity, total))) == u
    {
      UsageOfWholeShare(usedSize, w.id, w.capacity, total);
    }
    UnevenAfter(d, vdevs, usedSize, threshold, width, u, v);
  }

  /** What a vdev of that capacity is due is a whole number of bytes. */
  predicate WholeShare(usedSize: nat, capacity: nat, totalSize: nat)
    requires totalSize > 0
  {
    (usedSize * capacity) % totalSize == 0
  }

  lemma UsageOfWholeShare(usedSize: nat, id: string, capacity: nat, totalSize: nat)
    requires totalSize > 0 && capacity > 0 && WholeShare(usedSize, capacity, totalSize)
    ensures Usage(VdevConfig(id, capacity, Assigned(usedSize, capacity, totalSize))) == Utilisation(usedSize, totalSize)
  {
    WholeAssigned(usedSize, capacity, totalSize);
    hide Assigned, Mul, Div, WholeShare;
    var u, c, t, got := usedSize as real, capacity as real, totalSize as real, Assigned(usedSize, capacity, totalSize);
    QuotientOf(got as real, c);
    QuotientOf(u, t);
    SamePerCapacity(got as real, u, c, t, Div(got as real, c), Div(u, t));
  }

  lemma WholeAssigned(usedSize: nat, capacity: nat, totalSize: nat)
    requires totalSize > 0 && WholeShare(usedSize, capacity, totalSize)
    ensures Mul(totalSize as real, Assigned(usedSize, capacity, totalSize) as real)
            == Mul(usedSize as real, capacity as real)
  {
    hide Assigned, Mul, Div, WholeShare;
    AssignedRounds(usedSize, capacity, totalSize);
    QuotientOf(Mul(usedSize as real, capacity as real), totalSize as real);
    WholeDue(usedSize, capacity, totalSize, Due(usedSize, capacity, totalSize));
    WholeRounds(Assigned(usedSize, capacity, totalSize), Due(usedSize, capacity, totalSize).Floor);
  }

  lemma WholeRounds(got: int, m: int)
    requires m as real - 1.0 < got as real <= m as real
    ensures got == m
  {
    assert m as real - 1.0 == (m - 1) as real;
  }

  lemma WholeDue(used: nat, cap: nat, total: nat, due: real)
    requires total > 0 && WholeShare(used, cap, total) && Mul(total as real, due) == Mul(used as real, cap as real)
    ensures due == due.Floor as real
  {
    var k := used * cap / total;
    assert used * cap == total * k;
    assert Mul(used as real, cap as real) == (used * cap) as real;
    assert Mul(total as real, k as real) == (total * k) as real;
    ProductOrder(total as real, due, k as real);
  }

  lemma SamePerCapacity(k: real, used: real, cap: real, total: real, q: real, u: real)
    requires cap > 0.0 && total > 0.0 && Mul(cap, q) == k && Mul(total, u) == used && Mul(total, k) == Mul(used, cap)
    ensures q == u
  {
    assert Mul(total, Mul(cap, u)) == Mul(used, cap);
    ProductOrder(total, Mul(cap, u), k);
    ProductOrder(cap, q, u);
  }

  lemma MeanOfTwo(us: seq<real>, x: real, y: real)
    requires us == [x, y]
    ensures Div(Sum(us), 2.0) == (x + y) / 2.0
  {
    SumNext(us, 0);
    SumNext(us, 1);
    assert us[..2] == us && Sum(us[..0]) == 0.0;
    hide Sum;
  }

  lemma TwoVdevs(d: Distribution, v: VdevConfig, w: VdevConfig, threshold: real)
    requires IsDistribution(d, [v, w], threshold) && Usage(v) == 0.0 && Usage(w) == 100.0
    ensures d.maxDeviation == 50.0
  {
    hide Usage, Div, Sorted;
    assert Usages([v, w]) == [0.0, 100.0];
    MeanOfTwo(Usages([v, w]), 0.0, 100.0);
    hide Sum, Usages;
    assert v in [v, w] && w in [v, w] && forall x :: x in [v, w] ==> x == v || x == w;
  }

  /** So a full pool of an empty vdev and one of a hundred bytes deviates by fifty points, where
      a hundred bytes alone would allow less than one. */
  lemma EmptyVdevExample(d: Distribution, threshold: real)
    requires IsDistribution(d, AfterVdevs([VdevConfig("a", 0, 0), VdevConfig("b", 100, 0)], 100, 100), threshold)
    ensures d.maxDeviation == 50.0 && Granule(100) == 1.0
  {
    hide IsDistribution, Assigned, Div;
    var after := AfterVdevs([VdevConfig("a", 0, 0), VdevConfig("b", 100, 0)], 100, 100);
    FullUsage("b", 100, 100);
    QuotientOf(1.0, 100.0);
    assert after == [after[0], after[1]];
    TwoVdevs(d, after[0], after[1], threshold);
  }

  // ---- data movement ----

  function DataMovement(usedSize: nat, totalBefore: nat, totalAfter: nat): nat {
    if totalBefore == 0 || usedSize == 0 then 0 else
    var capacityRatio := Div(totalAfter as real, totalBefore as real);
    if capacityRatio <= 1.0 then 0 else
    MovedBounds(usedSize as real, totalBefore as real, totalAfter as real);
    Trunc(Mul(usedSize as real, 1.0 - Div(1.0, capacityRatio)) * 0.6)
  }

  /** The fraction that moves is the new capacity's share of all capacity. */
  lemma MovedBounds(used: real, before: real, after: real)
    requires used >= 0.0 && before > 0.0 && Div(after, before) > 1.0
    ensures after > before
    ensures Div(1.0, Div(after, before)) == Div(before, after)
    ensures 0.0 <= Mul(used, 1.0 - Div(before, after)) <= used
  {
    hide Mul, Div;
    var r := Div(after, before);
    QuotientOf(after, before);
    RatioAbove(before, r);
    QuotientOf(1.0, r);
    QuotientOf(before, after);
    Inverse(r, before, after, Div(1.0, r), Div(before, after));
    ProductNotNegative(used, 1.0 - Div(before, after));
    ProductNotNegative(used, Div(before, after));
    Complement(used, Div(before, after));
  }

  lemma RatioAbove(b: real, r: real)
    requires b > 0.0 && r > 1.0
    ensures Mul(b, r) > b
  {
    PositiveFactor(b, r - 1.0);
  }

  lemma Inverse(r: real, b: real, a: real, i: real, q: real)
    requires a > b > 0.0 && Mul(b, r) == a && Mul(r, i) == 1.0 && Mul(a, q) == b
    ensures i == q && 0.0 < q < 1.0
  {
    assert Mul(a, i) == Mul(b, Mul(r, i));
    ProductOrder(a, i, q);
    PositiveFactor(a, q);
    ProductOrder(a, q, 1.0);
  }

  lemma Complement(u: real, q: real)
    ensures Mul(u, 1.0 - q) == u - Mul(u, q)
  {
  }

  /** 60% of the new capacity's share of the data moves, in whole bytes; all numbers whole. */
  ghost predicate IsMovement(m: nat, used: nat, before: nat, after: nat) {
    if before == 0 || after <= before then m == 0
    else 10 * after * m <= 6 * used * (after - before) < 10 * after * (m + 1)
  }

  lemma MovementExact(usedSize: nat, totalBefore: nat, totalAfter: nat)
    ensures IsMovement(DataMovement(usedSize, totalBefore, totalAfter), usedSize, totalBefore, totalAfter)
  {
    hide *;
    if totalBefore == 0 || totalAfter <= totalBefore || usedSize == 0 {
      NothingMoves(usedSize, totalBefore, totalAfter);
    } else {
      SomethingMoves(usedSize, totalBefore, totalAfter);
    }
  }

  lemma SomethingMoves(usedSize: nat, totalBefore: nat, totalAfter: nat)
    requires 0 < totalBefore < totalAfter && usedSize > 0
    ensures IsMovement(DataMovement(usedSize, totalBefore, totalAfter), usedSize, totalBefore, totalAfter)
  {
    hide Mul, Div, Trunc;
    var u, b, a := usedSize as real, totalBefore as real, totalAfter as real;
    QuotientOf(a, b);
    AboveOne(b, a, Div(a, b));
    MovedBounds(u, b, a);
    QuotientOf(b, a);
    var x := Mul(u, 1.0 - Div(b, a)) * 0.6;
    TruncDown(x);
    ShareMoved(usedSize, totalBefore, totalAfter, Div(b, a), x, Trunc(x));
  }

  lemma TruncDown(x: real)
    requires x >= 0.0
    ensures 0 <= Trunc(x) && Trunc(x) as real <= x < Trunc(x) as real + 1.0
  {
  }

  lemma NothingMoves(usedSize: nat, totalBefore: nat, totalAfter: nat)
    requires totalBefore == 0 || totalAfter <= totalBefore || usedSize == 0
    ensures IsMovement(0, usedSize, totalBefore, totalAfter)
    ensures DataMovement(usedSize, totalBefore, totalAfter) == 0
  {
    if totalBefore > 0 {
      QuotientOf(totalAfter as real, totalBefore as real);
      AboveOne(totalBefore as real, totalAfter as real, Div(totalAfter as real, totalBefore as real));
    }
    hide Mul, Div, Trunc;
  }

  lemma AboveOne(b: real, a: real, r: real)
    requires b > 0.0 && Mul(b, r) == a
    ensures r <= 1.0 <==> a <= b
  {
    ProductOrder(b, r, 1.0);
  }

  lemma ShareMoved(used: nat, before: nat, after: nat, q: real, x: real, m: int)
    requires 0 < before < after && Mul(after as real, q) == before as real
    requires x == Mul(used as real, 1.0 - q) * 0.6 && m as real <= x < m as real + 1.0
    ensures 10 * after * m <= 6 * used * (after - before) < 10 * after * (m + 1)
  {
    var a, u := after as real, used as real;
    ShareTimes(a, u, before as real, q);
    ProductOrder(a, m as real, x);
    ProductOrder(a, m as real + 1.0, x);
    WholeTimes(after, m);
    WholeTimes(after, m + 1);
    WholeTimes(used, after - before);
    ThreeFactors(10, after, m);
    ThreeFactors(10, after, m + 1);
    ThreeFactors(6, used, after - before);
    hide Mul;
  }

  lemma ShareTimes(a: real, u: real, b: real, q: real)
    requires Mul(a, q) == b
    ensures Mul(a, Mul(u, 1.0 - q) * 0.6) == Mul(u, a - b) * 0.6
  {
    assert a * (u * (1.0 - q)) == u * (a - a * q);
  }

  lemma WholeTimes(n: int, m: int)
    ensures Mul(n as real, m as real) == (n * m) as real
  {
  }

  lemma ThreeFactors(k: int, n: int, m: int)
    ensures k * n * m == k * (n * m)
  {
  }

  /** Never more than 60% of the data move; more new capacity never moves less; and nothing
      moves into a pool that did not grow. */
  lemma MovementBounded(usedSize: nat, totalBefore: nat, totalAfter: nat, totalAfter': nat)
    requires totalAfter <= totalAfter'
    ensures 10 * DataMovement(usedSize, totalBefore, totalAfter) <= 6 * usedSize
    ensures DataMovement(usedSize, totalBefore, totalAfter) <= DataMovement(usedSize, totalBefore, totalAfter')
    ensures totalAfter <= totalBefore ==> DataMovement(usedSize, totalBefore, totalAfter) == 0
  {
    hide Mul, Div;
    if totalBefore > 0 && usedSize > 0 {
      var u, b, a, a' := usedSize as real, totalBefore as real, totalAfter as real, totalAfter' as real;
      QuotientOrder(a, a', b);
      if Div(a, b) > 1.0 {
        MovedBounds(u, b, a);
        MovedBounds(u, b, a');
        MovesMore(u, b, a, a');
        TruncMonotone(Mul(u, 1.0 - Div(b, a)) * 0.6, Mul(u, 1.0 - Div(b, a')) * 0.6);
      }
    }
  }

  lemma MovesMore(u: real, b: real, a: real, a': real)
    requires u >= 0.0 && 0.0 < b < a <= a'
    ensures Mul(u, 1.0 - Div(b, a)) <= Mul(u, 1.0 - Div(b, a'))
  {
    hide Mul, Div;
    QuotientOf(b, a);
    QuotientOf(b, a');
    LargerDivisor(b, a, a', Div(b, a), Div(b, a'));
    ProductNotNegative(u, Div(b, a) - Div(b, a'));
    Difference(u, Div(b, a), Div(b, a'));
  }

  lemma LargerDivisor(b: real, a: real, a': real, q: real, q': real)
    requires 0.0 < a <= a' && b > 0.0 && Mul(a, q) == b && Mul(a', q') == b
    ensures q' <= q
  {
    PositiveFactor(a, q);
    ProductNotNegative(a' - a, q);
    assert Mul(a', q) == Mul(a, q) + Mul(a' - a, q);
    ProductOrder(a', q', q);
  }

  lemma Difference(u: real, q: real, q': real)
    ensures Mul(u, 1.0 - q') - Mul(u, 1.0 - q) == Mul(u, q - q')
  {
  }

  // ---- the simulation ----

  /** The pool with the proposed vdevs, and the total recomputed from all capacities. */
  function AfterPool(before: PoolConfig, added: seq<VdevConfig>): PoolConfig {
    PoolConfig(before.vdevs + added, TotalCapacity(before.vdevs + added), before.usedSize)
  }

  function Percent(part: nat, whole: nat): real {
    if whole > 0 then Div(part as real, whole as real) * 100.0 else 0.0
  }

  function DurationOf(movement: nat, throughputMBps: real): int {
    if throughputMBps <= 0.0 then 0
    else Trunc(Div(movement as real, throughputMBps * 1024.0 * 1024.0)) * SECOND
  }

  function Warnings(c: Config, utilAfter: real, movementPercent: real, duration: int): seq<Warning> {
    (if utilAfter > c.warnUsage then [StillFull] else [])
    + (if movementPercent > c.warnMovement then [HighMovement] else [])
    + (if duration > 24 * HOUR then [LongDuration] else [])
  }

  /** A percentage of nothing is 0. */
  ghost predicate IsPercent(x: real, part: nat, whole: nat) {
    if whole == 0 then x == 0.0 else Mul(whole as real, x) == 100.0 * part as real
  }

  lemma PercentIs(part: nat, whole: nat)
    ensures IsPercent(Percent(part, whole), part, whole)
  {
    if whole > 0 {
      QuotientOf(part as real, whole as real);
      Hundredfold(whole as real, Div(part as real, whole as real));
    }
    hide Mul, Div;
  }

  /** The whole seconds that the movement takes at a rate in binary megabytes per second. */
  ghost predicate IsDuration(d: int, movement: nat, rate: real) {
    if rate <= 0.0 then d == 0
    else exists k: int :: d == k * 1_000_000_000 && IsSeconds(k, movement, rate)
  }

  ghost predicate IsSeconds(k: int, movement: nat, rate: real) {
    Mul(rate * 1_048_576.0, k as real) <= movement as real < Mul(rate * 1_048_576.0, k as real + 1.0)
  }

  lemma DurationIs(movement: nat, rate: real)
    ensures IsDuration(DurationOf(movement, rate), movement, rate)
  {
    if rate > 0.0 {
      var speed, q := rate * 1024.0 * 1024.0, Div(movement as real, rate * 1024.0 * 1024.0);
      assert speed == rate * 1_048_576.0;
      QuotientOf(movement as real, speed);
      TruncDown(q);
      ProductOrder(speed, Trunc(q) as real, q);
      ProductOrder(speed, Trunc(q) as real + 1.0, q);
      hide Mul, Div, Trunc;
      assert IsSeconds(Trunc(q), movement, rate);
    }
  }

  lemma WarningsIff(c: Config, utilAfter: real, movementPercent: real, duration: int)
    ensures var ws := Warnings(c, utilAfter, movementPercent, duration);
            && (StillFull in ws <==> utilAfter > c.warnUsage)
            && (HighMovement in ws <==> movementPercent > c.warnMovement)
            && (LongDuration in ws <==> duration > 86_400_000_000_000)
  {
  }

  method SumCapacity(vdevs: seq<VdevConfig>) returns (total: nat)
    ensures total == TotalCapacity(vdevs)
  {
    total := 0;
    for i := 0 to |vdevs|
      invariant total == TotalCapacity(vdevs[..i])
    {
      assert vdevs[..i + 1][..i] == vdevs[..i];
      total := total + vdevs[i].capacity;
    }
    assert vdevs[..|vdevs|] == vdevs;
  }

  class Simulator {
    const config: Config

    constructor ()
      ensures config == Config(50.0, 80.0, 50.0)
    {
      config := Config(50.0, 80.0, 50.0);
    }

    method SimulateRebalance(before: PoolConfig, added: seq<VdevConfig>) returns (r: Result)
      ensures r.after == AfterPool(before, added)
      ensures r.after.totalSize == TotalCapacity(before.vdevs) + TotalCapacity(added)
      ensures IsMovement(r.movement, before.usedSize, before.totalSize, r.after.totalSize)
      ensures 10 * r.movement <= 6 * before.usedSize
      ensures 0 < before.totalSize == TotalCapacity(before.vdevs) ==> r.improvedBy >= 0.0 && r.movementPercent <= 60.0
      ensures r.movement == DataMovement(before.usedSize, before.totalSize, r.after.totalSize)
      ensures r.movementPercent == Percent(r.movement, before.usedSize)
      ensures r.duration == DurationOf(r.movement, config.throughputMBps)
      ensures r.utilBefore == Percent(before.usedSize, before.totalSize)
      ensures r.utilAfter == Percent(before.usedSize, r.after.totalSize)
      ensures r.improvedBy == r.utilBefore - r.utilAfter
      ensures IsDistribution(r.beforeDistribution, before.vdevs, config.warnUsage)
      ensures r.after.totalSize > 0 ==>
                IsDistribution(r.afterDistribution, AfterVdevs(r.after.vdevs, before.usedSize, r.after.totalSize),
                               config.warnUsage)
      ensures r.after.totalSize == 0 ==> r.afterDistribution == Distribution([], 0.0, 0.0, config.warnUsage)
      ensures r.warnings == Warnings(config, r.utilAfter, r.movementPercent, r.duration)
      ensures IsPercent(r.movementPercent, r.movement, before.usedSize)
      ensures IsPercent(r.utilBefore, before.usedSize, before.totalSize)
      ensures IsPercent(r.utilAfter, before.usedSize, r.after.totalSize)
      ensures IsDuration(r.duration, r.movement, config.throughputMBps)
      ensures StillFull in r.warnings <==> r.utilAfter > config.warnUsage
      ensures HighMovement in r.warnings <==> r.movementPercent > config.warnMovement
      ensures LongDuration in r.warnings <==> r.duration > 86_400_000_000_000
    {
      hide IsDistribution, DataMovement, AfterVdevs, DurationOf, Div, Mul, IsMovement, IsPercent, IsDuration;
      hide Warnings, TotalCapacity;
      var after := before.(vdevs := before.vdevs + added);
      var total := SumCapacity(after.vdevs);
      after := after.(totalSize := total);
      var movement := DataMovement(before.usedSize, before.totalSize, after.totalSize);
      var duration := DurationOf(movement, config.throughputMBps);
      var movementPercent, utilBefore, utilAfter := 0.0, 0.0, 0.0;
      if before.usedSize > 0 {
        movementPercent := Div(movement as real, before.usedSize as real) * 100.0;
      }
      if before.totalSize > 0 {
        utilBefore := Div(before.usedSize as real, before.totalSize as real) * 100.0;
      }
      if after.totalSize > 0 {
        utilAfter := Div(after.usedSize as real, after.totalSize as real) * 100.0;
      }
      var db := BuildDistribution(before.vdevs, config.warnUsage);
      var da := BuildAfterDistribution(after, before.usedSize, config.warnUsage);
      r := Result(after, movement, movementPercent, duration, utilBefore, utilAfter, utilBefore - utilAfter,
                  db, da, Warnings(config, utilAfter, movementPercent, duration));
      CapacityGrows(before.vdevs, added);
      MovementBounded(before.usedSize, before.totalSize, after.totalSize, after.totalSize);
      MovementExact(before.usedSize, before.totalSize, after.totalSize);
      PercentIs(movement, before.usedSize);
      PercentIs(before.usedSize, before.totalSize);
      PercentIs(before.usedSize, after.totalSize);
      DurationIs(movement, config.throughputMBps);
      WarningsIff(config, utilAfter, movementPercent, duration);
      if 0 < before.totalSize == TotalCapacity(before.vdevs) {
        AddingVdevsHelps(before, added);
      }
    }
  }

  /** Adding vdevs to a pool whose recorded size is its capacity never worsens its utilisation,
      and the movement is at most 60 percent: above the default warning level of 50. */
  lemma AddingVdevsHelps(before: PoolConfig, added: seq<VdevConfig>)
    requires 0 < before.totalSize == TotalCapacity(before.vdevs)
    ensures var after := AfterPool(before, added);
            && after.totalSize >= before.totalSize
            && Percent(before.usedSize, after.totalSize) <= Percent(before.usedSize, before.totalSize)
            && Percent(DataMovement(before.usedSize, before.totalSize, after.totalSize), before.usedSize) <= 60.0
  {
    hide Div, DataMovement;
    CapacityGrows(before.vdevs, added);
    var u, b, a := before.usedSize as real, before.totalSize as real, AfterPool(before, added).totalSize as real;
    QuotientOf(u, b);
    QuotientOf(u, a);
    if u > 0.0 {
      PercentFalls(u, b, a, Div(u, b), Div(u, a));
      var m := DataMovement(before.usedSize, before.totalSize, AfterPool(before, added).totalSize);
      MovementBounded(before.usedSize, before.totalSize, AfterPool(before, added).totalSize,
                      AfterPool(before, added).totalSize);
      QuotientOf(m as real, u);
      ProductOrder(u, Div(m as real, u), 0.6);
    }
  }

  lemma PercentFalls(u: real, b: real, a: real, p: real, q: real)
    requires 0.0 < b <= a && u > 0.0 && Mul(b, p) == u && Mul(a, q) == u
    ensures q <= p
  {
    LargerDivisor(u, b, a, p, q);
  }

  lemma {:induction false} CapacityGrows(vdevs: seq<VdevConfig>, added: seq<VdevConfig>)
    ensures TotalCapacity(vdevs + added) == TotalCapacity(vdevs) + TotalCapacity(added)
  {
    if added == [] {
      assert vdevs + added == vdevs;
    } else {
      assert (vdevs + added)[..|vdevs + added| - 1] == vdevs + added[..|added| - 1];
      CapacityGrows(vdevs, added[..|added| - 1]);
    }
  }
}
