/** The workload attributor: I/O profiles per vdev and workload, updated in place, and a bounded
    history of deep copies of them. */
module Attribution {
  import opened Prelude
  import opened Moments

  datatype Op = Read | Write
  datatype DatasetSample = DatasetSample(
    dataset: string, pool: string, nRead: int, nWrite: int,
    readBytes: int, writeBytes: int, readTime: int, writeTime: int)
  datatype VdevSample = VdevSample(vdevID: string, pool: string)

  const MAX_HISTORY := 288

  function OpName(op: Op): string { if op == Read then "read" else "write" }
  function Key(tag: string, op: Op): string { tag + ":" + OpName(op) }

  // ---- one profile as a value ----

  datatype Stats = Stats(count: int, totalLatencyUs: int, maxLatencyUs: int, bytesTotal: int, updated: int)

  /** What a sample says about one kind of operation. */
  datatype Usage = Usage(count: int, bytes: int, rtime: int)

  function UsageOf(ds: DatasetSample, op: Op): Usage {
    if op == Read then Usage(ds.nRead, ds.readBytes, ds.readTime) else Usage(ds.nWrite, ds.writeBytes, ds.writeTime)
  }

  /** One sample taken in. */
  function Bump(s: Option<Stats>, u: Usage, now: int): Stats {
    var b := if s.Some? then s.value else Stats(0, 0, 0, 0, 0);
    if u.count > 0 && u.rtime > 0 then
      var avgLat := u.rtime / u.count;
      Stats(b.count + u.count, b.totalLatencyUs + avgLat * u.count,
            if avgLat > b.maxLatencyUs then avgLat else b.maxLatencyUs, b.bytesTotal + u.bytes, now)
    else Stats(b.count + u.count, b.totalLatencyUs, b.maxLatencyUs, b.bytesTotal + u.bytes, now)
  }

  /** Taken in n times, once per row of the same vdev. */
  function BumpTimes(s: Option<Stats>, n: nat, u: Usage, now: int): Option<Stats> {
    if n == 0 then s else Some(Bump(BumpTimes(s, n - 1, u, now), u, now))
  }

  /** How many rows of the sampled pool name this vdev. */
  function Rows(vdevs: seq<VdevSample>, pool: string, vdevID: string): nat {
    |Filter(vdevs, Named(pool, vdevID))|
  }

  function Named(pool: string, vdevID: string): VdevSample -> bool {
    (v: VdevSample) => v.pool == pool && v.vdevID == vdevID
  }

  /** One profile after a sample whose pool's rows name its vdev n times. */
  function Ingested(s: Option<Stats>, key: string, ds: DatasetSample, n: nat, now: int): Option<Stats> {
    if key == Key(ds.dataset, Read) then BumpTimes(s, n, UsageOf(ds, Read), now)
    else if key == Key(ds.dataset, Write) then BumpTimes(s, n, UsageOf(ds, Write), now)
    else s
  }

  lemma KeysDiffer(tag: string)
    ensures Key(tag, Read) != Key(tag, Write)
  {
    assert |Key(tag, Read)| != |Key(tag, Write)|;
  }

  /** One row of vdev v' taken in, seen from the profile of vdev v under a key. */
  function RowTaken(s: Option<Stats>, key: string, v: string, ds: DatasetSample, row: VdevSample, now: int)
    : Option<Stats> {
    if row.pool != ds.pool || row.vdevID != v then s
    else if key == Key(ds.dataset, Read) then Some(Bump(s, UsageOf(ds, Read), now))
    else if key == Key(ds.dataset, Write) then Some(Bump(s, UsageOf(ds, Write), now))
    else s
  }

  lemma NextRow(ds: DatasetSample, vdevs: seq<VdevSample>, i: nat, now: int)
    requires i < |vdevs|
    ensures forall s, key, v :: Ingested(s, key, ds, Rows(vdevs[..i + 1], ds.pool, v), now)
              == RowTaken(Ingested(s, key, ds, Rows(vdevs[..i], ds.pool, v), now), key, v, ds, vdevs[i], now)
  {
    hide Bump, Filter, Key;
    assert vdevs[..i + 1] == vdevs[..i] + [vdevs[i]];
    forall v ensures Rows(vdevs[..i + 1], ds.pool, v)
                     == Rows(vdevs[..i], ds.pool, v)
                         + if vdevs[i].pool == ds.pool && vdevs[i].vdevID == v then 1 else 0 {
      FilterNext(vdevs[..i], vdevs[i], Named(ds.pool, v));
    }
    hide Rows;
  }

  lemma FromZero(u: Usage, now: int)
    ensures Bump(None, u, now) == Bump(Some(Stats(0, 0, 0, 0, 0)), u, now)
  {
  }

  predicate Bounded(s: Stats) {
    s.count >= 0 && s.maxLatencyUs >= 0 && 0 <= s.totalLatencyUs <= s.count * s.maxLatencyUs
  }

  /** Samples without negative numbers keep the total latency within count times maximum. */
  lemma BumpKeepsBound(s: Option<Stats>, u: Usage, now: int)
    requires s.Some? ==> Bounded(s.value)
    requires u.count >= 0 && u.rtime >= 0
    ensures Bounded(Bump(s, u, now))
  {
    var b := if s.Some? then s.value else Stats(0, 0, 0, 0, 0);
    if u.count > 0 && u.rtime > 0 {
      BoundAlgebra(b.count, u.count, b.maxLatencyUs, Bump(s, u, now).maxLatencyUs, b.totalLatencyUs, u.rtime / u.count);
    } else {
      BoundAlgebra(b.count, u.count, b.maxLatencyUs, b.maxLatencyUs, b.totalLatencyUs, 0);
    }
  }

  lemma BoundAlgebra(c: int, k: int, m: int, m': int, total: int, avg: int)
    requires c >= 0 && k >= 0 && 0 <= m <= m' && 0 <= total <= c * m && 0 <= avg <= m'
    ensures 0 <= total + avg * k <= (c + k) * m'
  {
    GrowFactor(c, m, m');
    GrowFactor(k, avg, m');
    GrowFactor(k, 0, avg);
    assert (c + k) * m' == c * m' + k * m';
  }

  lemma GrowFactor(c: int, m: int, m': int)
    requires c >= 0 && m <= m'
    ensures c * m <= c * m'
  {
    assert c * (m' - m) >= 0;
  }

  lemma {:induction false} BumpTimesKeepsBound(s: Option<Stats>, n: nat, u: Usage, now: int)
    requires s.Some? ==> Bounded(s.value)
    requires u.count >= 0 && u.rtime >= 0
    ensures var r := BumpTimes(s, n, u, now); r.Some? ==> Bounded(r.value)
  {
    if n > 0 {
      BumpTimesKeepsBound(s, n - 1, u, now);
      BumpKeepsBound(BumpTimes(s, n - 1, u, now), u, now);
    }
  }

  predicate NotNegative(ds: DatasetSample) {
    ds.nRead >= 0 && ds.nWrite >= 0 && ds.readTime >= 0 && ds.writeTime >= 0
  }

  /** Samples without negative numbers keep every profile bounded. */
  lemma IngestKeepsBound(s: Option<Stats>, key: string, ds: DatasetSample, n: nat, now: int)
    requires s.Some? ==> Bounded(s.value)
    requires NotNegative(ds)
    ensures Ingested(s, key, ds, n, now).Some? ==> Bounded(Ingested(s, key, ds, n, now).value)
  {
    BumpTimesKeepsBound(s, n, UsageOf(ds, Read), now);
    BumpTimesKeepsBound(s, n, UsageOf(ds, Write), now);
  }

  /** What n rows make of a profile: operations and bytes are added up, the mean latency of the
      sample counts once per operation and raises the maximum, and the time is that of the sample. */
  ghost predicate Took(s: Option<Stats>, t: Option<Stats>, n: nat, count: int, bytes: int, rtime: int, now: int) {
    if n == 0 then t == s else
    var b := if s.Some? then s.value else Stats(0, 0, 0, 0, 0);
    && t.Some? && t.value.count == b.count + n * count && t.value.bytesTotal == b.bytesTotal + n * bytes
    && t.value.updated == now
    && (if count > 0 && rtime > 0
        then exists avg: int :: IsQuotient(avg, rtime, count) && Slowed(b, t.value, n * (avg * count), avg)
        else Slowed(b, t.value, 0, b.maxLatencyUs))
  }

  ghost predicate IsQuotient(q: int, n: int, d: int) { q * d <= n < (q + 1) * d }

  ghost predicate Slowed(b: Stats, t: Stats, more: int, latency: int) {
    && t.totalLatencyUs == b.totalLatencyUs + more
    && t.maxLatencyUs == if latency > b.maxLatencyUs then latency else b.maxLatencyUs
  }

  lemma {:induction false} BumpTimesTakes(s: Option<Stats>, n: nat, u: Usage, now: int)
    ensures Took(s, BumpTimes(s, n, u, now), n, u.count, u.bytes, u.rtime, now)
  {
    if n > 0 {
      var b := if s.Some? then s.value else Stats(0, 0, 0, 0, 0);
      var t := BumpTimes(s, n, u, now);
      BumpTimesSum(s, n, u, now);
      if u.count > 0 && u.rtime > 0 {
        DivisionIs(u.rtime, u.count);
        hide BumpTimes, IsQuotient;
        assert Slowed(b, t.value, n * (u.rtime / u.count * u.count), u.rtime / u.count);
      }
    }
  }

  lemma DivisionIs(n: int, d: int)
    requires d > 0
    ensures IsQuotient(n / d, n, d)
  {
  }

  lemma {:induction false} BumpTimesSum(s: Option<Stats>, n: nat, u: Usage, now: int)
    requires n > 0
    ensures var b := if s.Some? then s.value else Stats(0, 0, 0, 0, 0);
            var timed := u.count > 0 && u.rtime > 0;
            var avg := if timed then u.rtime / u.count else 0;
            var more := if timed then avg * u.count else 0;
            var latency := if timed && avg > b.maxLatencyUs then avg else b.maxLatencyUs;
            BumpTimes(s, n, u, now)
            == Some(Stats(b.count + n * u.count, b.totalLatencyUs + n * more, latency, b.bytesTotal + n * u.bytes, now))
  {
    var more := if u.count > 0 && u.rtime > 0 then u.rtime / u.count * u.count else 0;
    OneTimeMore(n, u.count);
    OneTimeMore(n, u.bytes);
    OneTimeMore(n, more);
    if n > 1 {
      BumpTimesSum(s, n - 1, u, now);
    }
  }

  lemma OneTimeMore(n: nat, x: int)
    requires n > 0
    ensures n * x == (n - 1) * x + x && 0 * x == 0
  {
  }

  /** A sample's rows go to the two profiles of its dataset, reads to one and writes to the other. */
  lemma IngestedTakes(s: Option<Stats>, key: string, ds: DatasetSample, n: nat, now: int)
    ensures var t := Ingested(s, key, ds, n, now);
            && (key == ds.dataset + ":read" ==> Took(s, t, n, ds.nRead, ds.readBytes, ds.readTime, now))
            && (key == ds.dataset + ":write" ==> Took(s, t, n, ds.nWrite, ds.writeBytes, ds.writeTime, now))
            && (key != ds.dataset + ":read" && key != ds.dataset + ":write" ==> t == s)
  {
    KeysDiffer(ds.dataset);
    KeysAre(ds.dataset);
    BumpTimesTakes(s, n, UsageOf(ds, Read), now);
    BumpTimesTakes(s, n, UsageOf(ds, Write), now);
    hide Took, BumpTimes, Key;
  }

  lemma KeysAre(tag: string)
    ensures Key(tag, Read) == tag + ":read" && Key(tag, Write) == tag + ":write"
  {
    assert tag + (":" + "read") == tag + ":read" && tag + (":" + "write") == tag + ":write";
    assert ":" + "read" == ":read" && ":" + "write" == ":write";
  }

  /** The rows that count are those of the sample's pool that name the vdev. */
  lemma RowsAre(x: seq<VdevSample>, y: seq<VdevSample>, row: VdevSample, pool: string, vdevID: string)
    ensures Rows(x + y, pool, vdevID) == Rows(x, pool, vdevID) + Rows(y, pool, vdevID)
    ensures Rows([], pool, vdevID) == 0
    ensures Rows([row], pool, vdevID) == if row.pool == pool && row.vdevID == vdevID then 1 else 0
  {
    FilterAppend(x, y, Named(pool, vdevID));
    FilterNext([], row, Named(pool, vdevID));
    assert [] + [row] == [row];
  }

  function AvgLatencyUs(s: Stats): real {
    if s.count == 0 then 0.0 else Div(s.totalLatencyUs as real, s.count as real)
  }

  /** The average is the total over the count, and 0 of nothing. */
  lemma AverageIs(s: Stats)
    ensures if s.count == 0 then AvgLatencyUs(s) == 0.0
            else AvgLatencyUs(s) * s.count as real == s.totalLatencyUs as real
  {
  }

  /** Then the average latency is at most the maximum. */
  lemma AverageAtMostMax(s: Stats)
    requires Bounded(s)
    ensures 0.0 <= AvgLatencyUs(s) <= s.maxLatencyUs as real
  {
    if s.count > 0 {
      var t, c, m := s.totalLatencyUs as real, s.count as real, s.maxLatencyUs as real;
      QuotientOf(t, c);
      ProductOrder(c, Div(t, c), m);
      assert Mul(c, m) == (s.count * s.maxLatencyUs) as real;
    }
  }

  // ---- the profile objects ----

  class IOProfile {
    const vdevID: string
    const workloadTag: string
    const op: Op
    var stats: Stats

    constructor (vdevID: string, workloadTag: string, op: Op, stats: Stats)
      ensures this.vdevID == vdevID && this.workloadTag == workloadTag && this.op == op && this.stats == stats
    {
      this.vdevID, this.workloadTag, this.op, this.stats := vdevID, workloadTag, op, stats;
    }
  }

  datatype Snapshot = Snapshot(timestamp: int, profiles: seq<IOProfile>)

  type Profiles = map<string, map<string, IOProfile>>

  ghost function Objects(m: Profiles): set<IOProfile> {
    set v, k | v in m && k in m[v] :: m[v][k]
  }

  ghost function Copies(history: seq<Snapshot>): set<IOProfile> {
    set s, p | s in history && p in s.profiles :: p
  }

  function At(m: Profiles, vdevID: string, key: string): Option<IOProfile> {
    if vdevID in m && key in m[vdevID] then Some(m[vdevID][key]) else None
  }

  /** The vdev's map is made when it is first needed. */
  function Put(m: Profiles, vdevID: string, key: string, p: IOProfile): Profiles {
    var of: map<string, IOProfile> := if vdevID in m then m[vdevID] else map[];
    m[vdevID := of[key := p]]
  }

  lemma PutAt(m: Profiles, vdevID: string, key: string, p: IOProfile)
    ensures forall v, k :: At(Put(m, vdevID, key, p), v, k) == if v == vdevID && k == key then Some(p) else At(m, v, k)
  {
  }

  lemma ObjectsPut(m: Profiles, vdevID: string, key: string, p: IOProfile)
    requires At(m, vdevID, key) == None
    ensures Objects(Put(m, vdevID, key, p)) == Objects(m) + {p}
  {
    var m' := Put(m, vdevID, key, p);
    assert m'[vdevID][key] == p;
    assert forall v, k :: v in m && k in m[v] ==> k in m'[v] && m'[v][k] == m[v][k];
  }

  lemma EntryOf(m: Profiles)
    ensures forall v, k :: v in m && k in m[v] ==> At(m, v, k) == Some(m[v][k])
  {
  }

  /** What is on record for a vdev and workload key. */
  ghost function StatsAt(m: Profiles, vdevID: string, key: string): Option<Stats>
    reads Objects(m)
  {
    if At(m, vdevID, key).Some? then
      assert At(m, vdevID, key).value in Objects(m);
      Some(At(m, vdevID, key).value.stats)
    else None
  }

  ghost predicate AllBounded(m: Profiles)
    reads Objects(m)
  {
    forall v, k :: StatsAt(m, v, k).Some? ==> Bounded(StatsAt(m, v, k).value)
  }

  class Attributor {
    var profiles: Profiles
    var history: seq<Snapshot>

    /** Each profile sits under its own names, so no two entries share an object, and no
        snapshot shares one with the live profiles. */
    ghost predicate Valid()
      reads this
    {
      && (forall v, k :: v in profiles && k in profiles[v] ==>
            profiles[v][k].vdevID == v && Key(profiles[v][k].workloadTag, profiles[v][k].op) == k)
      && Objects(profiles) !! Copies(history)
      && |history| <= MAX_HISTORY
    }

    constructor ()
      ensures Valid() && profiles == map[] && history == []
    {
      profiles, history := map[], [];
    }

    /** Makes the profile if there is none. */
    method Ensure(vdevID: string, tag: string, op: Op) returns (p: IOProfile)
      requires Valid()
      modifies this`profiles
      ensures Valid() && forall p :: p in Objects(profiles) && p !in old(Objects(profiles)) ==> fresh(p)
      ensures At(profiles, vdevID, Key(tag, op)) == Some(p)
      ensures forall v, k :: v != vdevID || k != Key(tag, op) ==> At(profiles, v, k) == old(At(profiles, v, k))
      ensures if old(At(profiles, vdevID, Key(tag, op))).Some? then profiles == old(profiles)
              else fresh(p) && p.stats == Stats(0, 0, 0, 0, 0)
    {
      hide Key, Objects, Put;
      var key := Key(tag, op);
      if At(profiles, vdevID, key) == None {
        p := new IOProfile(vdevID, tag, op, Stats(0, 0, 0, 0, 0));
        assert p !in Copies(history);
        hide Copies;
        PutAt(profiles, vdevID, key, p);
        ObjectsPut(profiles, vdevID, key, p);
        profiles := Put(profiles, vdevID, key, p);
        EntryOf(profiles);
      }
      p := At(profiles, vdevID, key).value;
    }

    lemma OwnEntry(v: string, k: string)
      requires Valid()
      ensures At(profiles, v, k).Some? ==>
                var p := At(profiles, v, k).value;
                p in Objects(profiles) && p.vdevID == v && Key(p.workloadTag, p.op) == k
    {
    }

    /** One operation kind of one vdev row. */
    method Take(vdevID: string, tag: string, op: Op, u: Usage, now: int)
      requires Valid()
      modifies this`profiles, Objects(profiles)
      ensures Valid() && forall p :: p in Objects(profiles) && p !in old(Objects(profiles)) ==> fresh(p)
      ensures forall v, k :: StatsAt(profiles, v, k)
                == if v == vdevID && k == Key(tag, op) then Some(Bump(old(StatsAt(profiles, v, k)), u, now))
                   else old(StatsAt(profiles, v, k))
    {
      hide Bump, Key, Valid;
      var p := Ensure(vdevID, tag, op);
      FromZero(u, now);
      forall v, k {
        OwnEntry(v, k);
      }
      p.stats := Bump(Some(p.stats), u, now);
    }

    /** Both operation kinds of one row. */
    method TakeRow(ds: DatasetSample, row: VdevSample, now: int)
      requires Valid()
      modifies this`profiles, Objects(profiles)
      ensures Valid() && forall p :: p in Objects(profiles) && p !in old(Objects(profiles)) ==> fresh(p)
      ensures forall v, k :: StatsAt(profiles, v, k) == RowTaken(old(StatsAt(profiles, v, k)), k, v, ds, row, now)
    {
      hide Bump, Key, Valid, StatsAt, Objects;
      KeysDiffer(ds.dataset);
      if row.pool != ds.pool {
        return;
      }
      Take(row.vdevID, ds.dataset, Read, UsageOf(ds, Read), now);
      Take(row.vdevID, ds.dataset, Write, UsageOf(ds, Write), now);
    }

    lemma Apart()
      requires Valid()
      ensures Objects(profiles) !! Copies(history)
    {
    }

    /** Every profile takes in the sample once per row of its vdev; nothing else changes, and in
        particular no copy in a stored snapshot does. */
    method Ingest(ds: DatasetSample, vdevs: seq<VdevSample>, now: int)
      requires Valid()
      modifies this`profiles, Objects(profiles)
      ensures Valid()
      ensures forall v, k :: StatsAt(profiles, v, k)
                == Ingested(old(StatsAt(profiles, v, k)), k, ds, Rows(vdevs, ds.pool, v), now)
      ensures var k := ds.dataset + ":read";
              forall v :: Took(old(StatsAt(profiles, v, k)), StatsAt(profiles, v, k), Rows(vdevs, ds.pool, v),
                               ds.nRead, ds.readBytes, ds.readTime, now)
      ensures var k := ds.dataset + ":write";
              forall v :: Took(old(StatsAt(profiles, v, k)), StatsAt(profiles, v, k), Rows(vdevs, ds.pool, v),
                               ds.nWrite, ds.writeBytes, ds.writeTime, now)
      ensures history == old(history) && forall p :: p in Copies(history) ==> unchanged(p)
      ensures NotNegative(ds) && old(AllBounded(profiles)) ==> AllBounded(profiles)
    {
      hide Bump, Key, Valid, Rows, Ingested, RowTaken, StatsAt, Objects, Took;
      NothingIngested(ds, now);
      Apart();
      for i := 0 to |vdevs|
        invariant Valid() && forall p :: p in Objects(profiles) && p !in old(Objects(profiles)) ==> fresh(p)
        invariant forall v, k :: StatsAt(profiles, v, k)
                    == Ingested(old(StatsAt(profiles, v, k)), k, ds, Rows(vdevs[..i], ds.pool, v), now)
      {
        NextRow(ds, vdevs, i, now);
        TakeRow(ds, vdevs[i], now);
      }
      assert vdevs[..|vdevs|] == vdevs;
      var kr, kw := ds.dataset + ":read", ds.dataset + ":write";
      forall v
        ensures Took(old(StatsAt(profiles, v, kr)), StatsAt(profiles, v, kr), Rows(vdevs, ds.pool, v),
                     ds.nRead, ds.readBytes, ds.readTime, now)
        ensures Took(old(StatsAt(profiles, v, kw)), StatsAt(profiles, v, kw), Rows(vdevs, ds.pool, v),
                     ds.nWrite, ds.writeBytes, ds.writeTime, now)
      {
        IngestedTakes(old(StatsAt(profiles, v, kr)), kr, ds, Rows(vdevs, ds.pool, v), now);
        IngestedTakes(old(StatsAt(profiles, v, kw)), kw, ds, Rows(vdevs, ds.pool, v), now);
      }
      if NotNegative(ds) && old(AllBounded(profiles)) {
        forall v, k ensures StatsAt(profiles, v, k).Some? ==> Bounded(StatsAt(profiles, v, k).value) {
          IngestKeepsBound(old(StatsAt(profiles, v, k)), k, ds, Rows(vdevs, ds.pool, v), now);
        }
      }
    }

    /** Copies of the profiles of one vdev, each workload once. */
    method CopyWorkloads(v: string) returns (copies: seq<IOProfile>, ghost keys: seq<string>)
      requires v in profiles
      ensures (forall k :: k in keys <==> k in profiles[v]) && Distinct(keys)
      ensures |copies| == |keys|
      ensures forall i :: 0 <= i < |keys| ==> fresh(copies[i]) && CopyOf(copies[i], profiles[v][keys[i]])
    {
      copies, keys := [], [];
      var left := profiles[v].Keys;
      while left != {}
        invariant left <= profiles[v].Keys
        invariant (forall k :: k in keys <==> k in profiles[v] && k !in left) && Distinct(keys)
        invariant |copies| == |keys|
        invariant forall i :: 0 <= i < |keys| ==> fresh(copies[i]) && CopyOf(copies[i], profiles[v][keys[i]])
      {
        var k :| k in left;
        left := left - {k};
        var p := profiles[v][k];
        var cp := new IOProfile(p.vdevID, p.workloadTag, p.op, p.stats);
        copies, keys := copies + [cp], keys + [k];
      }
    }

    method CopyAll() returns (copies: seq<IOProfile>, ghost keys: seq<(string, string)>)
      ensures (forall v, k :: (v, k) in keys <==> At(profiles, v, k).Some?) && Distinct(keys)
      ensures |copies| == |keys|
      ensures forall i :: 0 <= i < |keys| ==>
                && fresh(copies[i]) && At(profiles, keys[i].0, keys[i].1).Some?
                && CopyOf(copies[i], At(profiles, keys[i].0, keys[i].1).value)
    {
      copies, keys := [], [];
      var left := profiles.Keys;
      while left != {}
        invariant left <= profiles.Keys
        invariant (forall v, k :: (v, k) in keys <==> At(profiles, v, k).Some? && v !in left) && Distinct(keys)
        invariant |copies| == |keys|
        invariant forall i :: 0 <= i < |keys| ==>
                    && fresh(copies[i]) && At(profiles, keys[i].0, keys[i].1).Some?
                    && CopyOf(copies[i], At(profiles, keys[i].0, keys[i].1).value)
      {
        var v :| v in left;
        left := left - {v};
        ghost var ks;
        var more;
        more, ks := CopyWorkloads(v);
        copies, keys := copies + more, keys + Paired(v, ks);
      }
    }

    /** A copy of every live profile joins the history, which keeps the last 288. */
    method TakeSnapshot(now: int) returns (snap: Snapshot, ghost keys: seq<(string, string)>)
      requires Valid()
      modifies this`history
      ensures Valid()
      ensures history == Last(old(history) + [snap], MAX_HISTORY) && snap.timestamp == now
      ensures |history| == if |old(history)| < 288 then |old(history)| + 1 else 288
      ensures (forall v, k :: (v, k) in keys <==> At(profiles, v, k).Some?) && Distinct(keys)
      ensures |snap.profiles| == |keys|
      ensures forall i :: 0 <= i < |keys| ==>
                && fresh(snap.profiles[i]) && At(profiles, keys[i].0, keys[i].1).Some?
                && CopyOf(snap.profiles[i], At(profiles, keys[i].0, keys[i].1).value)
      ensures forall i :: 0 <= i < |keys| ==>
                var c, p := snap.profiles[i], At(profiles, keys[i].0, keys[i].1).value;
                c.vdevID == p.vdevID && c.workloadTag == p.workloadTag && c.op == p.op && c.stats == p.stats
    {
      hide At;
      ghost var before := Copies(history);
      var copies;
      copies, keys := CopyAll();
      snap := Snapshot(now, copies);
      history := history + [snap];
      if |history| > MAX_HISTORY {
        history := history[1..];
      }
      assert forall p :: p in Copies(history) ==> p in before || p in snap.profiles;
    }

    /** The workloads of a vdev, each once, in the map's order. */
    method ListWorkloads(vdevID: string) returns (found: seq<IOProfile>)
      requires Valid()
      ensures multiset(found) == multiset(Workloads(profiles, vdevID))
    {
      hide CopyOf, Distinct, Key;
      found := [];
      ghost var taken: set<IOProfile> := {};
      var left := if vdevID in profiles then profiles[vdevID].Keys else {};
      while left != {}
        invariant vdevID in profiles ==> left <= profiles[vdevID].Keys
        invariant vdevID !in profiles ==> left == {}
        invariant forall p :: p in taken <==>
                    vdevID in profiles && exists k :: k in profiles[vdevID] && k !in left && profiles[vdevID][k] == p
        invariant multiset(found) == multiset(taken)
      {
        var k :| k in left;
        left := left - {k};
        var p := profiles[vdevID][k];
        assert p !in taken;
        found, taken := found + [p], taken + {p};
      }
      assert taken == Workloads(profiles, vdevID);
    }

    /** The n workloads of a vdev with the most bytes (all of them for n <= 0): a front part of
        an arrangement of all its workloads, each once, by falling bytes. These are the live
        profiles, not copies. */
    method TopWorkloads(vdevID: string, n: int) returns (top: seq<IOProfile>)
      requires Valid()
      ensures exists all ::
                && ByBytes(all, Workloads(profiles, vdevID)) && top <= all
                && |top| == (if 0 < n < |all| then n else |all|)
    {
      hide Valid, Workloads;
      var found := ListWorkloads(vdevID);
      var slice := new IOProfile[|found|](i requires 0 <= i < |found| => found[i]);
      assert slice[..] == found;
      ExchangeSort(slice);
      ghost var all := slice[..];
      Members(all, Workloads(profiles, vdevID));
      top := if 0 < n < slice.Length then slice[..n] else slice[..];
      assert top <= all;
      assert ByBytes(all, Workloads(profiles, vdevID));
    }
  }

  lemma Members<T>(s: seq<T>, xs: set<T>)
    requires multiset(s) == multiset(xs)
    ensures forall x :: x in s ==> x in xs
  {
    forall x | x in s ensures x in xs {
      assert x in multiset(s);
    }
  }

  /** An arrangement of the profiles, each once, by falling bytes. */
  ghost predicate ByBytes(all: seq<IOProfile>, ps: set<IOProfile>)
    reads ps
  {
    && multiset(all) == multiset(ps)
    && (forall p :: p in all ==> p in ps)
    && (forall i, j :: 0 <= i < j < |all| ==> all[i].stats.bytesTotal >= all[j].stats.bytesTotal)
  }

  ghost function Workloads(m: Profiles, vdevID: string): set<IOProfile> {
    if vdevID in m then m[vdevID].Values else {}
  }

  method Swap(a: array<IOProfile>, i: nat, j: nat)
    requires i < j < a.Length
    modifies a
    ensures multiset(a[..]) == multiset(old(a[..]))
    ensures a[i] == old(a[j]) && a[j] == old(a[i])
    ensures forall k :: 0 <= k < a.Length && k != i && k != j ==> a[k] == old(a[k])
  {
    a[i], a[j] := a[j], a[i];
  }

  method ExchangeSort(a: array<IOProfile>)
    modifies a
    ensures multiset(a[..]) == multiset(old(a[..]))
    ensures forall i, j :: 0 <= i < j < a.Length ==> a[i].stats.bytesTotal >= a[j].stats.bytesTotal
  {
    for i := 0 to a.Length
      invariant multiset(a[..]) == multiset(old(a[..]))
      invariant forall p, q :: 0 <= p < i && p < q < a.Length ==> a[p].stats.bytesTotal >= a[q].stats.bytesTotal
    {
      for j := i + 1 to a.Length
        invariant multiset(a[..]) == multiset(old(a[..]))
        invariant forall p, q :: 0 <= p < i && p < q < a.Length ==> a[p].stats.bytesTotal >= a[q].stats.bytesTotal
        invariant forall q :: i < q < j ==> a[i].stats.bytesTotal >= a[q].stats.bytesTotal
      {
        if a[j].stats.bytesTotal > a[i].stats.bytesTotal {
          Swap(a, i, j);
        }
      }
    }
  }

  predicate CopyOf(c: IOProfile, p: IOProfile)
    reads c, p
  {
    c.vdevID == p.vdevID && c.workloadTag == p.workloadTag && c.op == p.op && c.stats == p.stats
  }

  ghost predicate Distinct<T>(s: seq<T>) { forall i, j :: 0 <= i < j < |s| ==> s[i] != s[j] }

  ghost function Paired(v: string, ks: seq<string>): (r: seq<(string, string)>)
    ensures |r| == |ks| && forall i :: 0 <= i < |r| ==> r[i] == (v, ks[i])
  {
    seq(|ks|, i requires 0 <= i < |ks| => (v, ks[i]))
  }

  lemma NothingIngested(ds: DatasetSample, now: int)
    ensures forall v :: Rows([], ds.pool, v) == 0
    ensures forall s, k :: Ingested(s, k, ds, 0, now) == s
  {
  }
}
