/** The checksum-error tracker: error counters turned into deltas, a log pruned in place, and
    the vdevs it reports. The pruned log is proved to answer like the log that was never pruned. */
module Hotspot {
  import opened Prelude

  datatype ChecksumEvent = ChecksumEvent(pool: string, vdevPath: string, errorCount: int, detectedAt: int)

  /** One vdev line of `zpool status`, and when it was read. */
  datatype Row = Row(pool: string, vdevPath: string, cksum: int, at: int)

  const MAX_AGE := 72 * HOUR

  function Key(pool: string, vdevPath: string): string { pool + "/" + vdevPath }
  function RowKey(r: Row): string { Key(r.pool, r.vdevPath) }
  function EventKey(e: ChecksumEvent): string { Key(e.pool, e.vdevPath) }

  // ---- deltas over the whole history of rows ----

  /** The non-zero readings of one vdev, in order. */
  function Readings(h: seq<Row>, key: string): seq<int> {
    if h == [] then [] else
    var r := h[|h| - 1];
    Readings(h[..|h| - 1], key) + if RowKey(r) == key && r.cksum != 0 then [r.cksum] else []
  }

  function LastReading(rs: seq<int>): int { if rs == [] then 0 else rs[|rs| - 1] }

  lemma LastReadingIs(rs: seq<int>, x: int)
    ensures LastReading(rs + [x]) == x
  {
  }

  /** Every event that the rows give rise to. */
  function Emitted(h: seq<Row>): seq<ChecksumEvent> {
    if h == [] then [] else
    var init, r := h[..|h| - 1], h[|h| - 1];
    var delta := r.cksum - LastReading(Readings(init, RowKey(r)));
    Emitted(init) + if r.cksum != 0 && delta > 0 then [ChecksumEvent(r.pool, r.vdevPath, delta, r.at)] else []
  }

  /** The errors the events of one vdev add up to. */
  function ErrorsOf(log: seq<ChecksumEvent>, key: string): int {
    if log == [] then 0 else
    var e := log[|log| - 1];
    ErrorsOf(log[..|log| - 1], key) + if EventKey(e) == key then e.errorCount else 0
  }

  /** How far the readings climb in all, from zero. */
  function Climb(rs: seq<int>): int {
    if rs == [] then 0 else
    var rise := rs[|rs| - 1] - LastReading(rs[..|rs| - 1]);
    Climb(rs[..|rs| - 1]) + if rise > 0 then rise else 0
  }

  /** One more row. */
  lemma NextRow(h: seq<Row>, r: Row)
    ensures forall key :: Readings(h + [r], key)
                          == if RowKey(r) == key && r.cksum != 0 then Readings(h, key) + [r.cksum] else Readings(h, key)
    ensures var delta := r.cksum - LastReading(Readings(h, RowKey(r)));
            Emitted(h + [r]) == if r.cksum != 0 && delta > 0
                                then Emitted(h) + [ChecksumEvent(r.pool, r.vdevPath, delta, r.at)] else Emitted(h)
  {
    assert (h + [r])[..|h|] == h;
    assert forall rs: seq<int> :: rs + [] == rs;
    assert Emitted(h) + [] == Emitted(h);
  }

  lemma NextEmitted(h: seq<Row>, r: Row)
    ensures var delta := r.cksum - LastReading(Readings(h, RowKey(r)));
            Emitted(h + [r]) == if r.cksum != 0 && delta > 0
                                then Emitted(h) + [ChecksumEvent(r.pool, r.vdevPath, delta, r.at)] else Emitted(h)
  {
    NextRow(h, r);
    hide *;
  }

  lemma NextError(log: seq<ChecksumEvent>, e: ChecksumEvent, key: string)
    ensures ErrorsOf(log + [e], key) == ErrorsOf(log, key) + if EventKey(e) == key then e.errorCount else 0
  {
    assert (log + [e])[..|log|] == log;
  }

  lemma NextClimb(rs: seq<int>, x: int)
    ensures Climb(rs + [x]) == Climb(rs) + if x > LastReading(rs) then x - LastReading(rs) else 0
  {
    assert (rs + [x])[..|rs|] == rs;
  }

  lemma NextConserves(h: seq<Row>, r: Row, key: string)
    requires ErrorsOf(Emitted(h), key) == Climb(Readings(h, key))
    ensures ErrorsOf(Emitted(h + [r]), key) == Climb(Readings(h + [r], key))
  {
    hide Emitted, Readings, ErrorsOf, Climb, Key;
    NextRow(h, r);
    var delta := r.cksum - LastReading(Readings(h, RowKey(r)));
    NextError(Emitted(h), ChecksumEvent(r.pool, r.vdevPath, delta, r.at), key);
    NextClimb(Readings(h, key), r.cksum);
  }

  /** Conservation: over any history the events of a vdev add up to its readings' climb. */
  lemma {:induction false} DeltasConserve(h: seq<Row>, key: string)
    ensures ErrorsOf(Emitted(h), key) == Climb(Readings(h, key))
  {
    hide Emitted, Readings, ErrorsOf, Climb;
    if h == [] {
      NoRows(key);
    } else {
      DeltasConserve(h[..|h| - 1], key);
      NextConserves(h[..|h| - 1], h[|h| - 1], key);
      assert h == h[..|h| - 1] + [h[|h| - 1]];
    }
  }

  lemma NoRows(key: string)
    ensures ErrorsOf(Emitted([]), key) == Climb(Readings([], key))
  {
  }

  function Before(rs: seq<int>, i: nat): int
    requires i < |rs|
  {
    if i == 0 then 0 else rs[i - 1]
  }

  predicate NeverFalls(rs: seq<int>) { forall i :: 0 <= i < |rs| ==> Before(rs, i) <= rs[i] }

  /** They are as many as the last reading says exactly when the counter never fell. */
  lemma {:induction false} ClimbTelescopes(rs: seq<int>)
    ensures Climb(rs) >= LastReading(rs)
    ensures Climb(rs) == LastReading(rs) <==> NeverFalls(rs)
  {
    if rs != [] {
      var n := |rs| - 1;
      ClimbTelescopes(rs[..n]);
      assert forall i :: 0 <= i < n ==> Before(rs[..n], i) == Before(rs, i);
      assert LastReading(rs[..n]) == Before(rs, n);
      assert NeverFalls(rs) <==> NeverFalls(rs[..n]) && Before(rs, n) <= rs[n];
    }
  }

  // ---- a counter that was cleared ----

  /** All readings of one vdev, in order, the zeros too. */
  function AllReadings(h: seq<Row>, key: string): seq<int> {
    if h == [] then [] else
    var r := h[|h| - 1];
    AllReadings(h[..|h| - 1], key) + if RowKey(r) == key then [r.cksum] else []
  }

  function NonZero(rs: seq<int>): seq<int> {
    if rs == [] then [] else NonZero(rs[..|rs| - 1]) + if rs[|rs| - 1] != 0 then [rs[|rs| - 1]] else []
  }

  lemma NextNonZero(rs: seq<int>, x: int)
    ensures NonZero(rs + [x]) == if x != 0 then NonZero(rs) + [x] else NonZero(rs)
  {
    assert (rs + [x])[..|rs|] == rs && NonZero(rs) + [] == NonZero(rs);
  }

  lemma {:induction false} ReadingsSkipZeros(h: seq<Row>, key: string)
    ensures Readings(h, key) == NonZero(AllReadings(h, key))
  {
    if h != [] {
      var init, r := h[..|h| - 1], h[|h| - 1];
      ReadingsSkipZeros(init, key);
      NextNonZero(AllReadings(init, key), r.cksum);
      hide NonZero, Key;
      assert AllReadings(init, key) + [] == AllReadings(init, key) && Readings(init, key) + [] == Readings(init, key);
    }
  }

  /** The counter has been seen to count again after it was seen at zero again. */
  ghost predicate Restarted(rs: seq<int>) {
    exists i, j, k :: 0 <= i < j < k < |rs| && rs[i] != 0 && rs[j] == 0 && rs[k] != 0
  }

  lemma {:induction false} NonZeroOf(rs: seq<int>)
    ensures NonZero(rs) == [] <==> forall i :: 0 <= i < |rs| ==> rs[i] == 0
    ensures rs != [] && rs[|rs| - 1] != 0 ==> LastReading(NonZero(rs)) == rs[|rs| - 1]
    ensures (forall i :: 0 <= i < |rs| ==> rs[i] >= 0) ==> LastReading(NonZero(rs)) >= 0
    ensures (forall i :: 0 <= i < |rs| ==> rs[i] >= 0) && NonZero(rs) != [] ==> LastReading(NonZero(rs)) > 0
  {
    if rs != [] {
      NonZeroOf(rs[..|rs| - 1]);
    }
  }

  /** One reading more restarts the counter if it is the first after a zero after a count. */
  lemma NextRestarted(rs: seq<int>, x: int)
    ensures Restarted(rs + [x])
            <==> Restarted(rs) || (x != 0 && rs != [] && rs[|rs| - 1] == 0 && NonZero(rs) != [])
  {
    var more, n := rs + [x], |rs|;
    NonZeroOf(rs);
    hide NonZero;
    if i, j, k :| 0 <= i < j < k < n && rs[i] != 0 && rs[j] == 0 && rs[k] != 0 {
      assert more[i] != 0 && more[j] == 0 && more[k] != 0;
    }
    if x != 0 && rs != [] && rs[n - 1] == 0 && NonZero(rs) != [] {
      var i :| 0 <= i < n && rs[i] != 0;
      assert more[i] != 0 && more[n - 1] == 0 && more[n] != 0;
    }
    if i, j, k :| 0 <= i < j < k <= n && more[i] != 0 && more[j] == 0 && more[k] != 0 {
      assert rs[i] != 0 && rs[j] == 0;
      assert k < n ==> rs[k] != 0;
      assert rs[n - 1] != 0 && k == n ==> 0 <= i < j < n - 1 && rs[n - 1] != 0;
    }
  }

  /** Skipping the zeros never adds to the climb, and keeps all of it exactly if the counter
      never restarted. */
  lemma {:induction false} ClimbWithoutZeros(rs: seq<int>)
    requires forall i :: 0 <= i < |rs| ==> rs[i] >= 0
    ensures Climb(NonZero(rs)) <= Climb(rs)
    ensures Climb(NonZero(rs)) == Climb(rs) <==> !Restarted(rs)
  {
    hide *;
    if rs == [] {
      NothingRestarted();
    } else {
      var init, x := rs[..|rs| - 1], rs[|rs| - 1];
      ClimbWithoutZeros(init);
      assert rs == init + [x];
      LastOrZero(init);
      NextNonZero(init, x);
      NextClimb(init, x);
      NextClimb(NonZero(init), x);
      NextRestarted(init, x);
    }
  }

  lemma NothingRestarted()
    ensures Climb(NonZero([])) == Climb([]) && !Restarted([])
  {
  }

  /** The last reading is the last non-zero one, unless the counter was cleared. */
  lemma LastOrZero(rs: seq<int>)
    requires forall i :: 0 <= i < |rs| ==> rs[i] >= 0
    ensures var last, kept := LastReading(rs), LastReading(NonZero(rs));
            && 0 <= last && 0 <= kept && (last != kept ==> last == 0)
            && (last != kept <==> rs != [] && rs[|rs| - 1] == 0 && NonZero(rs) != [])
  {
    NonZeroOf(rs);
    hide NonZero;
  }

  /** So the emitted errors of a vdev are all that its readings climbed, zeros included, exactly
      if its counter was never seen to restart; otherwise they are fewer. */
  lemma NothingLostIff(h: seq<Row>, key: string)
    requires forall r :: r in h ==> r.cksum >= 0
    ensures ErrorsOf(Emitted(h), key) <= Climb(AllReadings(h, key))
    ensures ErrorsOf(Emitted(h), key) == Climb(AllReadings(h, key)) <==> !Restarted(AllReadings(h, key))
  {
    hide *;
    DeltasConserve(h, key);
    ReadingsSkipZeros(h, key);
    AllReadingsOk(h, key);
    ClimbWithoutZeros(AllReadings(h, key));
  }

  lemma {:induction false} AllReadingsOk(h: seq<Row>, key: string)
    requires forall r :: r in h ==> r.cksum >= 0
    ensures forall i :: 0 <= i < |AllReadings(h, key)| ==> AllReadings(h, key)[i] >= 0
  {
    if h != [] {
      assert h[|h| - 1] in h && forall r :: r in h[..|h| - 1] ==> r in h;
      AllReadingsOk(h[..|h| - 1], key);
    }
  }

  /** Five errors, a clear, three errors: eight happened and five are emitted. */
  lemma ClearedCounterLosesErrors()
    ensures var rs := [5, 0, 3]; Climb(rs) == 8 && Climb(NonZero(rs)) == 5 && Restarted(rs)
  {
    var rs := [5, 0, 3];
    assert rs == [5] + [0] + [3] && rs[0] != 0 && rs[1] == 0 && rs[2] != 0;
    hide Climb, NonZero;
    ClimbOfOne(5);
    NextNonZero([5], 0);
    NextNonZero([5] + [0], 3);
    NextClimb([5], 0);
    NextClimb([5] + [0], 3);
    NextClimb([5], 3);
  }

  lemma ClimbOfOne(x: int)
    requires x > 0
    ensures Climb([x]) == x && NonZero([x]) == [x]
  {
    assert [x][..0] == [];
  }

  lemma {:induction false} EmittedPositive(h: seq<Row>, e: ChecksumEvent)
    requires e in Emitted(h)
    ensures e.errorCount > 0 && exists r :: r in h && r.at == e.detectedAt && r.pool == e.pool
  {
    var init, r := h[..|h| - 1], h[|h| - 1];
    if e in Emitted(init) {
      EmittedPositive(init, e);
      assert forall x :: x in init ==> x in h;
    } else {
      assert r in h;
    }
  }

  // ---- what is reported ----

  /** The errors of one vdev at most `age` old. */
  function Within(log: seq<ChecksumEvent>, key: string, now: int, age: int): int {
    if log == [] then 0 else
    var e := log[|log| - 1];
    Within(log[..|log| - 1], key, now, age)
    + if EventKey(e) == key && now - e.detectedAt <= age then e.errorCount else 0
  }

  datatype Counts = Counts(pool: string, in1h: int, in24h: int, first: int, last: int)

  /** One event counted in. */
  function Count(t: Option<Counts>, e: ChecksumEvent, now: int): Counts {
    var c := if t.Some? then t.value else Counts(e.pool, 0, 0, e.detectedAt, e.detectedAt);
    Counts(c.pool,
           c.in1h + (if now - e.detectedAt <= HOUR then e.errorCount else 0),
           c.in24h + (if now - e.detectedAt <= 24 * HOUR then e.errorCount else 0),
           if e.detectedAt < c.first then e.detectedAt else c.first,
           if e.detectedAt > c.last then e.detectedAt else c.last)
  }

  function Tally(log: seq<ChecksumEvent>, key: string, now: int): Option<Counts> {
    if log == [] then None else
    var t, e := Tally(log[..|log| - 1], key, now), log[|log| - 1];
    if EventKey(e) == key then Some(Count(t, e, now)) else t
  }

  datatype Hotspot = Hotspot(
    pool: string, vdevPath: string, errorsIn24h: int, errorsIn1h: int, critical: bool, firstSeen: int, lastSeen: int)

  /** What follows the first slash of a key. */
  function AfterSlash(key: string): string {
    if key == "" then "" else if key[0] == '/' then key[1..] else AfterSlash(key[1..])
  }

  lemma {:induction false} AfterSlashOfKey(pool: string, vdevPath: string)
    requires '/' !in pool
    ensures AfterSlash(Key(pool, vdevPath)) == vdevPath
  {
    if pool == "" {
      assert Key(pool, vdevPath)[1..] == vdevPath;
    } else {
      assert Key(pool, vdevPath)[1..] == Key(pool[1..], vdevPath);
      AfterSlashOfKey(pool[1..], vdevPath);
    }
  }

  function Report(key: string, c: Counts): Hotspot {
    Hotspot(c.pool, AfterSlash(key), c.in24h, c.in1h, c.in1h >= 3 || c.in24h >= 10, c.first, c.last)
  }

  predicate IsHot(log: seq<ChecksumEvent>, key: string, now: int) {
    Tally(log, key, now).Some? && Tally(log, key, now).value.in24h >= 2
  }

  function ReportOf(log: seq<ChecksumEvent>, key: string, now: int): Hotspot
    requires IsHot(log, key, now)
  {
    Report(key, Tally(log, key, now).value)
  }

  ghost function Reports(log: seq<ChecksumEvent>, keys: seq<string>, now: int): seq<Hotspot>
    requires forall key :: key in keys ==> IsHot(log, key, now)
  {
    seq(|keys|, i requires 0 <= i < |keys| => ReportOf(log, keys[i], now))
  }

  predicate MoreErrors(a: Hotspot, b: Hotspot) { a.errorsIn24h >= b.errorsIn24h }

  lemma MostFirst(out: seq<Hotspot>)
    requires Sorted(out, MoreErrors)
    ensures forall i, j :: 0 <= i < j < |out| ==> out[i].errorsIn24h >= out[j].errorsIn24h
  {
    assert forall i, j :: 0 <= i < j < |out| ==> MoreErrors(out[i], out[j]);
  }

  lemma RiskiestFirst(out: seq<VdevRisk>)
    requires Sorted(out, Riskier)
    ensures forall i, j :: 0 <= i < j < |out| ==> out[i].riskScore >= out[j].riskScore
  {
    assert forall i, j :: 0 <= i < j < |out| ==> Riskier(out[i], out[j]);
  }

  // ---- the tracker ----

  function Lookup<T>(m: map<string, T>, key: string): Option<T> { if key in m then Some(m[key]) else None }

  /** A key that the Go map does not have reads as zero. */
  function Reading(m: map<string, int>, key: string): int { if key in m then m[key] else 0 }

  /** The baseline holds every vdev's last non-zero reading. */
  ghost predicate IsLast(baseline: map<string, int>, h: seq<Row>) {
    forall key :: Reading(baseline, key) == LastReading(Readings(h, key))
  }

  lemma NextLast(baseline: map<string, int>, h: seq<Row>, r: Row)
    requires IsLast(baseline, h)
    ensures IsLast(if r.cksum == 0 then baseline else baseline[RowKey(r) := r.cksum], h + [r])
    ensures Reading(baseline, RowKey(r)) == LastReading(Readings(h, RowKey(r)))
  {
    NextRow(h, r);
    LastReadingIs(Readings(h, RowKey(r)), r.cksum);
    hide Emitted, Readings, Key, LastReading;
  }

  lemma PruneAgain(log: seq<ChecksumEvent>, more: seq<ChecksumEvent>, cutoff: int, cutoff': int)
    requires cutoff <= cutoff'
    ensures Filter(Filter(log, Young(cutoff)) + more, Young(cutoff')) == Filter(log + more, Young(cutoff'))
  {
    FilterAppend(Filter(log, Young(cutoff)), more, Young(cutoff'));
    FilterAppend(log, more, Young(cutoff'));
    FilterTwice(log, Young(cutoff), Young(cutoff'));
  }

  function Young(cutoff: int): ChecksumEvent -> bool { (e: ChecksumEvent) => e.detectedAt > cutoff }

  /** A vdev's group, of which the first event makes an entry. */
  function Bucket(m: map<string, seq<ChecksumEvent>>, key: string): seq<ChecksumEvent> {
    if key in m then m[key] else []
  }

  ghost predicate IsGrouped(m: map<string, seq<ChecksumEvent>>, log: seq<ChecksumEvent>) {
    && (forall key :: Bucket(m, key) == Filter(log, OfVdev(key)))
    && (forall key :: key in m ==> m[key] != [])
  }

  lemma NextGrouped(m: map<string, seq<ChecksumEvent>>, log: seq<ChecksumEvent>, i: nat)
    requires i < |log| && IsGrouped(m, log[..i])
    ensures IsGrouped(m[EventKey(log[i]) := Bucket(m, EventKey(log[i])) + [log[i]]], log[..i + 1])
  {
    hide Filter, Key;
    var m' := m[EventKey(log[i]) := Bucket(m, EventKey(log[i])) + [log[i]]];
    forall key ensures Bucket(m', key) == Filter(log[..i + 1], OfVdev(key)) {
      FilterPrefix(log, i, OfVdev(key));
      assert Bucket(m, key) == Filter(log[..i], OfVdev(key));
    }
  }

  class Tracker {
    var events: seq<ChecksumEvent>
    var baseline: map<string, int>
    ghost var history: seq<Row>  // every row ever read
    ghost var clock: int         // when Collect last ran

    ghost predicate Valid()
      reads this
    {
      && IsLast(baseline, history)
      && events == Filter(Emitted(history), Young(clock - MAX_AGE))
    }

    constructor ()
      ensures Valid() && history == []
    {
      events, baseline, history := [], map[], [];
    }

    /** The delta logic of parseZpoolStatus, on one row that has been parsed. */
    method ParseRow(r: Row) returns (emitted: seq<ChecksumEvent>)
      requires IsLast(baseline, history)
      modifies this`baseline, this`history
      ensures history == old(history) + [r]
      ensures IsLast(baseline, history)
      ensures Emitted(history) == Emitted(old(history)) + emitted
    {
      hide *;
      emitted := [];
      NextEmitted(history, r);
      NextLast(baseline, history, r);
      history := history + [r];
      if r.cksum == 0 {
        return;
      }
      var prev := Reading(baseline, RowKey(r));
      var delta := r.cksum - prev;
      if delta > 0 {
        emitted := [ChecksumEvent(r.pool, r.vdevPath, delta, r.at)];
      }
      baseline := baseline[RowKey(r) := r.cksum];
    }

    /** And on all rows. */
    method Parse(rows: seq<Row>) returns (emitted: seq<ChecksumEvent>)
      requires Valid()
      modifies this`baseline, this`history
      ensures history == old(history) + rows
      ensures IsLast(baseline, history)
      ensures Emitted(history) == Emitted(old(history)) + emitted
    {
      assert IsLast(baseline, history);
      hide *;
      emitted := [];
      for i := 0 to |rows|
        invariant history == old(history) + rows[..i]
        invariant IsLast(baseline, history)
        invariant Emitted(history) == Emitted(old(history)) + emitted
      {
        PrefixGrows(old(history), rows, i);
        ghost var before := emitted;
        var more := ParseRow(rows[i]);
        emitted := emitted + more;
        JoinAssociative(Emitted(old(history)), before, more);
      }
      assert rows[..|rows|] == rows;
    }

    method Collect(rows: seq<Row>, now: int) returns (emitted: seq<ChecksumEvent>)
      requires Valid() && now >= clock
      requires forall r :: r in rows ==> r.at == now
      modifies this
      ensures Valid() && clock == now
      ensures history == old(history) + rows
      ensures Emitted(history) == Emitted(old(history)) + emitted
      ensures forall e :: e in events <==> e in Emitted(history) && e.detectedAt > now - 259_200_000_000_000
    {
      hide Emitted, Readings, Filter;
      emitted := Parse(rows);
      var all := events + emitted;
      var slice := new ChecksumEvent[|all|](i requires 0 <= i < |all| => all[i]);
      assert slice[..|all|] == all;
      var kept := FilterInPlace(slice, |all|, Young(now - MAX_AGE));
      events := slice[..kept];
      PruneAgain(Emitted(old(history)), emitted, clock - MAX_AGE, now - MAX_AGE);
      clock := now;
      FilterMembers(Emitted(history), Young(now - MAX_AGE));
    }

    method Tallies(now: int) returns (byVdev: map<string, Counts>)
      ensures forall key :: Lookup(byVdev, key) == Tally(events, key, now)
    {
      byVdev := map[];
      for i := 0 to |events|
        invariant forall key :: Lookup(byVdev, key) == Tally(events[..i], key, now)
      {
        assert events[..i + 1][..i] == events[..i];
        var e := events[i];
        byVdev := byVdev[EventKey(e) := Count(Lookup(byVdev, EventKey(e)), e, now)];
      }
      assert events[..|events|] == events;
    }

    /** Exactly the hot vdevs, each once, most errors first. */
    method DetectHotspots(now: int) returns (out: seq<Hotspot>, ghost keys: seq<string>)
      ensures (forall key :: key in keys <==> IsHot(events, key, now))
              && (forall i, j :: 0 <= i < j < |keys| ==> keys[i] != keys[j])
      ensures multiset(out) == multiset(Reports(events, keys, now))
      ensures Sorted(out, MoreErrors)
      ensures forall i, j :: 0 <= i < j < |out| ==> out[i].errorsIn24h >= out[j].errorsIn24h
    {
      hide Tally, Sorted;
      var byVdev := Tallies(now);
      var left := byVdev.Keys;
      var found: seq<Hotspot> := [];
      keys := [];
      while left != {}
        invariant left <= byVdev.Keys
        invariant forall key :: key in keys ==> IsHot(events, key, now) && key !in left
        invariant forall key :: key in byVdev && key !in left && byVdev[key].in24h >= 2 ==> key in keys
        invariant forall i, j :: 0 <= i < j < |keys| ==> keys[i] != keys[j]
        invariant found == Reports(events, keys, now)
      {
        var key :| key in left;
        left := left - {key};
        assert Lookup(byVdev, key) == Tally(events, key, now);
        var c := byVdev[key];
        if c.in24h >= 2 {
          found, keys := found + [Report(key, c)], keys + [key];
        }
      }
      forall key | IsHot(events, key, now) ensures key in keys {
        assert Lookup(byVdev, key) == Tally(events, key, now);
      }
      var slice := new Hotspot[|found|](i requires 0 <= i < |found| => found[i]);
      assert slice[..] == found;
      SortSlice(slice, MoreErrors);
      out := slice[..];
      MostFirst(out);
    }

    /** The log grouped by vdev, each group in order. */
    method Buckets() returns (byVdev: map<string, seq<ChecksumEvent>>)
      ensures forall key :: Bucket(byVdev, key) == Filter(events, OfVdev(key))
      ensures forall key :: key in byVdev ==> byVdev[key] != []
    {
      byVdev := map[];
      for i := 0 to |events|
        invariant IsGrouped(byVdev, events[..i])
      {
        hide IsGrouped;
        var e := events[i];
        NextGrouped(byVdev, events, i);
        byVdev := byVdev[EventKey(e) := Bucket(byVdev, EventKey(e)) + [e]];
      }
      assert events[..|events|] == events;
    }

    /** One assessment per vdev in the log, riskiest first. */
    method PredictFailures(now: int) returns (out: seq<VdevRisk>, ghost keys: seq<string>)
      ensures (forall key :: key in keys <==> Filter(events, OfVdev(key)) != [])
              && (forall i, j :: 0 <= i < j < |keys| ==> keys[i] != keys[j])
      ensures multiset(out) == multiset(Risks(events, keys, now))
      ensures Sorted(out, Riskier)
      ensures forall i, j :: 0 <= i < j < |out| ==> out[i].riskScore >= out[j].riskScore
    {
      hide Filter, Sorted, RiskOf, OfVdev;
      var byVdev := Buckets();
      var left := byVdev.Keys;
      var found: seq<VdevRisk> := [];
      keys := [];
      while left != {}
        invariant left <= byVdev.Keys
        invariant forall key :: key in keys <==> key in byVdev && key !in left
        invariant forall key :: key in keys ==> Filter(events, OfVdev(key)) != []
        invariant forall i, j :: 0 <= i < j < |keys| ==> keys[i] != keys[j]
        invariant found == Risks(events, keys, now)
      {
        var key :| key in left;
        left := left - {key};
        assert byVdev[key] == Filter(events, OfVdev(key));
        var risk := AssessVdev(events, key, byVdev[key], now);
        found, keys := found + [risk], keys + [key];
      }
      var slice := new VdevRisk[|found|](i requires 0 <= i < |found| => found[i]);
      assert slice[..] == found;
      SortSlice(slice, Riskier);
      out := slice[..];
      RiskiestFirst(out);
    }
  }

  // ---- failure prediction ----

  datatype Trend = Stable | Increasing | Accelerating
  datatype Advice = Healthy | Monitor | ScheduleReplacement | ReplaceNow

  datatype VdevRisk = VdevRisk(
    pool: string, vdevPath: string, currentErrors: int, rate7d: real, rate24h: real, trend: Trend,
    riskScore: int, failHours: Option<int>, advice: Advice)

  predicate Riskier(a: VdevRisk, b: VdevRisk) { a.riskScore >= b.riskScore }

  function OfVdev(key: string): ChecksumEvent -> bool { (e: ChecksumEvent) => EventKey(e) == key }

  function Score(total7d: int, total24h: int): int {
    if total7d > 0 then Trunc(Min(100.0, total7d as real * 5.0 + total24h as real * 10.0)) else 0
  }

  function Assess(pool: string, vdevPath: string, total7d: int, total24h: int): VdevRisk {
    var rate7d, rate24h, score := total7d as real / 7.0, total24h as real, Score(total7d, total24h);
    VdevRisk(pool, vdevPath, total7d, rate7d, rate24h,
             if rate24h > rate7d * 1.5 then Accelerating else if rate24h > rate7d then Increasing else Stable,
             score,
             if score >= 80 then Some(24) else if score >= 50 then Some(168 - score) else None,
             if score >= 80 then ReplaceNow else if score >= 50 then ScheduleReplacement
             else if score >= 20 then Monitor else Healthy)
  }

  function RiskOf(log: seq<ChecksumEvent>, key: string, now: int): VdevRisk
    requires Filter(log, OfVdev(key)) != []
  {
    var bucket := Filter(log, OfVdev(key));
    Assess(bucket[0].pool, AfterSlash(key), Within(bucket, key, now, 7 * DAY), Within(bucket, key, now, DAY))
  }

  ghost function Risks(log: seq<ChecksumEvent>, keys: seq<string>, now: int): seq<VdevRisk>
    requires forall key :: key in keys ==> Filter(log, OfVdev(key)) != []
  {
    seq(|keys|, i requires 0 <= i < |keys| => RiskOf(log, keys[i], now))
  }

  method Total(bucket: seq<ChecksumEvent>, key: string, now: int, age: int) returns (total: int)
    requires forall e :: e in bucket ==> EventKey(e) == key
    ensures total == Within(bucket, key, now, age)
  {
    total := 0;
    for i := 0 to |bucket|
      invariant total == Within(bucket[..i], key, now, age)
    {
      NextWithin(bucket[..i], bucket[i], key, now, age);
      assert bucket[..i + 1] == bucket[..i] + [bucket[i]];
      if now - bucket[i].detectedAt <= age {
        total := total + bucket[i].errorCount;
      }
    }
    assert bucket[..|bucket|] == bucket;
  }

  method AssessVdev(ghost log: seq<ChecksumEvent>, key: string, bucket: seq<ChecksumEvent>, now: int)
    returns (r: VdevRisk)
    requires bucket == Filter(log, OfVdev(key)) && bucket != []
    ensures r == RiskOf(log, key, now)
  {
    hide Filter, Within, Assess;
    FilterMembers(log, OfVdev(key));
    var total7d := Total(bucket, key, now, 7 * DAY);
    var total24h := Total(bucket, key, now, DAY);
    r := Assess(bucket[0].pool, AfterSlash(key), total7d, total24h);
  }

  /** A vdev's bucket holds all its errors: the totals are those of the whole log. */
  lemma {:induction false} BucketTotals(log: seq<ChecksumEvent>, key: string, now: int, age: int)
    ensures Within(Filter(log, OfVdev(key)), key, now, age) == Within(log, key, now, age)
  {
    hide *;
    if log == [] {
      NoBucketTotal(key, now, age);
    } else {
      BucketTotals(log[..|log| - 1], key, now, age);
      NextBucketTotal(log[..|log| - 1], log[|log| - 1], key, now, age);
      assert log == log[..|log| - 1] + [log[|log| - 1]];
    }
  }

  lemma NoBucketTotal(key: string, now: int, age: int)
    ensures Within(Filter([], OfVdev(key)), key, now, age) == Within([], key, now, age)
  {
  }

  lemma NextBucketTotal(log: seq<ChecksumEvent>, e: ChecksumEvent, key: string, now: int, age: int)
    requires Within(Filter(log, OfVdev(key)), key, now, age) == Within(log, key, now, age)
    ensures Within(Filter(log + [e], OfVdev(key)), key, now, age) == Within(log + [e], key, now, age)
  {
    hide Filter, Within, Key;
    FilterNext(log, e, OfVdev(key));
    NextWithin(log, e, key, now, age);
    NextWithin(Filter(log, OfVdev(key)), e, key, now, age);
  }

  /** The score is a percentage; more errors, recent or not, never lower it, never soften the
      advice and never postpone the predicted failure. */
  lemma RiskMonotone(total7d: int, total24h: int, total7d': int, total24h': int)
    requires 0 <= total24h <= total7d && 0 <= total24h' <= total7d' && total7d <= total7d' && total24h <= total24h'
    ensures var a, b := Assess("", "", total7d, total24h), Assess("", "", total7d', total24h');
            && 0 <= a.riskScore <= b.riskScore <= 100
            && (a.advice == ReplaceNow ==> b.advice == ReplaceNow)
            && (b.advice == Healthy ==> a.advice == Healthy)
            && (a.failHours.Some? ==> b.failHours.Some? && 24 <= b.failHours.value <= a.failHours.value)
  {
    ScoreMonotone(total7d, total24h, total7d', total24h');
    hide Score;
  }

  lemma ScoreMonotone(total7d: int, total24h: int, total7d': int, total24h': int)
    requires 0 <= total24h && total7d <= total7d' && total24h <= total24h'
    ensures 0 <= Score(total7d, total24h) <= Score(total7d', total24h') <= 100
  {
    var x, y := total7d as real * 5.0 + total24h as real * 10.0, total7d' as real * 5.0 + total24h' as real * 10.0;
    TruncMonotone(Min(100.0, x), Min(100.0, y));
    TruncMonotone(Min(100.0, y), 100.0);
    if total7d > 0 {
      TruncMonotone(0.0, Min(100.0, x));
    } else if total7d' > 0 {
      TruncMonotone(0.0, Min(100.0, y));
    }
  }

  // ---- what pruning does not change ----

  lemma {:induction false} TallyCounts(log: seq<ChecksumEvent>, key: string, now: int)
    ensures var t := Tally(log, key, now);
            && (t.Some? <==> exists e :: e in log && EventKey(e) == key)
            && (t.Some? ==> t.value.in1h == Within(log, key, now, HOUR)
                            && t.value.in24h == Within(log, key, now, 24 * HOUR))
            && (t.None? ==> Within(log, key, now, HOUR) == 0 && Within(log, key, now, 24 * HOUR) == 0)
  {
    if log != [] {
      var init, e := log[..|log| - 1], log[|log| - 1];
      TallyCounts(init, key, now);
      assert log == init + [e];
      assert forall x :: x in log <==> x in init || x == e;
    }
  }

  lemma NextWithin(log: seq<ChecksumEvent>, e: ChecksumEvent, key: string, now: int, age: int)
    ensures Within(log + [e], key, now, age)
            == Within(log, key, now, age) + if EventKey(e) == key && now - e.detectedAt <= age then e.errorCount else 0
  {
    assert (log + [e])[..|log|] == log;
  }

  /** The counts of a shorter age agree on the pruned and the full log. */
  lemma {:induction false} WithinPruned(log: seq<ChecksumEvent>, key: string, now: int, age: int, cutoff: int)
    requires cutoff < now - age
    ensures Within(Filter(log, Young(cutoff)), key, now, age) == Within(log, key, now, age)
  {
    if log != [] {
      WithinPruned(log[..|log| - 1], key, now, age, cutoff);
      NextPruned(log[..|log| - 1], log[|log| - 1], key, now, age, cutoff);
      hide Filter, Within, Young;
      assert log == log[..|log| - 1] + [log[|log| - 1]];
    }
  }

  lemma NextPruned(log: seq<ChecksumEvent>, e: ChecksumEvent, key: string, now: int, age: int, cutoff: int)
    requires cutoff < now - age && Within(Filter(log, Young(cutoff)), key, now, age) == Within(log, key, now, age)
    ensures Within(Filter(log + [e], Young(cutoff)), key, now, age) == Within(log + [e], key, now, age)
  {
    hide Filter, Within, Key;
    FilterNext(log, e, Young(cutoff));
    NextWithin(log, e, key, now, age);
    NextWithin(Filter(log, Young(cutoff)), e, key, now, age);
  }

  /** Fewer errors are younger. */
  lemma {:induction false} WithinMonotone(log: seq<ChecksumEvent>, key: string, now: int, age: int, age': int)
    requires age <= age' && forall e :: e in log ==> e.errorCount > 0
    ensures 0 <= Within(log, key, now, age) <= Within(log, key, now, age')
  {
    if log != [] {
      assert log[|log| - 1] in log && forall e :: e in log[..|log| - 1] ==> e in log;
      WithinMonotone(log[..|log| - 1], key, now, age, age');
    }
  }

  /** The newest and the oldest event of the vdev, and the pool of one of its events. */
  lemma {:induction false} TallyWitness(log: seq<ChecksumEvent>, key: string, now: int)
    requires Tally(log, key, now).Some?
    ensures var c := Tally(log, key, now).value;
            && (exists e :: e in log && EventKey(e) == key && e.detectedAt == c.last)
            && (exists e :: e in log && EventKey(e) == key && e.pool == c.pool)
            && (exists e :: e in log && EventKey(e) == key && e.detectedAt == c.first)
            && (forall e :: e in log && EventKey(e) == key ==> c.first <= e.detectedAt <= c.last)
  {
    var init, e := log[..|log| - 1], log[|log| - 1];
    assert log == init + [e];
    assert forall x :: x in log <==> x in init || x == e;
    if Tally(init, key, now).Some? {
      TallyWitness(init, key, now);
    } else {
      TallyCounts(init, key, now);
    }
  }

  lemma {:induction false} WithinWitness(log: seq<ChecksumEvent>, key: string, now: int, age: int)
    requires Within(log, key, now, age) > 0
    ensures exists e :: e in log && EventKey(e) == key && now - e.detectedAt <= age
  {
    var init, e := log[..|log| - 1], log[|log| - 1];
    assert forall x :: x in init ==> x in log;
    if !(EventKey(e) == key && now - e.detectedAt <= age) {
      WithinWitness(init, key, now, age);
    }
  }

  /** A vdev key names one pool, as pool names have no slash. */
  lemma PoolOfKey(p: string, v: string, p': string, v': string)
    requires Key(p, v) == Key(p', v') && '/' !in p && '/' !in p'
    ensures p == p'
  {
    SplitAtFirst(p, v, p', v', '/');
  }

  // ---- what a report and a prediction say ----

  function NoOlder(now: int, age: int): ChecksumEvent -> bool { (e: ChecksumEvent) => now - e.detectedAt <= age }

  lemma {:induction false} WithinIsErrors(log: seq<ChecksumEvent>, key: string, now: int, age: int)
    ensures Within(log, key, now, age) == ErrorsOf(Filter(log, NoOlder(now, age)), key)
  {
    hide *;
    if log == [] {
      NothingRecent(key, now, age);
    } else {
      var init, e := log[..|log| - 1], log[|log| - 1];
      assert log == init + [e];
      WithinIsErrors(init, key, now, age);
      NextWithin(init, e, key, now, age);
      NextRecent(init, e, key, now, age);
    }
  }

  lemma NothingRecent(key: string, now: int, age: int)
    ensures Within([], key, now, age) == ErrorsOf(Filter([], NoOlder(now, age)), key)
  {
  }

  lemma NextRecent(log: seq<ChecksumEvent>, e: ChecksumEvent, key: string, now: int, age: int)
    ensures ErrorsOf(Filter(log + [e], NoOlder(now, age)), key)
            == ErrorsOf(Filter(log, NoOlder(now, age)), key)
               + if EventKey(e) == key && now - e.detectedAt <= age then e.errorCount else 0
  {
    FilterNext(log, e, NoOlder(now, age));
    NextError(Filter(log, NoOlder(now, age)), e, key);
    hide Filter, ErrorsOf, Key;
  }

  /** The errors of a vdev at most so old, in nanoseconds. */
  ghost function Recently(log: seq<ChecksumEvent>, key: string, now: int, age: int): int {
    ErrorsOf(Filter(log, NoOlder(now, age)), key)
  }

  /** A vdev is reported from two errors in a day on. */
  lemma HotIff(log: seq<ChecksumEvent>, key: string, now: int)
    ensures IsHot(log, key, now) <==> Recently(log, key, now, 86_400_000_000_000) >= 2
  {
    TallyCounts(log, key, now);
    WithinIsErrors(log, key, now, 24 * HOUR);
    hide Tally, Within, ErrorsOf, Filter;
  }

  /** A report gives the errors of the last hour and day, says critical from three in an hour or
      ten in a day on, and gives the times of the oldest and the newest event of the vdev. */
  lemma ReportMeans(log: seq<ChecksumEvent>, key: string, now: int)
    requires IsHot(log, key, now)
    ensures var r := ReportOf(log, key, now);
            && r.errorsIn1h == Recently(log, key, now, 3_600_000_000_000)
            && r.errorsIn24h == Recently(log, key, now, 86_400_000_000_000)
            && (r.critical <==> r.errorsIn1h >= 3 || r.errorsIn24h >= 10)
            && (exists e :: e in log && EventKey(e) == key && e.detectedAt == r.firstSeen)
            && (exists e :: e in log && EventKey(e) == key && e.detectedAt == r.lastSeen)
            && (forall e :: e in log && EventKey(e) == key ==> r.firstSeen <= e.detectedAt <= r.lastSeen)
  {
    TallyCounts(log, key, now);
    TallyWitness(log, key, now);
    WithinIsErrors(log, key, now, HOUR);
    WithinIsErrors(log, key, now, 24 * HOUR);
    hide Tally, Within, ErrorsOf, Filter, Key, AfterSlash;
  }

  /** A prediction gives the week's errors and the rates per day that follow, calls the trend
      accelerating if the day's are more than one and a half times the week's rate, increasing
      if they are more than it; the score is five points for an error of the week and ten more
      for one of the day, at most a hundred, and decides the advice and the hours left. */
  lemma PredictionMeans(log: seq<ChecksumEvent>, key: string, now: int)
    requires Filter(log, OfVdev(key)) != []
    ensures var r := RiskOf(log, key, now);
            var week, day := Recently(log, key, now, 604_800_000_000_000), Recently(log, key, now, 86_400_000_000_000);
            && r.currentErrors == week && 7.0 * r.rate7d == week as real && r.rate24h == day as real
            && (r.trend == Accelerating <==> 14 * day > 3 * week)
            && (r.trend == Increasing <==> 7 * day > week && 14 * day <= 3 * week)
            && r.riskScore == (if week <= 0 then 0 else if 5 * week + 10 * day > 100 then 100 else 5 * week + 10 * day)
            && (r.advice == ReplaceNow <==> r.riskScore >= 80)
            && (r.advice == ScheduleReplacement <==> 50 <= r.riskScore < 80)
            && (r.advice == Monitor <==> 20 <= r.riskScore < 50)
            && r.failHours == (if r.riskScore >= 80 then Some(24)
                               else if r.riskScore >= 50 then Some(168 - r.riskScore) else None)
  {
    BucketTotals(log, key, now, 7 * DAY);
    BucketTotals(log, key, now, DAY);
    WithinIsErrors(log, key, now, 7 * DAY);
    WithinIsErrors(log, key, now, DAY);
    var week, day := Within(log, key, now, 7 * DAY), Within(log, key, now, DAY);
    ScoreIs(week, day);
    TrendIs(week, day);
    hide Within, ErrorsOf, Filter, Key, AfterSlash, Score;
  }

  /** And names the pool and the vdev, as pool names have no slash. */
  lemma PredictionNamesVdev(log: seq<ChecksumEvent>, key: string, now: int, e: ChecksumEvent)
    requires e in log && EventKey(e) == key && Filter(log, OfVdev(key)) != []
    requires forall x :: x in log ==> '/' !in x.pool
    ensures RiskOf(log, key, now).vdevPath == e.vdevPath && RiskOf(log, key, now).pool == e.pool
  {
    FilterMembers(log, OfVdev(key));
    var f := Filter(log, OfVdev(key))[0];
    assert f in Filter(log, OfVdev(key));
    PoolOfKey(e.pool, e.vdevPath, f.pool, f.vdevPath);
    AfterSlashOfKey(e.pool, e.vdevPath);
    hide Filter, Within, AfterSlash;
  }

  lemma ScoreIs(week: int, day: int)
    ensures Score(week, day)
            == if week <= 0 then 0 else if 5 * week + 10 * day > 100 then 100 else 5 * week + 10 * day
  {
    var points := 5 * week + 10 * day;
    assert week as real * 5.0 + day as real * 10.0 == points as real;
    TruncWhole(points);
  }

  lemma TruncWhole(n: int)
    ensures Trunc(n as real) == n
  {
  }

  lemma TrendIs(week: int, day: int)
    ensures day as real > week as real / 7.0 * 1.5 <==> 14 * day > 3 * week
    ensures day as real > week as real / 7.0 <==> 7 * day > week
    ensures 7.0 * (week as real / 7.0) == week as real
  {
    assert (14 * day) as real == 14.0 * day as real && (3 * week) as real == 3.0 * week as real;
  }

  /** No event of the vdev was old enough to be pruned. */
  ghost predicate NothingPruned(full: seq<ChecksumEvent>, key: string, cutoff: int) {
    forall e :: e in full && EventKey(e) == key ==> e.detectedAt > cutoff
  }

  /** The first sighting is the one thing that pruning can change, and does exactly if an event
      of the vdev was pruned. */
  lemma FirstSeenIff(full: seq<ChecksumEvent>, cutoff: int, key: string, now: int)
    requires Tally(Filter(full, Young(cutoff)), key, now).Some?
    ensures var a, b := Tally(Filter(full, Young(cutoff)), key, now), Tally(full, key, now);
            b.Some? && (a.value.first == b.value.first <==> NothingPruned(full, key, cutoff))
  {
    var kept := Filter(full, Young(cutoff));
    FilterMembers(full, Young(cutoff));
    TallyCounts(kept, key, now);
    TallyWitness(kept, key, now);
    TallyCounts(full, key, now);
    TallyWitness(full, key, now);
    hide Tally, Filter, Key;
  }

  /** A report names the pool and the vdev whose events it counts, as pool names have no slash. */
  lemma ReportNamesVdev(log: seq<ChecksumEvent>, key: string, now: int, e: ChecksumEvent)
    requires IsHot(log, key, now) && e in log && EventKey(e) == key
    requires forall x :: x in log ==> '/' !in x.pool
    ensures ReportOf(log, key, now).vdevPath == e.vdevPath && ReportOf(log, key, now).pool == e.pool
  {
    TallyWitness(log, key, now);
    var f :| f in log && EventKey(f) == key && f.pool == Tally(log, key, now).value.pool;
    PoolOfKey(e.pool, e.vdevPath, f.pool, f.vdevPath);
    AfterSlashOfKey(e.pool, e.vdevPath);
  }

  /** Whenever the report is asked for after the log was last pruned, it shows the same vdevs
      with the same counts, severity and last sighting as the log of everything ever emitted
      would; and never more errors in an hour than in a day. The first sighting agrees exactly
      if no event of the vdev was pruned. */
  lemma PrunedLogReportsAlike(h: seq<Row>, clock: int, now: int, key: string)
    requires clock <= now
    ensures var full := Emitted(h);
            var kept := Filter(full, Young(clock - MAX_AGE));
            && (IsHot(kept, key, now) <==> IsHot(full, key, now))
            && (IsHot(full, key, now) ==>
                  var a, b := ReportOf(kept, key, now), ReportOf(full, key, now);
                  && a.vdevPath == b.vdevPath && a.critical == b.critical && a.lastSeen == b.lastSeen
                  && a.errorsIn24h == b.errorsIn24h && a.errorsIn1h == b.errorsIn1h <= b.errorsIn24h
                  && (a.firstSeen == b.firstSeen <==> NothingPruned(full, key, clock - MAX_AGE))
                  && ((forall r :: r in h ==> '/' !in r.pool) ==> a.pool == b.pool))
  {
    var full, cutoff := Emitted(h), clock - MAX_AGE;
    var kept := Filter(full, Young(cutoff));
    TallyCounts(full, key, now);
    TallyCounts(kept, key, now);
    WithinPruned(full, key, now, HOUR, cutoff);
    WithinPruned(full, key, now, 24 * HOUR, cutoff);
    if IsHot(full, key, now) {
      forall e | e in full ensures e.errorCount > 0 && exists r :: r in h && r.pool == e.pool {
        EmittedPositive(h, e);
      }
      WithinMonotone(full, key, now, HOUR, 24 * HOUR);
      SameLastAndPool(full, cutoff, key, now);
      FirstSeenIff(full, cutoff, key, now);
    }
  }

  lemma SameLastAndPool(full: seq<ChecksumEvent>, cutoff: int, key: string, now: int)
    requires cutoff < now - 24 * HOUR && Within(full, key, now, 24 * HOUR) > 0
    ensures var kept := Filter(full, Young(cutoff));
            var a, b := Tally(kept, key, now), Tally(full, key, now);
            && a.Some? && b.Some? && a.value.last == b.value.last
            && ((forall e :: e in full ==> '/' !in e.pool) ==> a.value.pool == b.value.pool)
  {
    var kept := Filter(full, Young(cutoff));
    FilterMembers(full, Young(cutoff));
    WithinWitness(full, key, now, 24 * HOUR);
    TallyCounts(full, key, now);
    TallyWitness(full, key, now);
    TallyCounts(kept, key, now);
    TallyWitness(kept, key, now);
    var a, b := Tally(kept, key, now).value, Tally(full, key, now).value;
    var e :| e in kept && EventKey(e) == key && e.pool == a.pool;
    var f :| f in full && EventKey(f) == key && f.pool == b.pool;
    if forall x :: x in full ==> '/' !in x.pool {
      PoolOfKey(e.pool, e.vdevPath, f.pool, f.vdevPath);
    }
  }

  lemma NextTally(log: seq<ChecksumEvent>, e: ChecksumEvent, now: int)
    ensures Tally(log + [e], EventKey(e), now) == Some(Count(Tally(log, EventKey(e), now), e, now))
  {
    assert (log + [e])[..|log|] == log;
  }

  /** Two readings of one vdev, the second when the first is older than the log reaches. */
  function TwoReadings(later: int): seq<Row> { [Row("p", "v", 2, 0)] + [Row("p", "v", 5, later)] }

  lemma TwoReadingsEmit(later: int)
    requires later > MAX_AGE
    ensures Emitted(TwoReadings(later)) == [ChecksumEvent("p", "v", 2, 0), ChecksumEvent("p", "v", 3, later)]
    ensures Filter(Emitted(TwoReadings(later)), Young(later - MAX_AGE)) == [ChecksumEvent("p", "v", 3, later)]
  {
    hide Emitted, Filter, Young;
    SecondRow(Row("p", "v", 2, 0), Row("p", "v", 5, later));
    OneYoung(ChecksumEvent("p", "v", 2, 0), ChecksumEvent("p", "v", 3, later), later - MAX_AGE);
  }

  lemma FirstRow(r: Row)
    requires r.cksum > 0
    ensures Emitted([r]) == [ChecksumEvent(r.pool, r.vdevPath, r.cksum, r.at)] && Readings([r], RowKey(r)) == [r.cksum]
  {
    assert [] + [r] == [r];
    NextRow([], r);
  }

  lemma SecondRow(r: Row, r': Row)
    requires r.pool == r'.pool && r.vdevPath == r'.vdevPath && 0 < r.cksum < r'.cksum
    ensures Emitted([r] + [r']) == [ChecksumEvent(r.pool, r.vdevPath, r.cksum, r.at),
                                    ChecksumEvent(r.pool, r.vdevPath, r'.cksum - r.cksum, r'.at)]
  {
    hide Emitted, Readings, Key;
    FirstRow(r);
    NextRow([r], r');
    assert LastReading([r.cksum]) == r.cksum;
  }

  lemma OneYoung(e: ChecksumEvent, e': ChecksumEvent, cutoff: int)
    requires e.detectedAt <= cutoff < e'.detectedAt
    ensures Filter([e, e'], Young(cutoff)) == [e']
  {
    FilterNext([], e, Young(cutoff));
    FilterNext([e], e', Young(cutoff));
    assert [] + [e] == [e] && [e] + [e'] == [e, e'];
    assert Filter([], Young(cutoff)) == [];
    hide Filter;
  }

  /** Such a vdev's first sighting: the log of all says 0, the pruned log the second reading. */
  lemma FirstSeenCanDiffer(now: int)
    requires now > MAX_AGE
    ensures var key, full := Key("p", "v"), Emitted(TwoReadings(now));
            var kept := Filter(full, Young(now - MAX_AGE));
            && IsHot(full, key, now) && IsHot(kept, key, now)
            && ReportOf(full, key, now).firstSeen == 0 && ReportOf(kept, key, now).firstSeen == now
  {
    TwoReadingsEmit(now);
    var e, e' := ChecksumEvent("p", "v", 2, 0), ChecksumEvent("p", "v", 3, now);
    NextTally([], e, now);
    NextTally([e], e', now);
    NextTally([], e', now);
    assert [] + [e] == [e] && [e] + [e'] == [e, e'] && [] + [e'] == [e'];
    hide Filter, Emitted, Key;
  }

  /** PredictFailures asks the same log for the last seven days, but the log holds three: its
      weekly total misses errors exactly if the vdev had some that old. */
  lemma {:induction false} WeeklyTotalComplete(log: seq<ChecksumEvent>, key: string, now: int, cutoff: int)
    requires forall e :: e in log ==> e.errorCount > 0
    ensures var week := 7 * DAY;
            var kept := Filter(log, Young(cutoff));
            && Within(kept, key, now, week) <= Within(log, key, now, week)
            && (Within(kept, key, now, week) == Within(log, key, now, week)
                <==> forall e :: e in log && EventKey(e) == key && now - e.detectedAt <= week ==> e.detectedAt > cutoff)
  {
    if log != [] {
      var init, e := log[..|log| - 1], log[|log| - 1];
      assert log == init + [e];
      assert forall x :: x in log <==> x in init || x == e;
      WeeklyTotalComplete(init, key, now, cutoff);
      FilterNext(init, e, Young(cutoff));
      NextWithin(init, e, key, now, 7 * DAY);
      NextWithin(Filter(init, Young(cutoff)), e, key, now, 7 * DAY);
      hide Filter, Within;
    }
  }

  /** So for a tracker's log PredictFailures names exactly the vdevs with an event in the log;
      it never overstates their weekly total or score, and the total is right exactly if
      nothing of the vdev's last seven days was pruned. */
  lemma PredictionCompleteIff(h: seq<Row>, clock: int, now: int, key: string)
    requires clock <= now
    ensures var full := Emitted(h);
            var kept := Filter(full, Young(clock - MAX_AGE));
            && (Filter(kept, OfVdev(key)) != []
                <==> exists e :: e in full && EventKey(e) == key && e.detectedAt > clock - MAX_AGE)
            && (Filter(kept, OfVdev(key)) != [] ==>
                  && Filter(full, OfVdev(key)) != []
                  && var a, b := RiskOf(kept, key, now), RiskOf(full, key, now);
                  && a.currentErrors <= b.currentErrors && a.riskScore <= b.riskScore && a.rate24h == b.rate24h
                  && (a.currentErrors == b.currentErrors
                      <==> forall e :: e in full && EventKey(e) == key && now - e.detectedAt <= 7 * DAY ==>
                                         e.detectedAt > clock - MAX_AGE))
  {
    hide Filter, Within, Emitted, Score, Key;
    var full, cutoff := Emitted(h), clock - MAX_AGE;
    var kept := Filter(full, Young(cutoff));
    FilterMembers(full, Young(cutoff));
    FilterMembers(kept, OfVdev(key));
    FilterMembers(full, OfVdev(key));
    assert Filter(kept, OfVdev(key)) != [] <==> exists e :: e in Filter(kept, OfVdev(key)) by {
      NonEmpty(Filter(kept, OfVdev(key)));
    }
    if Filter(kept, OfVdev(key)) != [] {
      forall e | e in full ensures e.errorCount > 0 {
        EmittedPositive(h, e);
      }
      WeeklyTotalComplete(full, key, now, cutoff);
      WithinPruned(full, key, now, DAY, cutoff);
      BucketTotals(kept, key, now, 7 * DAY);
      BucketTotals(kept, key, now, DAY);
      BucketTotals(full, key, now, 7 * DAY);
      BucketTotals(full, key, now, DAY);
      WithinMonotone(full, key, now, DAY, DAY);
      ScoreMonotone(Within(kept, key, now, 7 * DAY), Within(kept, key, now, DAY),
                    Within(full, key, now, 7 * DAY), Within(full, key, now, DAY));
    }
  }

  lemma NonEmpty<T>(s: seq<T>)
    ensures s != [] <==> exists x :: x in s
  {
    if s != [] {
      assert s[0] in s;
    }
  }

  /** Two errors, and three more a hundred hours later: of five in the week the tracker counts
      three, and only watches a drive that it should have scheduled for replacement. */
  lemma PredictionCanMissErrors()
    ensures var key, now := Key("p", "v"), 100 * HOUR;
            var full := Emitted(TwoReadings(now));
            var kept := Filter(full, Young(now - MAX_AGE));
            && Filter(full, OfVdev(key)) != [] && Filter(kept, OfVdev(key)) != []
            && var a, b := RiskOf(kept, key, now), RiskOf(full, key, now);
            && a.currentErrors == 3 && a.advice == Monitor
            && b.currentErrors == 5 && b.advice == ScheduleReplacement
  {
    var now := 100 * HOUR;
    var e, e' := ChecksumEvent("p", "v", 2, 0), ChecksumEvent("p", "v", 3, now);
    TwoReadingsEmit(now);
    OneBucket(e, e');
    ErrorsOfTwo(e, e', now);
    assert Score(3, 3) == 45 && Score(5, 3) == 55;
    hide Filter, Within, Emitted, Score, Key;
  }

  lemma OneBucket(e: ChecksumEvent, e': ChecksumEvent)
    requires EventKey(e) == EventKey(e')
    ensures Filter([e, e'], OfVdev(EventKey(e))) == [e, e'] && Filter([e'], OfVdev(EventKey(e))) == [e']
  {
    hide Key;
    FilterAll([e, e'], OfVdev(EventKey(e)));
    FilterAll([e'], OfVdev(EventKey(e)));
    hide Filter;
  }

  lemma ErrorsOfTwo(e: ChecksumEvent, e': ChecksumEvent, now: int)
    requires EventKey(e) == EventKey(e') && e'.detectedAt == now && DAY < now - e.detectedAt <= 7 * DAY
    ensures forall age | age == DAY || age == 7 * DAY ::
              Within([e'], EventKey(e), now, age) == e'.errorCount
    ensures Within([e, e'], EventKey(e), now, DAY) == e'.errorCount
    ensures Within([e, e'], EventKey(e), now, 7 * DAY) == e.errorCount + e'.errorCount
  {
    forall age | age == DAY || age == 7 * DAY
      ensures Within([e'], EventKey(e), now, age) == e'.errorCount
      ensures Within([e, e'], EventKey(e), now, age) == e'.errorCount + if age == DAY then 0 else e.errorCount
    {
      NextWithin([], e, EventKey(e), now, age);
      NextWithin([e], e', EventKey(e), now, age);
      NextWithin([], e', EventKey(e), now, age);
      assert Within([], EventKey(e), now, age) == 0;
      hide Within, Key;
      assert [] + [e] == [e] && [e] + [e'] == [e, e'] && [] + [e'] == [e'];
    }
  }
}
