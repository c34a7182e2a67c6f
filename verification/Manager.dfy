/** The registry of detectors: one per pool, created on first use. */
module Manager {
  import opened Prelude
  import D = Detector

  const WINDOW := 40

  class Manager {
    const sqrt: real -> real
    var detectors: map<string, D.Detector>

    ghost predicate Valid()
      reads this, detectors.Values
    {
      && IsSqrt(sqrt)
      && forall p :: p in detectors ==>
           && detectors[p].Valid()
           && detectors[p].settings == D.Settings(p, WINDOW, 2.0, sqrt)
    }

    constructor (sqrt: real -> real)
      requires IsSqrt(sqrt)
      ensures Valid() && detectors == map[]
    {
      this.sqrt := sqrt;
      detectors := map[];
    }

    /** What has been fed to a pool so far. */
    ghost function HistoryOf(pool: string): seq<D.ARCPoint>
      reads this, detectors.Values
    {
      if pool in detectors then detectors[pool].history else []
    }

    method EnsurePool(pool: string)
      requires Valid()
      modifies this
      ensures Valid()
      ensures detectors.Keys == old(detectors.Keys) + {pool}
      ensures forall p :: p in old(detectors) ==> detectors[p] == old(detectors[p])
      ensures pool !in old(detectors) ==> fresh(detectors[pool]) && detectors[pool].history == []
    {
      if pool !in detectors {
        var d := new D.Detector(D.Settings(pool, WINDOW, 2.0, sqrt));
        detectors := detectors[pool := d];
      }
    }

    method Feed(pool: string, p: D.ARCPoint) returns (r: Option<D.AnomalyEvent>)
      requires Valid()
      modifies this, detectors.Values
      ensures Valid()
      ensures detectors.Keys == old(detectors.Keys) + {pool}
      ensures forall q :: q in old(detectors) ==> detectors[q] == old(detectors[q])
      ensures HistoryOf(pool) == old(HistoryOf(pool)) + [p]
      ensures forall q :: q != pool ==> HistoryOf(q) == old(HistoryOf(q))
      ensures r == D.Verdict(HistoryOf(pool), D.Settings(pool, 40, 2.0, sqrt))
    {
      hide D.Verdict, D.Fired, D.BaselineAfter, D.Detector.Valid;
      if pool !in detectors {
        EnsurePool(pool);
      }
      var d := detectors[pool];
      assert forall q :: q in detectors && q != pool ==> detectors[q] != d;
      r := d.Record(p);
    }

    /** Visits the pools in whatever order the map's iteration takes, then reverses in place. */
    method AllEvents()
      returns (out: array<D.AnomalyEvent>, ghost order: seq<string>, ghost logs: seq<seq<D.AnomalyEvent>>)
      requires Valid()
      ensures fresh(out)
      ensures (forall p :: p in order <==> p in detectors)
              && (forall i, j :: 0 <= i < j < |order| ==> order[i] != order[j])
      ensures |logs| == |order| && forall i :: 0 <= i < |order| ==> logs[i] == detectors[order[i]].recentEvents
      ensures out[..] == Reversed(Concat(logs))
      ensures (forall p :: p in detectors ==> D.Chronological(detectors[p].history)) ==>
                (NewestFirst(out[..]) <==> LogsInOrder(logs))
    {
      hide D.Verdict, D.Fired, D.BaselineAfter, Reversed, LogsInOrder, NewestFirst, D.OldestFirst;
      var all: seq<D.AnomalyEvent> := [];
      var left := detectors.Keys;
      order, logs := [], [];
      while left != {}
        invariant left <= detectors.Keys
        invariant forall p :: p in order <==> p in detectors && p !in left
        invariant forall i, j :: 0 <= i < j < |order| ==> order[i] != order[j]
        invariant |logs| == |order| && forall i :: 0 <= i < |order| ==> logs[i] == detectors[order[i]].recentEvents
        invariant all == Concat(logs)
      {
        var p :| p in left;
        left := left - {p};
        order, logs := order + [p], logs + [detectors[p].recentEvents];
        all := all + detectors[p].recentEvents;
        assert logs[..|logs| - 1] + [logs[|logs| - 1]] == logs;
      }
      out := new D.AnomalyEvent[|all|](i requires 0 <= i < |all| => all[i]);
      assert out[..] == all;
      ReverseInPlace(out);
      NewestFirstIff(logs);
      if forall p :: p in detectors ==> D.Chronological(detectors[p].history) {
        forall i | 0 <= i < |logs| ensures D.OldestFirst(logs[i]) {
          D.LogInTimeOrder(detectors[order[i]].history, detectors[order[i]].settings);
        }
      }
    }
  }

  function Concat<T>(s: seq<seq<T>>): seq<T> {
    if s == [] then [] else Concat(s[..|s| - 1]) + s[|s| - 1]
  }

  function Reversed<T>(s: seq<T>): seq<T> {
    seq(|s|, i requires 0 <= i < |s| => s[|s| - 1 - i])
  }

  method ReverseInPlace<T>(a: array<T>)
    modifies a
    ensures a[..] == Reversed(old(a[..]))
  {
    var i, j := 0, a.Length - 1;
    while i < j
      invariant i + j == a.Length - 1 && 0 <= i <= j + 1
      invariant forall k :: i <= k <= j ==> a[k] == old(a[k])
      invariant forall k :: 0 <= k < i ==> a[k] == old(a[a.Length - 1 - k]) && a[a.Length - 1 - k] == old(a[k])
    {
      a[i], a[j] := a[j], a[i];
      i, j := i + 1, j - 1;
    }
    forall k | 0 <= k < a.Length ensures a[k] == old(a[a.Length - 1 - k]) {
      if k > j {
        var m := a.Length - 1 - k;
        assert 0 <= m < i || m == k;
      }
    }
  }

  // ---- is it newest first? ----

  function EachReversed<T>(logs: seq<seq<T>>): (r: seq<seq<T>>)
    ensures |r| == |logs| && forall i :: 0 <= i < |r| ==> r[i] == Reversed(logs[i])
  {
    seq(|logs|, i requires 0 <= i < |logs| => Reversed(logs[i]))
  }

  /** The reversal turns the concatenation of the logs into the reversed logs, last pool first. */
  lemma {:induction false} ReversedConcat<T>(logs: seq<seq<T>>)
    ensures Reversed(Concat(logs)) == Concat(Reversed(EachReversed(logs)))
  {
    hide *;
    if logs == [] {
      NothingToReverse<T>();
    } else {
      var init, last := logs[..|logs| - 1], logs[|logs| - 1];
      assert logs == init + [last];
      ReversedConcat(init);
      ConcatMore(init, last);
      ReversedAppend(Concat(init), last);
      EachReversedMore(init, last);
      ReversedAppend(EachReversed(init), [Reversed(last)]);
      ReversedOne(Reversed(last));
      ConcatFront(Reversed(last), Reversed(EachReversed(init)));
    }
  }

  lemma NothingToReverse<T>()
    ensures Reversed(Concat<T>([])) == Concat(Reversed(EachReversed<T>([])))
  {
  }

  lemma ConcatMore<T>(init: seq<seq<T>>, last: seq<T>)
    ensures Concat(init + [last]) == Concat(init) + last
  {
    assert (init + [last])[..|init|] == init;
  }

  lemma ReversedAppend<T>(x: seq<T>, y: seq<T>)
    ensures Reversed(x + y) == Reversed(y) + Reversed(x)
  {
  }

  lemma ReversedOne<T>(x: T)
    ensures Reversed([x]) == [x]
  {
  }

  lemma EachReversedMore<T>(init: seq<seq<T>>, last: seq<T>)
    ensures EachReversed(init + [last]) == EachReversed(init) + [Reversed(last)]
  {
    hide Reversed;
  }

  lemma {:induction false} ConcatFront<T>(x: seq<T>, s: seq<seq<T>>)
    ensures Concat([x] + s) == x + Concat(s)
  {
    if s == [] {
      assert [x] + s == [x] && [x][..0] == [];
    } else {
      assert ([x] + s)[..|s|] == [x] + s[..|s| - 1];
      ConcatFront(x, s[..|s| - 1]);
    }
  }

  ghost predicate NewestFirst(evs: seq<D.AnomalyEvent>) {
    forall i, j :: 0 <= i < j < |evs| ==> evs[i].timestamp >= evs[j].timestamp
  }

  /** No event of one log is later than an event of a log after it. */
  ghost predicate LogsInOrder(logs: seq<seq<D.AnomalyEvent>>) {
    forall i, j, e, f :: 0 <= i < j < |logs| && e in logs[i] && f in logs[j] ==> e.timestamp <= f.timestamp
  }

  lemma ReversedOrder(evs: seq<D.AnomalyEvent>)
    ensures NewestFirst(Reversed(evs)) <==> D.OldestFirst(evs)
  {
    var n, r := |evs|, Reversed(evs);
    if NewestFirst(r) {
      forall i, j | 0 <= i < j < n ensures evs[i].timestamp <= evs[j].timestamp {
        assert r[n - 1 - j] == evs[j] && r[n - 1 - i] == evs[i];
      }
    }
  }

  lemma {:induction false} ConcatMembers<T>(logs: seq<seq<T>>)
    ensures forall e :: e in Concat(logs) <==> exists i :: 0 <= i < |logs| && e in logs[i]
  {
    if logs != [] {
      var n := |logs| - 1;
      ConcatMembers(logs[..n]);
      forall e ensures e in Concat(logs) <==> exists i :: 0 <= i < |logs| && e in logs[i] {
        if i :| 0 <= i < n && e in logs[i] {
          assert e in logs[..n][i];
        }
      }
    }
  }

  lemma JoinInOrder(x: seq<D.AnomalyEvent>, y: seq<D.AnomalyEvent>)
    ensures D.OldestFirst(x + y)
            <==> D.OldestFirst(x) && D.OldestFirst(y) && forall e, f :: e in x && f in y ==> e.timestamp <= f.timestamp
  {
    var z := x + y;
    if D.OldestFirst(z) {
      forall i, j | 0 <= i < j < |x| ensures x[i].timestamp <= x[j].timestamp {
        assert z[i] == x[i] && z[j] == x[j];
      }
      forall i, j | 0 <= i < j < |y| ensures y[i].timestamp <= y[j].timestamp {
        assert z[|x| + i] == y[i] && z[|x| + j] == y[j];
      }
      forall e, f | e in x && f in y ensures e.timestamp <= f.timestamp {
        var i :| 0 <= i < |x| && x[i] == e;
        var j :| 0 <= j < |y| && y[j] == f;
        assert z[i] == e && z[|x| + j] == f;
      }
    }
  }

  lemma OneMoreLog(init: seq<seq<D.AnomalyEvent>>, last: seq<D.AnomalyEvent>)
    ensures LogsInOrder(init + [last])
            <==> LogsInOrder(init) && forall e, f :: e in Concat(init) && f in last ==> e.timestamp <= f.timestamp
  {
    ConcatMembers(init);
    hide Concat;
    var logs, n := init + [last], |init|;
    assert forall i :: 0 <= i < n ==> logs[i] == init[i];
    if LogsInOrder(logs) {
      forall i, j, e, f | 0 <= i < j < n && e in init[i] && f in init[j] ensures e.timestamp <= f.timestamp {
        assert e in logs[i] && f in logs[j];
      }
      forall e, f | e in Concat(init) && f in last ensures e.timestamp <= f.timestamp {
        var i :| 0 <= i < n && e in init[i];
        assert e in logs[i] && f in logs[n];
      }
    }
  }

  ghost predicate EachInOrder(logs: seq<seq<D.AnomalyEvent>>) {
    forall i :: 0 <= i < |logs| ==> D.OldestFirst(logs[i])
  }

  lemma OneMoreInOrder(init: seq<seq<D.AnomalyEvent>>, last: seq<D.AnomalyEvent>)
    ensures EachInOrder(init + [last]) <==> EachInOrder(init) && D.OldestFirst(last)
  {
    hide D.OldestFirst;
    var logs := init + [last];
    assert logs[..|init|] == init && logs[|init|] == last;
    assert forall i :: 0 <= i < |init| ==> logs[i] == init[i];
  }

  lemma {:induction false} ConcatInOrder(logs: seq<seq<D.AnomalyEvent>>)
    ensures D.OldestFirst(Concat(logs)) <==> EachInOrder(logs) && LogsInOrder(logs)
  {
    hide *;
    if logs == [] {
      NoLogs();
    } else {
      var init, last := logs[..|logs| - 1], logs[|logs| - 1];
      assert logs == init + [last];
      ConcatInOrder(init);
      JoinInOrder(Concat(init), last);
      OneMoreLog(init, last);
      OneMoreInOrder(init, last);
      ConcatMore(init, last);
    }
  }

  lemma NoLogs()
    ensures D.OldestFirst(Concat([])) && EachInOrder([]) && LogsInOrder([])
  {
  }

  /** The list is newest first exactly if every pool's log is in time order and no event of a
      pool is later than an event of a pool that the map yields after it. */
  lemma NewestFirstIff(logs: seq<seq<D.AnomalyEvent>>)
    ensures NewestFirst(Reversed(Concat(logs)))
            <==> EachInOrder(logs) && LogsInOrder(logs)
  {
    hide *;
    ReversedOrder(Concat(logs));
    ConcatInOrder(logs);
  }

  // ---- whatever order the map yields ----

  /** An order in which n pools may be visited. */
  ghost predicate IsVisit(order: seq<nat>, n: nat) {
    && |order| == n
    && (forall i :: 0 <= i < n ==> order[i] < n)
    && (forall i, j :: 0 <= i < j < n ==> order[i] != order[j])
  }

  function Visited(logs: seq<seq<D.AnomalyEvent>>, order: seq<nat>): (r: seq<seq<D.AnomalyEvent>>)
    requires IsVisit(order, |logs|)
    ensures |r| == |logs| && forall i :: 0 <= i < |r| ==> r[i] == logs[order[i]]
  {
    seq(|logs|, i requires 0 <= i < |logs| => logs[order[i]])
  }

  /** Events of different pools all happened at one time. */
  ghost predicate PoolsSimultaneous(logs: seq<seq<D.AnomalyEvent>>) {
    forall i, j, e, f :: 0 <= i < j < |logs| && e in logs[i] && f in logs[j] ==> e.timestamp == f.timestamp
  }

  function Forwards(n: nat): (order: seq<nat>)
    ensures |order| == n && forall i :: 0 <= i < n ==> order[i] == i
  {
    seq(n, i => i)
  }

  function Backwards(n: nat): (order: seq<nat>)
    ensures |order| == n && forall i :: 0 <= i < n ==> order[i] == n - 1 - i
  {
    seq(n, i requires 0 <= i < n => n - 1 - i)
  }

  lemma AnyVisitInOrder(logs: seq<seq<D.AnomalyEvent>>, order: seq<nat>)
    requires IsVisit(order, |logs|) && EachInOrder(logs) && PoolsSimultaneous(logs)
    ensures EachInOrder(Visited(logs, order)) && LogsInOrder(Visited(logs, order))
  {
    hide D.OldestFirst;
    var v := Visited(logs, order);
    forall i, j, e: D.AnomalyEvent, f: D.AnomalyEvent | 0 <= i < j < |v| && e in v[i] && f in v[j]
      ensures e.timestamp <= f.timestamp
    {
      var x, y := order[i], order[j];
      assert e in logs[x] && f in logs[y];
    }
  }

  lemma BothWaysInOrder(logs: seq<seq<D.AnomalyEvent>>)
    requires IsVisit(Forwards(|logs|), |logs|) && IsVisit(Backwards(|logs|), |logs|)
    requires EachInOrder(Visited(logs, Forwards(|logs|))) && LogsInOrder(Visited(logs, Forwards(|logs|)))
    requires LogsInOrder(Visited(logs, Backwards(|logs|)))
    ensures EachInOrder(logs) && PoolsSimultaneous(logs)
  {
    hide D.OldestFirst;
    var n, v, w := |logs|, Visited(logs, Forwards(|logs|)), Visited(logs, Backwards(|logs|));
    assert v == logs;
    forall i, j, e: D.AnomalyEvent, f: D.AnomalyEvent | 0 <= i < j < n && e in logs[i] && f in logs[j]
      ensures e.timestamp == f.timestamp
    {
      assert e in v[i] && f in v[j];
      assert e in w[n - 1 - i] && f in w[n - 1 - j];
    }
  }

  /** The list is newest first in every order in which the pools may be visited exactly if every
      log is in time order and any two events of different pools have the same time. */
  lemma NewestFirstAlwaysIff(logs: seq<seq<D.AnomalyEvent>>)
    ensures (forall order :: IsVisit(order, |logs|) ==> NewestFirst(Reversed(Concat(Visited(logs, order)))))
            <==> EachInOrder(logs) && PoolsSimultaneous(logs)
  {
    var there, back := Forwards(|logs|), Backwards(|logs|);
    assert IsVisit(there, |logs|) && IsVisit(back, |logs|);
    hide *;
    NewestFirstIff(Visited(logs, there));
    NewestFirstIff(Visited(logs, back));
    if EachInOrder(logs) && PoolsSimultaneous(logs) {
      forall order | IsVisit(order, |logs|) ensures NewestFirst(Reversed(Concat(Visited(logs, order)))) {
        AnyVisitInOrder(logs, order);
        NewestFirstIff(Visited(logs, order));
      }
    } else if forall order :: IsVisit(order, |logs|) ==> NewestFirst(Reversed(Concat(Visited(logs, order)))) {
      BothWaysInOrder(logs);
    }
  }

  /** Whatever the pools, the list is made of one stretch per pool, and a stretch is newest
      first exactly if that pool's log is in time order. */
  lemma NewestFirstInsidePools(logs: seq<seq<D.AnomalyEvent>>)
    ensures var parts := Reversed(EachReversed(logs));
            && Reversed(Concat(logs)) == Concat(parts)
            && |parts| == |logs|
            && forall i :: 0 <= i < |logs| ==> (NewestFirst(parts[i]) <==> D.OldestFirst(logs[|logs| - 1 - i]))
  {
    hide D.OldestFirst, NewestFirst, Concat;
    ReversedConcat(logs);
    forall i | 0 <= i < |logs| ensures NewestFirst(Reversed(logs[i])) <==> D.OldestFirst(logs[i]) {
      ReversedOrder(logs[i]);
    }
  }

  /** Two pools whose events alternate: each has measured in time order, and the list is newest
      first in neither of the two orders in which the map may yield them. */
  lemma NotNewestFirstAcrossPools(sqrt: real -> real)
    requires IsSqrt(sqrt)
    ensures var a, b := D.TwoMisses(1, 3), D.TwoMisses(2, 4);
            var la := Last(D.Fired(a, D.Settings("a", WINDOW, 2.0, sqrt)), D.MAX_EVENTS);
            var lb := Last(D.Fired(b, D.Settings("b", WINDOW, 2.0, sqrt)), D.MAX_EVENTS);
            && D.Chronological(a) && D.Chronological(b)
            && !NewestFirst(Reversed(Concat([la, lb]))) && !NewestFirst(Reversed(Concat([lb, la])))
  {
    var sa, sb := D.Settings("a", WINDOW, 2.0, sqrt), D.Settings("b", WINDOW, 2.0, sqrt);
    D.TwoMissesFire(sa, 1, 3);
    D.TwoMissesFire(sb, 2, 4);
    hide *;
    Alternating(D.Fired(D.TwoMisses(1, 3), sa), D.Fired(D.TwoMisses(2, 4), sb));
    InTimeOrder(1, 3);
    InTimeOrder(2, 4);
  }

  lemma InTimeOrder(t: int, u: int)
    requires 0 <= t <= u
    ensures D.Chronological(D.TwoMisses(t, u))
  {
  }

  lemma Alternating(a: seq<D.AnomalyEvent>, b: seq<D.AnomalyEvent>)
    requires |a| == |b| == 2 && a[0].timestamp < b[0].timestamp < a[1].timestamp < b[1].timestamp
    ensures var la, lb := Last(a, D.MAX_EVENTS), Last(b, D.MAX_EVENTS);
            !NewestFirst(Reversed(Concat([la, lb]))) && !NewestFirst(Reversed(Concat([lb, la])))
  {
    NewestFirstIff([a, b]);
    NewestFirstIff([b, a]);
    hide NewestFirst, Concat, Reversed, D.OldestFirst;
    assert !LogsInOrder([a, b]) by {
      assert [a, b][0] == a && [a, b][1] == b && a[1] in a && b[0] in b;
    }
    assert !LogsInOrder([b, a]) by {
      assert [b, a][0] == b && [b, a][1] == a && b[1] in b && a[0] in a;
    }
  }
}
