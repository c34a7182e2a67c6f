/** The incident correlator: a bounded buffer of events, a five-minute window per pool, a
    classification of what is in it, and one incident per pool and cause. */
module Incident {
  import opened Prelude

  datatype Severity = Info | Warning | Degradation | Failure
  datatype ZFSEvent = ZFSEvent(time: int, pool: string, vdev: string, eventType: string)
  datatype Evidence = Evidence(eventType: string, count: nat, timespan: int)
  datatype Action = Action(action: string, vdev: string)
  datatype Cause = DriveFailure | SectorFailure | SilentCorruption | VdevDegraded | Unknown
  datatype Verdict = Verdict(cause: Cause, confidence: real, evidence: seq<Evidence>)

  const MAX_EVENTS := 1000
  const WINDOW := 5 * MINUTE

  // ---- classification ----

  function Types(events: seq<ZFSEvent>): seq<string> {
    if events == [] then [] else Types(events[..|events| - 1]) + [events[|events| - 1].eventType]
  }

  /** How many events there are of a type. */
  function CountOf(events: seq<ZFSEvent>, ty: string): nat { multiset(Types(events))[ty] }

  function Span(events: seq<ZFSEvent>): int {
    if |events| > 1 then events[|events| - 1].time - events[0].time else 0
  }

  function Judge(checksums: nat, faulted: nat, latency: nat, scrubErr: nat, span: int): Verdict {
    if faulted > 0 && checksums > 5 then
      Verdict(DriveFailure, 0.95,
              [Evidence("vdev_faulted", faulted, span), Evidence("checksum_mismatch", checksums, span)])
    else if checksums > 10 && latency > 2 then
      Verdict(SectorFailure, 0.85,
              [Evidence("checksum_mismatch", checksums, span), Evidence("latency_spike", latency, span)])
    else if scrubErr > 0 && checksums > 0 then
      Verdict(SilentCorruption, 0.75, [Evidence("scrub_error", scrubErr, span)])
    else if latency > 5 then
      Verdict(VdevDegraded, 0.60, [Evidence("latency_spike", latency, span)])
    else Verdict(Unknown, 0.0, [])
  }

  function Classified(events: seq<ZFSEvent>): Verdict {
    Judge(CountOf(events, "checksum_mismatch"), CountOf(events, "vdev_faulted"),
          CountOf(events, "latency_spike"), CountOf(events, "scrub_error"), Span(events))
  }

  function OfType(ty: string): ZFSEvent -> bool { (e: ZFSEvent) => e.eventType == ty }

  lemma {:induction false} CountIs(events: seq<ZFSEvent>, ty: string)
    ensures CountOf(events, ty) == |Filter(events, OfType(ty))|
  {
    if events != [] {
      CountIs(events[..|events| - 1], ty);
    }
  }

  /** How many events of each type, and how long from the first to the last. */
  datatype Tally = Tally(checksums: nat, faulted: nat, latency: nat, scrubErr: nat, span: int)

  ghost function TallyOf(events: seq<ZFSEvent>): Tally {
    Tally(|Filter(events, OfType("checksum_mismatch"))|, |Filter(events, OfType("vdev_faulted"))|,
          |Filter(events, OfType("latency_spike"))|, |Filter(events, OfType("scrub_error"))|,
          if events == [] then 0 else events[|events| - 1].time - events[0].time)
  }

  /** The cause is the first of four whose signs are there, and the confidence and the evidence
      are its own. */
  ghost predicate Explains(v: Verdict, t: Tally) {
    var drive := t.faulted >= 1 && t.checksums >= 6;
    var sector := t.checksums >= 11 && t.latency >= 3;
    var silent := t.scrubErr >= 1 && t.checksums >= 1;
    && (v.cause == DriveFailure <==> drive)
    && (v.cause == SectorFailure <==> !drive && sector)
    && (v.cause == SilentCorruption <==> !drive && !sector && silent)
    && (v.cause == VdevDegraded <==> !drive && !sector && !silent && t.latency >= 6)
    && v.confidence == (match v.cause
                        case DriveFailure => 0.95 case SectorFailure => 0.85 case SilentCorruption => 0.75
                        case VdevDegraded => 0.60 case Unknown => 0.0)
    && v.evidence == (match v.cause
                      case DriveFailure => [Evidence("vdev_faulted", t.faulted, t.span),
                                            Evidence("checksum_mismatch", t.checksums, t.span)]
                      case SectorFailure => [Evidence("checksum_mismatch", t.checksums, t.span),
                                             Evidence("latency_spike", t.latency, t.span)]
                      case SilentCorruption => [Evidence("scrub_error", t.scrubErr, t.span)]
                      case VdevDegraded => [Evidence("latency_spike", t.latency, t.span)]
                      case Unknown => [])
  }

  lemma JudgeExplains(t: Tally)
    ensures Explains(Judge(t.checksums, t.faulted, t.latency, t.scrubErr, t.span), t)
  {
  }

  lemma VerdictExplains(events: seq<ZFSEvent>)
    ensures Explains(Classified(events), TallyOf(events))
  {
    CountIs(events, "checksum_mismatch");
    CountIs(events, "vdev_faulted");
    CountIs(events, "latency_spike");
    CountIs(events, "scrub_error");
    JudgeExplains(TallyOf(events));
    hide Judge, Explains, CountOf, Filter;
  }

  lemma NoCount()
    ensures forall ty :: CountOf([], ty) == 0
  {
  }

  lemma NextCount(events: seq<ZFSEvent>, i: nat)
    requires i < |events|
    ensures forall ty :: CountOf(events[..i + 1], ty)
                         == CountOf(events[..i], ty) + if events[i].eventType == ty then 1 else 0
  {
    assert events[..i + 1][..i] == events[..i];
  }

  method Classify(events: seq<ZFSEvent>) returns (v: Verdict)
    ensures v == Classified(events)
    ensures Explains(v, TallyOf(events))
  {
    VerdictExplains(events);
    NoCount();
    hide Explains, TallyOf, Judge, CountOf, Span;
    var counts: map<string, nat> := map[];
    for i := 0 to |events|
      invariant forall ty :: (if ty in counts then counts[ty] else 0) == CountOf(events[..i], ty)
    {
      var ty := events[i].eventType;
      NextCount(events, i);
      counts := counts[ty := (if ty in counts then counts[ty] else 0) + 1];
    }
    assert events[..|events|] == events;
    v := Judge(At(counts, "checksum_mismatch"), At(counts, "vdev_faulted"),
               At(counts, "latency_spike"), At(counts, "scrub_error"), Span(events));
  }

  /** A missing key of a Go map of integers reads as zero. */
  function At(counts: map<string, nat>, ty: string): nat { if ty in counts then counts[ty] else 0 }

  lemma JudgeMonotone(c: nat, f: nat, l: nat, r: nat, span: int, c': nat, f': nat, l': nat, r': nat, span': int)
    requires c <= c' && f <= f' && l <= l' && r <= r'
    ensures Judge(c, f, l, r, span).confidence <= Judge(c', f', l', r', span').confidence
    ensures Judge(c, f, l, r, span).confidence == Judge(c', f', l', r', span').confidence
            <==> Judge(c, f, l, r, span).cause == Judge(c', f', l', r', span').cause
  {
  }

  /** Only how often each type occurs decides the cause and the confidence, and more events of
      any types never lower the confidence, that is, never lead to a weaker cause. */
  lemma ConfidenceMonotone(a: seq<ZFSEvent>, b: seq<ZFSEvent>)
    requires multiset(Types(a)) <= multiset(Types(b))
    ensures Classified(a).confidence <= Classified(b).confidence
    ensures Classified(a).confidence == Classified(b).confidence <==> Classified(a).cause == Classified(b).cause
  {
    hide Judge, Types;
    JudgeMonotone(CountOf(a, "checksum_mismatch"), CountOf(a, "vdev_faulted"),
                  CountOf(a, "latency_spike"), CountOf(a, "scrub_error"), Span(a),
                  CountOf(b, "checksum_mismatch"), CountOf(b, "vdev_faulted"),
                  CountOf(b, "latency_spike"), CountOf(b, "scrub_error"), Span(b));
  }

  lemma OrderDoesNotMatter(a: seq<ZFSEvent>, b: seq<ZFSEvent>)
    requires multiset(Types(a)) == multiset(Types(b))
    ensures Classified(a).cause == Classified(b).cause && Classified(a).confidence == Classified(b).confidence
  {
    ConfidenceMonotone(a, b);
    ConfidenceMonotone(b, a);
  }

  // ---- affected vdevs ----

  function UniqueVdevs(events: seq<ZFSEvent>): seq<string> {
    if events == [] then [] else
    var out, v := UniqueVdevs(events[..|events| - 1]), events[|events| - 1].vdev;
    if v == "" || v in out then out else out + [v]
  }

  method FindVdevs(events: seq<ZFSEvent>) returns (out: seq<string>)
    ensures out == UniqueVdevs(events)
  {
    var seen: set<string> := {};
    out := [];
    for i := 0 to |events|
      invariant out == UniqueVdevs(events[..i])
      invariant forall v :: v in seen <==> v in out
    {
      assert events[..i + 1][..i] == events[..i];
      var v := events[i].vdev;
      if v != "" && v !in seen {
        seen, out := seen + {v}, out + [v];
      }
    }
    assert events[..|events|] == events;
  }

  function VdevSet(events: seq<ZFSEvent>): set<string> {
    set e | e in events && e.vdev != "" :: e.vdev
  }

  /** Each non-empty vdev of the events once, and nothing else. */
  lemma {:induction false} UniqueVdevsAreSet(events: seq<ZFSEvent>)
    ensures var out := UniqueVdevs(events);
            && (forall i, j :: 0 <= i < j < |out| ==> out[i] != out[j])
            && (forall v :: v in out <==> v in VdevSet(events))
  {
    if events != [] {
      var init, e := events[..|events| - 1], events[|events| - 1];
      UniqueVdevsAreSet(init);
      assert events == init + [e];
      assert VdevSet(events) == VdevSet(init) + (if e.vdev != "" then {e.vdev} else {});
    }
  }

  ghost predicate SeenBefore(events: seq<ZFSEvent>, v: string, w: string) {
    exists k :: 0 <= k < |events| && events[k].vdev == v && forall l :: 0 <= l <= k ==> events[l].vdev != w
  }

  ghost predicate AllInOrder(events: seq<ZFSEvent>, out: seq<string>) {
    forall i, j :: 0 <= i < j < |out| ==> SeenBefore(events, out[i], out[j])
  }

  /** They come in the order in which the events first name them. */
  lemma {:induction false} VdevsInOrder(events: seq<ZFSEvent>)
    ensures AllInOrder(events, UniqueVdevs(events))
  {
    if events != [] {
      var init := events[..|events| - 1];
      var out, out', v := UniqueVdevs(init), UniqueVdevs(events), events[|events| - 1].vdev;
      VdevsInOrder(init);
      UniqueVdevsAreSet(init);
      assert init <= events && AllInOrder(init, out);
      assert out' == out || (out' == out + [v] && v != "" && v !in out);
      hide UniqueVdevs, VdevSet, SeenBefore;
      forall i, j | 0 <= i < j < |out'| ensures SeenBefore(events, out'[i], out'[j]) {
        assert i < |out| && out'[i] == out[i] && out[i] in out;
        if j < |out| {
          assert out'[j] == out[j];
        } else {
          FirstNamed(init, out'[i], out'[j]);
        }
        SeenLonger(init, events, out'[i], out'[j]);
      }
    }
  }

  lemma FirstNamed(events: seq<ZFSEvent>, v: string, w: string)
    requires v in VdevSet(events) && w !in VdevSet(events) && w != ""
    ensures SeenBefore(events, v, w)
  {
    var e :| e in events && e.vdev == v;
    var k :| 0 <= k < |events| && events[k] == e;
    assert forall l :: 0 <= l <= k ==> events[l].vdev != w by {
      assert forall l :: 0 <= l < |events| ==> events[l].vdev != "" ==> events[l].vdev in VdevSet(events);
    }
  }

  lemma SeenLonger(init: seq<ZFSEvent>, events: seq<ZFSEvent>, v: string, w: string)
    requires init <= events && SeenBefore(init, v, w)
    ensures SeenBefore(events, v, w)
  {
  }

  // ---- incidents and their keys ----

  function Name(cause: Cause): string {
    match cause
    case DriveFailure => "drive_failure"
    case SectorFailure => "sector_failure"
    case SilentCorruption => "silent_corruption"
    case VdevDegraded => "vdev_degraded"
    case Unknown => "unknown"
  }

  function Key(pool: string, cause: Cause): string { pool + "-" + Name(cause) }

  /** Causes have no dash, so a key names one pool and one cause even when pool names have. */
  lemma KeyInjective(p: string, c: Cause, p': string, c': Cause)
    requires Key(p, c) == Key(p', c')
    ensures p == p' && c == c'
  {
    NamesHaveNoDash(c);
    NamesHaveNoDash(c');
    SplitAtLast(p, Name(c), p', Name(c'), '-');
    NamesDiffer(c, c');
  }

  lemma NamesHaveNoDash(c: Cause)
    ensures '-' !in Name(c)
  {
  }

  lemma NamesDiffer(c: Cause, c': Cause)
    requires Name(c) == Name(c')
    ensures c == c'
  {
    assert |Name(DriveFailure)| == 13 && |Name(VdevDegraded)| == 13;
    assert Name(DriveFailure)[0] == 'd' && Name(VdevDegraded)[0] == 'v';
  }

  lemma NothingToClassify()
    ensures Classified([]).confidence == 0.0
  {
  }

  function SeverityFromCause(cause: Cause): Severity {
    if cause == DriveFailure then Failure
    else if cause == SectorFailure || cause == SilentCorruption then Degradation
    else Warning
  }

  function ActionsForCause(cause: Cause, vdevs: seq<string>): seq<Action> {
    if cause == DriveFailure then
      seq(|vdevs|, i requires 0 <= i < |vdevs| => Action("replace_vdev", vdevs[i])) + [Action("run_scrub", "")]
    else if cause == SectorFailure || cause == SilentCorruption then [Action("run_scrub", "")]
    else [Action("investigate", "")]
  }

  class IncidentRecord {
    const id: string
    const pool: string
    const createdAt: int
    var rootCause: Cause
    var severity: Severity
    var timeRange: (int, int)
    var events: seq<ZFSEvent>
    var affectedVdevs: seq<string>
    var evidence: seq<Evidence>
    var confidence: real
    var actions: seq<Action>
    var resolved: bool
    var updatedAt: int

    constructor (id: string, pool: string, createdAt: int)
      ensures this.id == id && this.pool == pool && this.createdAt == createdAt && !resolved
    {
      this.id, this.pool, this.createdAt := id, pool, createdAt;
      rootCause, severity, timeRange, events, affectedVdevs := Unknown, Warning, (0, 0), [], [];
      evidence, confidence, actions, resolved, updatedAt := [], 0.0, [], false, 0;
    }

    /** What holds of every incident a client can see, resolved or not. */
    ghost predicate Consistent()
      reads this`rootCause, this`severity, this`timeRange, this`events, this`affectedVdevs,
            this`evidence, this`confidence, this`actions, this`updatedAt
    {
      && id == Key(pool, rootCause)
      && events != []
      && (forall e :: e in events ==> e.pool == pool && e.time > updatedAt - WINDOW)
      && Classified(events) == Verdict(rootCause, confidence, evidence)
      && confidence >= 0.4
      && affectedVdevs == UniqueVdevs(events)
      && severity == SeverityFromCause(rootCause)
      && actions == ActionsForCause(rootCause, affectedVdevs)
      && timeRange == (events[0].time, events[|events| - 1].time)
    }

    method Refresh(related: seq<ZFSEvent>, v: Verdict, now: int)
      requires v == Classified(related) && v.confidence >= 0.4 && id == Key(pool, v.cause)
      requires forall e :: e in related ==> e.pool == pool && e.time > now - WINDOW
      modifies this
      ensures Consistent() && events == related && updatedAt == now && resolved == old(resolved)
    {
      hide Judge, Key, UniqueVdevs, Classified, SeverityFromCause, ActionsForCause;
      if related == [] {
        NothingToClassify();
      }
      rootCause, confidence, evidence := v.cause, v.confidence, v.evidence;
      events, timeRange, updatedAt := related, (related[0].time, related[|related| - 1].time), now;
      var vdevs := FindVdevs(related);
      affectedVdevs := vdevs;
      severity, actions := SeverityFromCause(v.cause), ActionsForCause(v.cause, vdevs);
    }
  }

  /** What an incident shows: events of its pool from the last five minutes and their time range, the
      cause that they explain, its severity, and what to do about which vdevs. */
  lemma IncidentShows(inc: IncidentRecord)
    requires inc.Consistent()
    ensures Explains(Verdict(inc.rootCause, inc.confidence, inc.evidence), TallyOf(inc.events))
    ensures forall e :: e in inc.events ==> e.pool == inc.pool && e.time > inc.updatedAt - 300_000_000_000
    ensures forall v :: v in inc.affectedVdevs <==> v != "" && exists e :: e in inc.events && e.vdev == v
    ensures inc.events != [] && inc.confidence >= 0.4
    ensures inc.timeRange.0 == inc.events[0].time && inc.timeRange.1 == inc.events[|inc.events| - 1].time
    ensures inc.severity == Failure <==> inc.rootCause == DriveFailure
    ensures inc.severity == Degradation <==> inc.rootCause == SectorFailure || inc.rootCause == SilentCorruption
    ensures inc.severity == Warning <==> inc.rootCause == VdevDegraded
    ensures var n := |inc.affectedVdevs|;
            match inc.rootCause
            case DriveFailure =>
              && |inc.actions| == n + 1 && inc.actions[n] == Action("run_scrub", "")
              && forall i :: 0 <= i < n ==> inc.actions[i] == Action("replace_vdev", inc.affectedVdevs[i])
            case VdevDegraded => inc.actions == [Action("investigate", "")]
            case _ => inc.actions == [Action("run_scrub", "")]
  {
    hide Classified, TallyOf, UniqueVdevs, Key, Explains, SeverityFromCause, ActionsForCause;
    VerdictExplains(inc.events);
    VdevsShown(inc.events);
    CauseKnown(inc.rootCause, inc.confidence, inc.evidence, TallyOf(inc.events));
    CauseDecides(inc.rootCause, inc.affectedVdevs);
  }

  lemma VdevsShown(events: seq<ZFSEvent>)
    ensures forall v :: v in UniqueVdevs(events) <==> v != "" && exists e :: e in events && e.vdev == v
  {
    UniqueVdevsAreSet(events);
    hide UniqueVdevs;
  }

  lemma CauseDecides(cause: Cause, vdevs: seq<string>)
    requires cause != Unknown
    ensures SeverityFromCause(cause) == Failure <==> cause == DriveFailure
    ensures SeverityFromCause(cause) == Degradation <==> cause == SectorFailure || cause == SilentCorruption
    ensures SeverityFromCause(cause) == Warning <==> cause == VdevDegraded
    ensures var n, actions := |vdevs|, ActionsForCause(cause, vdevs);
            match cause
            case DriveFailure =>
              && |actions| == n + 1 && actions[n] == Action("run_scrub", "")
              && forall i :: 0 <= i < n ==> actions[i] == Action("replace_vdev", vdevs[i])
            case VdevDegraded => actions == [Action("investigate", "")]
            case _ => actions == [Action("run_scrub", "")]
  {
  }

  lemma CauseKnown(cause: Cause, confidence: real, evidence: seq<Evidence>, t: Tally)
    requires Explains(Verdict(cause, confidence, evidence), t) && confidence >= 0.4
    ensures cause != Unknown
  {
  }

  // ---- the correlator ----

  /** Whether an event belongs to the window that ends with ev. */
  function InWindow(ev: ZFSEvent): ZFSEvent -> bool {
    (e: ZFSEvent) => e.time > ev.time - WINDOW && e.pool == ev.pool
  }

  lemma RelatedInWindow(buf: seq<ZFSEvent>, ev: ZFSEvent)
    ensures forall e :: e in Filter(buf, InWindow(ev)) ==> e.pool == ev.pool && e.time > ev.time - WINDOW
    ensures forall e :: e in Filter(buf, InWindow(ev))
                        <==> e in buf && e.pool == ev.pool && e.time > ev.time - 300_000_000_000
  {
    FilterMembers(buf, InWindow(ev));
  }

  class Correlator {
    var incidents: map<string, IncidentRecord>
    var eventBuf: seq<ZFSEvent>
    ghost var history: seq<ZFSEvent>  // every event ever ingested

    ghost predicate Valid()
      reads this, incidents.Values
    {
      && eventBuf == Last(history, MAX_EVENTS)
      && forall id :: id in incidents ==> incidents[id].id == id && incidents[id].Consistent()
    }

    constructor ()
      ensures Valid() && incidents == map[] && history == []
    {
      incidents, eventBuf, history := map[], [], [];
    }

    method Related(ev: ZFSEvent) returns (related: seq<ZFSEvent>)
      ensures related == Filter(eventBuf, InWindow(ev))
    {
      related := [];
      for i := 0 to |eventBuf|
        invariant related == Filter(eventBuf[..i], InWindow(ev))
      {
        assert eventBuf[..i + 1][..i] == eventBuf[..i];
        if InWindow(ev)(eventBuf[i]) {
          related := related + [eventBuf[i]];
        }
      }
      assert eventBuf[..|eventBuf|] == eventBuf;
    }

    method Buffer(ev: ZFSEvent)
      requires eventBuf == Last(history, MAX_EVENTS)
      modifies this`eventBuf, this`history
      ensures history == old(history) + [ev] && eventBuf == Last(history, MAX_EVENTS)
      ensures |eventBuf| == if |history| < 1000 then |history| else 1000
    {
      LastOfAppend(history, ev, MAX_EVENTS);
      history := history + [ev];
      eventBuf := eventBuf + [ev];
      if |eventBuf| > MAX_EVENTS {
        eventBuf := eventBuf[|eventBuf| - MAX_EVENTS..];
      }
    }

    method FindOrMake(id: string, ev: ZFSEvent) returns (inc: IncidentRecord)
      modifies this`incidents
      ensures id in incidents && incidents[id] == inc
      ensures id in old(incidents) ==> incidents == old(incidents)
      ensures id !in old(incidents) ==>
                && incidents == old(incidents)[id := inc]
                && fresh(inc) && inc.id == id && inc.pool == ev.pool && inc.createdAt == ev.time && !inc.resolved
    {
      if id in incidents {
        return incidents[id];
      }
      inc := new IncidentRecord(id, ev.pool, ev.time);
      incidents := incidents[id := inc];
    }

    /** Below the threshold nothing happens; from it on the incident of this pool and cause is
        made or brought up to date, keeping its age and its resolution, and no other changes.
        What it then shows follows from Valid. */
    method Ingest(ev: ZFSEvent)
      requires Valid()
      modifies this, incidents.Values
      ensures Valid()
      ensures history == old(history) + [ev] && |eventBuf| == (if |history| < 1000 then |history| else 1000)
      ensures var related := Filter(eventBuf, InWindow(ev));
              var v := Classified(related);
              var id := Key(ev.pool, v.cause);
              && (v.confidence < 0.4 ==> incidents == old(incidents))
              && (v.confidence >= 0.4 ==>
                    && incidents.Keys == old(incidents.Keys) + {id}
                    && (var inc := incidents[id];
                        && inc.events == related && inc.updatedAt == ev.time && inc.pool == ev.pool
                        && (id in old(incidents) ==> inc.resolved == old(incidents[id].resolved))
                        && (id !in old(incidents) ==> fresh(inc) && !inc.resolved && inc.createdAt == ev.time)))
              && (forall k :: k in old(incidents) ==> k in incidents && incidents[k] == old(incidents[k]))
              && (forall k :: k in old(incidents) && (v.confidence < 0.4 || k != id) ==> unchanged(old(incidents[k])))
    {
      hide Classified, Key, IncidentRecord.Consistent, Filter, InWindow, Last;
      Buffer(ev);
      var related := Related(ev);
      var v := Classify(related);
      RelatedInWindow(eventBuf, ev);
      if v.confidence < 0.4 {
        return;
      }
      Upsert(ev, related, v);
    }

    /** The incident of this pool and cause is made or brought up to date. */
    method Upsert(ev: ZFSEvent, related: seq<ZFSEvent>, v: Verdict)
      requires Valid() && v == Classified(related) && v.confidence >= 0.4
      requires forall e :: e in related ==> e.pool == ev.pool && e.time > ev.time - WINDOW
      modifies this`incidents, incidents.Values
      ensures Valid()
      ensures var id := Key(ev.pool, v.cause);
              && incidents.Keys == old(incidents.Keys) + {id}
              && (var inc := incidents[id];
                  && inc.events == related && inc.updatedAt == ev.time && inc.pool == ev.pool
                  && (id in old(incidents) ==> inc.resolved == old(incidents[id].resolved))
                  && (id !in old(incidents) ==> fresh(inc) && !inc.resolved && inc.createdAt == ev.time))
              && (forall k :: k in old(incidents) ==> k in incidents && incidents[k] == old(incidents[k]))
              && (forall k :: k in old(incidents) && k != id ==> unchanged(old(incidents[k])))
    {
      hide Classified, Key, IncidentRecord.Consistent;
      var inc := FindOrMake(Key(ev.pool, v.cause), ev);
      if inc.id in old(incidents) {
        SamePool(inc, ev.pool, v.cause);
      }
      inc.Refresh(related, v, ev.time);
    }

    method Resolve(id: string) returns (ok: bool)
      requires Valid()
      modifies incidents.Values
      ensures Valid()
      ensures ok <==> id in incidents
      ensures ok ==> incidents[id].resolved
      ensures forall k :: k in incidents && k != id ==> unchanged(incidents[k])
      ensures ok ==> incidents[id].events == old(incidents[id].events)
                     && incidents[id].updatedAt == old(incidents[id].updatedAt)
    {
      hide IncidentRecord.Consistent;
      if id !in incidents {
        return false;
      }
      incidents[id].resolved := true;
      return true;
    }
  }

  lemma SamePool(inc: IncidentRecord, pool: string, cause: Cause)
    requires inc.Consistent() && inc.id == Key(pool, cause)
    ensures inc.pool == pool
  {
    KeyInjective(pool, cause, inc.pool, inc.rootCause);
  }

  /** The newest event is always in its own window, so what is classified is never empty. */
  lemma NewestIsRelated(buf: seq<ZFSEvent>, ev: ZFSEvent)
    ensures ev in Filter(Last(buf + [ev], MAX_EVENTS), InWindow(ev))
  {
    var b := Last(buf + [ev], MAX_EVENTS);
    FilterMembers(b, InWindow(ev));
    assert b[|b| - 1] == ev;
  }

  // ---- what the bounded buffer forgets ----

  /** The buffer, which all pools share, shows the whole window of an event exactly if no event
      older than the last thousand lies in it. */
  lemma BufferCompleteIff(h: seq<ZFSEvent>, ev: ZFSEvent)
    ensures Filter(Last(h, MAX_EVENTS), InWindow(ev)) == Filter(h, InWindow(ev))
            <==> forall i :: 0 <= i < |h| - MAX_EVENTS ==> !InWindow(ev)(h[i])
  {
    LastLength(h, MAX_EVENTS);
    hide *;
    if |h| > MAX_EVENTS {
      var n := |h| - MAX_EVENTS;
      FilterSplit(h, n, InWindow(ev));
      NoneInWindow(h, n, ev);
      NothingBefore(Filter(h[..n], InWindow(ev)), Filter(h[n..], InWindow(ev)));
    } else {
      assert h[0..] == h;
    }
  }

  lemma NoneInWindow(h: seq<ZFSEvent>, n: nat, ev: ZFSEvent)
    requires n <= |h|
    ensures Filter(h[..n], InWindow(ev)) == [] <==> forall i :: 0 <= i < n ==> !InWindow(ev)(h[i])
  {
    FilterNone(h[..n], InWindow(ev));
    hide Filter, InWindow;
    assert forall i :: 0 <= i < n ==> h[..n][i] == h[i];
  }

  lemma NothingBefore<T>(x: seq<T>, y: seq<T>)
    ensures y == x + y <==> x == []
  {
    assert |x + y| == |x| + |y|;
  }

  lemma {:induction false} TypesAppend(x: seq<ZFSEvent>, y: seq<ZFSEvent>)
    ensures Types(x + y) == Types(x) + Types(y)
  {
    if y == [] {
      assert x + y == x;
    } else {
      assert (x + y)[..|x + y| - 1] == x + y[..|y| - 1];
      TypesAppend(x, y[..|y| - 1]);
    }
  }

  /** What it forgets can only weaken a verdict. */
  lemma BufferOnlyWeakens(h: seq<ZFSEvent>, ev: ZFSEvent)
    ensures Classified(Filter(Last(h, MAX_EVENTS), InWindow(ev))).confidence
            <= Classified(Filter(h, InWindow(ev))).confidence
  {
    hide Filter, InWindow, Classified, Types;
    var n := if |h| > MAX_EVENTS then |h| - MAX_EVENTS else 0;
    assert h[n..] == Last(h, MAX_EVENTS);
    FilterSplit(h, n, InWindow(ev));
    TypesAppend(Filter(h[..n], InWindow(ev)), Filter(h[n..], InWindow(ev)));
    ConfidenceMonotone(Filter(h[n..], InWindow(ev)), Filter(h, InWindow(ev)));
  }

  function Copies(n: nat, e: ZFSEvent): (r: seq<ZFSEvent>)
    ensures |r| == n && forall i :: 0 <= i < n ==> r[i] == e
  {
    seq(n, i => e)
  }

  /** And can erase one: a busy pool's thousand events between six and one latency spikes of a
      quiet pool, all at one time, leave of its degraded vdev nothing to report. */
  lemma BusyPoolErasesEvidence(t: int)
    ensures var spike, noise := ZFSEvent(t, "quiet", "v", "latency_spike"),
                                ZFSEvent(t, "busy", "w", "checksum_mismatch");
            var h := Copies(6, spike) + Copies(1000, noise) + [spike];
            && Classified(Filter(h, InWindow(spike))).cause == VdevDegraded
            && Classified(Filter(Last(h, MAX_EVENTS), InWindow(spike))).confidence == 0.0
  {
    hide *;
    var spike, noise := ZFSEvent(t, "quiet", "v", "latency_spike"), ZFSEvent(t, "busy", "w", "checksum_mismatch");
    LastThousand(Copies(6, spike), noise, spike);
    WindowOf(Copies(6, spike), Copies(1000, noise), spike);
    WindowOf([], Copies(999, noise), spike);
    ClassifySpikes(Copies(6, spike) + [spike]);
    ClassifySpikes([] + [spike]);
    assert [] + Copies(999, noise) == Copies(999, noise);
  }

  lemma LastThousand(spikes: seq<ZFSEvent>, noise: ZFSEvent, spike: ZFSEvent)
    requires |spikes| == 6
    ensures Last(spikes + Copies(1000, noise) + [spike], MAX_EVENTS) == Copies(999, noise) + [spike]
  {
  }

  lemma WindowOf(spikes: seq<ZFSEvent>, noise: seq<ZFSEvent>, spike: ZFSEvent)
    requires forall i :: 0 <= i < |spikes| ==> spikes[i] == spike
    requires forall i :: 0 <= i < |noise| ==> noise[i].pool != spike.pool
    ensures Filter(spikes + noise + [spike], InWindow(spike)) == spikes + [spike]
  {
    var w := InWindow(spike);
    FilterAll(spikes, w);
    FilterAll(noise, w);
    FilterAppend(spikes, noise, w);
    FilterNext(spikes + noise, spike, w);
    hide Filter;
    assert spikes + [] == spikes;
  }

  lemma ClassifySpikes(s: seq<ZFSEvent>)
    requires forall i :: 0 <= i < |s| ==> s[i].eventType == "latency_spike"
    ensures |s| == 7 ==> Classified(s).cause == VdevDegraded
    ensures |s| == 1 ==> Classified(s).confidence == 0.0
  {
    Spikes(s);
    hide CountOf, Span;
  }

  lemma {:induction false} Spikes(s: seq<ZFSEvent>)
    requires forall i :: 0 <= i < |s| ==> s[i].eventType == "latency_spike"
    ensures CountOf(s, "latency_spike") == |s|
    ensures CountOf(s, "checksum_mismatch") == CountOf(s, "vdev_faulted") == CountOf(s, "scrub_error") == 0
  {
    assert "latency_spike"[0] != "checksum_mismatch"[0] && "latency_spike"[0] != "vdev_faulted"[0]
           && "latency_spike"[0] != "scrub_error"[0];
    if s != [] {
      Spikes(s[..|s| - 1]);
    }
  }
}
