/** Concurrent calls of Feed on one registry. Feed releases the lock between finding no
    detector and creating one, so several calls for a new pool can race; each step below is
    one atomic action of one call, and the laws hold over every interleaving. */
module FeedProtocol {
  import opened Prelude

  type Pool = string
  type CallId = nat
  /** Detectors are named in the order in which NewDetector makes them. */
  type DetectorId = nat

  datatype Pc =
    | Start
    | Reading            // holds the read lock of the first lookup
    | Found(d: Option<DetectorId>)  // has looked up, still holds it
    | Missing            // released it, found nothing
    | Ensuring           // holds the write lock in EnsurePool
    | Checked(present: bool)  // has looked for the pool, still holds it
    | Ensured            // has created the detector if there was none, still holds it
    | Retrying           // released it
    | Rereading          // holds the read lock of the second lookup
    | Refound(d: Option<DetectorId>)
    | Recording(d: Option<DetectorId>)  // about to call Record on d; None is Go's nil
    | Done

  datatype Call = Call(pool: Pool, pc: Pc)

  datatype State = State(
    calls: map<CallId, Call>,
    readers: set<CallId>, writer: Option<CallId>,   // the registry's RWMutex
    detectors: map<Pool, DetectorId>,
    made: seq<Pool>,                                // the pool each detector was made for
    logs: seq<seq<CallId>>,                         // the calls each detector has recorded
    panicked: bool)                                 // a nil detector was dereferenced

  ghost predicate Init(s: State) {
    s == State(map[], {}, None, map[], [], [], false)
  }

  function At(s: State, c: CallId, pc: Pc): State
    requires c in s.calls
  {
    s.(calls := s.calls[c := Call(s.calls[c].pool, pc)])
  }

  function Lookup(s: State, pool: Pool): Option<DetectorId> {
    if pool in s.detectors then Some(s.detectors[pool]) else None
  }

  /** Whether the call can take its next step now: only taking a lock can block. */
  predicate Enabled(s: State, c: CallId)
    requires c in s.calls
  {
    match s.calls[c].pc
    case Start => s.writer == None
    case Missing => s.writer == None && s.readers == {}
    case Retrying => s.writer == None
    case Done => false
    case _ => true
  }

  function Advance(s: State, c: CallId): State
    requires c in s.calls && Enabled(s, c)
  {
    var pool := s.calls[c].pool;
    match s.calls[c].pc
    case Start => At(s, c, Reading).(readers := s.readers + {c})
    case Reading => At(s, c, Found(Lookup(s, pool)))
    case Found(d) => At(s, c, if d.Some? then Recording(d) else Missing).(readers := s.readers - {c})
    case Missing => At(s, c, Ensuring).(writer := Some(c))
    case Ensuring => At(s, c, Checked(pool in s.detectors))
    case Checked(present) =>
      if present then At(s, c, Ensured)
      else At(s, c, Ensured).(detectors := s.detectors[pool := |s.made|], made := s.made + [pool],
                              logs := s.logs + [[]])
    case Ensured => At(s, c, Retrying).(writer := None)
    case Retrying => At(s, c, Rereading).(readers := s.readers + {c})
    case Rereading => At(s, c, Refound(Lookup(s, pool)))
    case Refound(d) => At(s, c, Recording(d)).(readers := s.readers - {c})
    case Recording(d) =>
      if d.None? || d.value >= |s.logs| then At(s, c, Done).(panicked := true)
      else At(s, c, Done).(logs := s.logs[d.value := s.logs[d.value] + [c]])
  }

  /** What happens next: a new call arrives, or a call under way takes one step. */
  datatype Event = Invoke(c: CallId, pool: Pool) | Step(c: CallId)

  ghost predicate Next(s: State, s': State, e: Event) {
    match e
    case Invoke(c, pool) => c !in s.calls && s' == s.(calls := s.calls[c := Call(pool, Start)])
    case Step(c) => c in s.calls && Enabled(s, c) && s' == Advance(s, c)
  }

  ghost predicate IsRun(run: seq<State>, events: seq<Event>) {
    && |run| == |events| + 1 && Init(run[0])
    && forall i :: 0 <= i < |events| ==> Next(run[i], run[i + 1], events[i])
  }

  // ---- the invariant ----

  predicate HoldsRead(pc: Pc) { pc.Reading? || pc.Found? || pc.Rereading? || pc.Refound? }
  predicate HoldsWrite(pc: Pc) { pc.Ensuring? || pc.Checked? || pc.Ensured? }
  /** From here on the call's pool has a detector. */
  predicate PastEnsure(pc: Pc) {
    pc.Ensured? || pc.Retrying? || pc.Rereading? || pc.Refound? || pc.Recording? || pc.Done?
  }

  /** The RWMutex excludes. */
  ghost predicate LockInv(s: State) {
    && (forall c :: c in s.readers <==> c in s.calls && HoldsRead(s.calls[c].pc))
    && (forall c :: c in s.calls && HoldsWrite(s.calls[c].pc) <==> s.writer == Some(c))
    && (s.writer.Some? ==> s.readers == {})
  }

  /** Every detector ever made is the installed detector of its pool, and the only one. */
  ghost predicate RegistryInv(s: State) {
    && |s.logs| == |s.made|
    && (forall p :: p in s.detectors ==> s.detectors[p] < |s.made| && s.made[s.detectors[p]] == p)
    && (forall d :: 0 <= d < |s.made| ==> s.made[d] in s.detectors && s.detectors[s.made[d]] == d)
  }

  /** A call only ever holds the installed detector of its pool. */
  ghost predicate CallInv(s: State, c: CallId)
    requires c in s.calls
  {
    var Call(pool, pc) := s.calls[c];
    && (PastEnsure(pc) ==> pool in s.detectors)
    && (pc.Checked? ==> (pc.present <==> pool in s.detectors))
    && (pc.Found? && pc.d.Some? ==> pc.d == Lookup(s, pool))
    && (pc.Refound? || pc.Recording? ==> pool in s.detectors && pc.d == Lookup(s, pool))
  }

  /** The logs hold exactly the finished calls, each once, in its own pool's detector. */
  ghost predicate LogInv(s: State) {
    && (forall d, i :: 0 <= d < |s.logs| && 0 <= i < |s.logs[d]| ==>
          var c := s.logs[d][i];
          c in s.calls && s.calls[c].pc == Done && Lookup(s, s.calls[c].pool) == Some(d))
    && (forall d, i, j :: 0 <= d < |s.logs| && 0 <= i < j < |s.logs[d]| ==> s.logs[d][i] != s.logs[d][j])
    && (forall c :: c in s.calls && s.calls[c].pc == Done ==>
          var d := Lookup(s, s.calls[c].pool);
          d.Some? && d.value < |s.logs| && c in s.logs[d.value])
  }

  ghost predicate Inv(s: State) {
    && !s.panicked && LockInv(s) && RegistryInv(s) && LogInv(s)
    && forall c :: c in s.calls ==> CallInv(s, c)
  }

  lemma StepKeepsInv(s: State, s': State, e: Event)
    requires Inv(s) && Next(s, s', e)
    ensures Inv(s')
    ensures forall p :: p in s.detectors ==> p in s'.detectors && s'.detectors[p] == s.detectors[p]
  {
    match e
    case Invoke(c, pool) => InvokeKeepsInv(s, s', c, pool);
    case Step(c) =>
      hide LockInv, RegistryInv, LogInv, CallInv, Advance;
      assert CallInv(s, c);
      LockKept(s, c);
      RegistryKept(s, c);
      LogsKept(s, c);
      forall c' | c' in s'.calls ensures CallInv(s', c') {
        CallKept(s, c, c');
      }
  }

  lemma InvokeKeepsInv(s: State, s': State, c: CallId, pool: Pool)
    requires Inv(s) && Next(s, s', Invoke(c, pool))
    ensures Inv(s')
  {
    forall c' | c' in s'.calls ensures CallInv(s', c') {
      assert c' != c ==> CallInv(s, c');
    }
  }

  /** A step moves one call only. */
  lemma OthersStay(s: State, c: CallId)
    requires c in s.calls && Enabled(s, c)
    ensures Advance(s, c).calls.Keys == s.calls.Keys
    ensures forall c' :: c' in s.calls && c' != c ==> Advance(s, c).calls[c'] == s.calls[c']
    ensures Advance(s, c).calls[c].pool == s.calls[c].pool
  {
  }

  lemma OwnLock(s: State, c: CallId)
    requires LockInv(s) && c in s.calls && Enabled(s, c)
    ensures var s' := Advance(s, c);
            var pc' := s'.calls[c].pc;
            && s'.readers == (if HoldsRead(pc') then s.readers + {c} else s.readers - {c})
            && s'.writer == (if HoldsWrite(pc') then Some(c) else if s.writer == Some(c) then None else s.writer)
            && (HoldsRead(pc') ==> s.writer == None)
            && (HoldsWrite(pc') ==> s.readers == {} && (s.writer == None || s.writer == Some(c)))
  {
    var pc := s.calls[c].pc;
    assert c in s.readers <==> HoldsRead(pc);
    assert s.writer == Some(c) <==> HoldsWrite(pc);
  }

  lemma LockKept(s: State, c: CallId)
    requires LockInv(s) && c in s.calls && Enabled(s, c)
    ensures LockInv(Advance(s, c)) && Advance(s, c).calls.Keys == s.calls.Keys
  {
    OthersStay(s, c);
    OwnLock(s, c);
    hide Advance, Enabled;
  }

  lemma RegistryKept(s: State, c: CallId)
    requires RegistryInv(s) && c in s.calls && Enabled(s, c) && CallInv(s, c)
    ensures RegistryInv(Advance(s, c))
    ensures forall p :: p in s.detectors ==>
              p in Advance(s, c).detectors && Advance(s, c).detectors[p] == s.detectors[p]
  {
    RegistryStep(s, c);
    hide Advance, Enabled;
  }

  /** Only the creating step touches the registry. */
  lemma RegistryStep(s: State, c: CallId)
    requires c in s.calls && Enabled(s, c)
    ensures var s', pool := Advance(s, c), s.calls[c].pool;
            if s.calls[c].pc == Checked(false)
            then s'.detectors == s.detectors[pool := |s.made|] && s'.made == s.made + [pool]
                 && |s'.logs| == |s.logs| + 1
            else s'.detectors == s.detectors && s'.made == s.made && |s'.logs| == |s.logs|
  {
  }

  lemma CallKept(s: State, c: CallId, c': CallId)
    requires LockInv(s) && RegistryInv(s) && c in s.calls && Enabled(s, c) && c' in s.calls
    requires CallInv(s, c) && CallInv(s, c')
    ensures c' in Advance(s, c).calls && CallInv(Advance(s, c), c')
  {
    OthersStay(s, c);
    if c' == c {
      OwnCallKept(s, c);
    } else {
      RegistryKept(s, c);
      OnlyWriterCreates(s, c);
      hide Advance, RegistryInv;
    }
  }

  lemma OnlyWriterCreates(s: State, c: CallId)
    requires LockInv(s) && c in s.calls && Enabled(s, c)
    ensures s.writer != Some(c) ==> Advance(s, c).detectors == s.detectors
  {
    assert s.writer == Some(c) <==> HoldsWrite(s.calls[c].pc);
  }

  lemma OwnCallKept(s: State, c: CallId)
    requires c in s.calls && Enabled(s, c) && CallInv(s, c)
    ensures c in Advance(s, c).calls && CallInv(Advance(s, c), c)
  {
  }

  lemma QuietStep(s: State, c: CallId)
    requires c in s.calls && Enabled(s, c) && !s.calls[c].pc.Recording?
    ensures var s' := Advance(s, c);
            && s'.panicked == s.panicked
            && (s'.logs == s.logs || s'.logs == s.logs + [[]])
            && s.calls[c].pc != Done && s'.calls[c].pc != Done
  {
  }

  /** Logs that gain nothing but an empty one stay right while no call finishes. */
  lemma QuietLogs(s: State, s': State)
    requires LogInv(s) && (s'.logs == s.logs || s'.logs == s.logs + [[]])
    requires s'.calls.Keys == s.calls.Keys
    requires forall c :: c in s.calls && (s.calls[c].pc == Done || s'.calls[c].pc == Done) ==> s'.calls[c] == s.calls[c]
    requires forall p :: p in s.detectors ==> Lookup(s', p) == Some(s.detectors[p])
    ensures LogInv(s')
  {
    forall d, i | 0 <= d < |s'.logs| && 0 <= i < |s'.logs[d]|
      ensures var c := s'.logs[d][i];
              c in s'.calls && s'.calls[c].pc == Done && Lookup(s', s'.calls[c].pool) == Some(d)
    {
      assert d < |s.logs| && s'.logs[d] == s.logs[d];
      var c := s.logs[d][i];
      assert s'.calls[c] == s.calls[c];
    }
    forall c | c in s'.calls && s'.calls[c].pc == Done
      ensures var d := Lookup(s', s'.calls[c].pool); d.Some? && d.value < |s'.logs| && c in s'.logs[d.value]
    {
      assert s'.calls[c] == s.calls[c];
      var d := Lookup(s, s.calls[c].pool);
      assert s'.logs[d.value] == s.logs[d.value];
    }
  }

  lemma LogsKept(s: State, c: CallId)
    requires Inv(s) && c in s.calls && Enabled(s, c)
    ensures LogInv(Advance(s, c)) && !Advance(s, c).panicked
  {
    hide RegistryInv, LockInv, CallInv, LogInv, Advance;
    if s.calls[c].pc.Recording? {
      RecordKeepsLogs(s, c);
    } else {
      OthersStay(s, c);
      assert CallInv(s, c);
      RegistryKept(s, c);
      QuietStep(s, c);
      QuietLogs(s, Advance(s, c));
    }
  }

  lemma RecordKeepsLogs(s: State, c: CallId)
    requires Inv(s) && c in s.calls && s.calls[c].pc.Recording?
    ensures !Advance(s, c).panicked && LogInv(Advance(s, c))
  {
    assert CallInv(s, c);
    var d, s' := s.calls[c].pc.d.value, Advance(s, c);
    assert c !in s.logs[d];
    forall c' | c' in s'.calls && s'.calls[c'].pc == Done
      ensures var d' := Lookup(s', s'.calls[c'].pool);
              d'.Some? && d'.value < |s'.logs| && c' in s'.logs[d'.value]
    {
      if c' == c {
        assert s'.logs[d][|s.logs[d]|] == c;
      } else {
        var d' := Lookup(s, s.calls[c'].pool);
        assert c' in s.logs[d'.value];
      }
    }
  }

  // ---- the laws ----

  lemma {:induction false} RunKeepsInv(run: seq<State>, events: seq<Event>, i: nat)
    requires IsRun(run, events) && i < |run|
    ensures Inv(run[i])
  {
    hide Next;
    if i > 0 {
      RunKeepsInv(run, events, i - 1);
      StepKeepsInv(run[i - 1], run[i], events[i - 1]);
    }
  }

  /** An installed detector is never replaced. */
  lemma {:induction false} NeverReplaced(run: seq<State>, events: seq<Event>, i: nat, j: nat, pool: Pool)
    requires IsRun(run, events) && i <= j < |run| && pool in run[i].detectors
    ensures pool in run[j].detectors && run[j].detectors[pool] == run[i].detectors[pool]
  {
    hide Inv, Next, Init;
    if i < j {
      NeverReplaced(run, events, i, j - 1, pool);
      RunKeepsInv(run, events, j - 1);
      StepKeepsInv(run[j - 1], run[j], events[j - 1]);
    }
  }

  /** A call keeps to the pool it was made for. */
  lemma {:induction false} CallKeepsPool(run: seq<State>, events: seq<Event>, j: nat, i: nat)
    requires IsRun(run, events) && j < i < |run| && events[j].Invoke?
    ensures events[j].c in run[i].calls && run[i].calls[events[j].c].pool == events[j].pool
  {
    assert Next(run[i - 1], run[i], events[i - 1]);
    if j < i - 1 {
      CallKeepsPool(run, events, j, i - 1);
    }
    hide IsRun;
  }

  /** However the calls interleave, at most one detector is ever made for a pool, no call
      dereferences a missing one, and every finished call is recorded exactly once: by the
      detector of its pool and by no other. */
  lemma OneDetectorRecordsAll(run: seq<State>, events: seq<Event>, i: nat)
    requires IsRun(run, events) && i < |run|
    ensures var s := run[i];
            && !s.panicked
            && (forall d, d' :: 0 <= d < d' < |s.made| ==> s.made[d] != s.made[d'])
            && |s.logs| == |s.made|
            && (forall c, d :: c in s.calls && 0 <= d < |s.made| ==>
                  multiset(s.logs[d])[c]
                  == if s.calls[c].pc == Done && s.made[d] == s.calls[c].pool then 1 else 0)
  {
    var s := run[i];
    RunKeepsInv(run, events, i);
    forall c, d | c in s.calls && 0 <= d < |s.made|
      ensures multiset(s.logs[d])[c] == if s.calls[c].pc == Done && s.made[d] == s.calls[c].pool then 1 else 0
    {
      if c in s.logs[d] {
        CountOfDistinct(s.logs[d], c);
      }
    }
  }
}
