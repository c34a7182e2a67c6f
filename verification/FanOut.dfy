/** The fan-out of scrub events under concurrent Append, Subscribe and Unsubscribe. Append
    writes the ring under `mu`, releases it and then takes `subMu` to offer the event to each
    subscriber in turn, so the order that subscribers see is the order of the fan-outs. */
module FanOut {
  import opened Prelude

  type ThreadId = nat
  type ChanId = nat
  type ScrubEvent = string

  const CAPACITY := 16

  datatype Phase = New | Active | Unlinked | Closed

  /** A channel. Beside what Go keeps (whether it is closed, its queue) the model records what
      the receiver has taken, and by index into the fan-outs: the first one that concerns the
      channel, how far it has been offered them, which it accepted, and which were lost
      together with the length of the queue at that moment. */
  datatype Chan = Chan(
    owner: ThreadId, phase: Phase, queue: seq<ScrubEvent>, taken: seq<ScrubEvent>,
    since: nat, seen: nat, got: seq<nat>, lost: map<nat, nat>)

  datatype Pc =
    // Append
    | Storing(ev: ScrubEvent)
    | InRing(ev: ScrubEvent)     // holds mu
    | Stored(ev: ScrubEvent)     // has written its slot, still holds mu
    | Ready(ev: ScrubEvent)      // released mu
    | Fanning(ev: ScrubEvent, i: nat)  // holds subMu, about to offer to subs[i]
    | Appended(ev: ScrubEvent)
    // Subscribe
    | Making(ch: ChanId)
    | Joining(ch: ChanId)        // holds subMu
    | Joined(ch: ChanId)         // is in subs, still holds subMu
    | Member(ch: ChanId)
    // Unsubscribe, which anyone may call for any channel any number of times
    | Quitting(ch: ChanId)
    | Scanning(ch: ChanId)       // holds subMu
    | Leaving(ch: ChanId)        // found and removed it, still holds subMu
    | Finishing(ch: ChanId)       // closed it or did not find it, still holds subMu
    | Out(ch: ChanId)

  datatype State = State(
    threads: map<ThreadId, Pc>,
    chans: seq<Chan>,
    subs: seq<ChanId>,
    mu: Option<ThreadId>, subMu: Option<ThreadId>,
    ring: seq<ScrubEvent>, writers: seq<ThreadId>,  // in the order of writing: the events, and whose they are
    fan: seq<ScrubEvent>, fanners: seq<ThreadId>,   // in the order of the fan-outs: the same
    panicked: bool)         // a send on, or a second close of, a closed channel

  ghost predicate Init(s: State) { s == State(map[], [], [], None, None, [], [], [], [], false) }

  function At(s: State, t: ThreadId, pc: Pc): State { s.(threads := s.threads[t := pc]) }

  predicate HoldsMu(pc: Pc) { pc.InRing? || pc.Stored? }
  predicate HoldsSub(pc: Pc) {
    pc.Fanning? || pc.Joining? || pc.Joined? || pc.Scanning? || pc.Leaving? || pc.Finishing?
  }

  predicate Enabled(s: State, t: ThreadId)
    requires t in s.threads
  {
    match s.threads[t]
    case Storing(_) => s.mu == None
    case Ready(_) => s.subMu == None
    case Making(_) => s.subMu == None
    case Quitting(_) => s.subMu == None
    case Appended(_) => false
    case Member(_) => false
    case Out(_) => false
    case _ => true
  }

  function Advance(s: State, t: ThreadId): State
    requires t in s.threads && Enabled(s, t)
  {
    match s.threads[t]
    case Storing(ev) => At(s, t, InRing(ev)).(mu := Some(t))
    case InRing(ev) => At(s, t, Stored(ev)).(ring := s.ring + [ev], writers := s.writers + [t])
    case Stored(ev) => At(s, t, Ready(ev)).(mu := None)
    case Ready(ev) => At(s, t, Fanning(ev, 0)).(subMu := Some(t), fan := s.fan + [ev], fanners := s.fanners + [t])
    case Fanning(ev, i) =>
      if i < |s.subs| then At(Offer(s, s.subs[i], ev), t, Fanning(ev, i + 1))
      else At(s, t, Appended(ev)).(subMu := None)
    case Making(ch) => At(s, t, Joining(ch)).(subMu := Some(t))
    case Joining(ch) => At(Join(s, ch), t, Joined(ch)).(subs := s.subs + [ch])
    case Joined(ch) => At(s, t, Member(ch)).(subMu := None)
    case Quitting(ch) => At(s, t, Scanning(ch)).(subMu := Some(t))
    case Scanning(ch) =>
      if ch in s.subs then At(Unlink(s, ch), t, Leaving(ch)).(subs := Without(s.subs, ch))
      else At(s, t, Finishing(ch))
    case Leaving(ch) => At(Close(s, ch), t, Finishing(ch))
    case Finishing(ch) => At(s, t, Out(ch)).(subMu := None)
  }

  function Update(s: State, ch: ChanId, c: Chan): State
    requires ch < |s.chans|
  {
    s.(chans := s.chans[ch := c])
  }

  /** A subscriber is offered the event of the latest fan-out, and loses it if its queue is full. */
  function Offer(s: State, ch: ChanId, ev: ScrubEvent): State {
    if ch >= |s.chans| || s.chans[ch].phase == Closed || s.fan == [] then s.(panicked := true) else
    var c, k := s.chans[ch], |s.fan| - 1;
    if |c.queue| < CAPACITY then Update(s, ch, c.(queue := c.queue + [ev], got := c.got + [k], seen := k + 1))
    else Update(s, ch, c.(lost := c.lost[k := |c.queue|], seen := k + 1))
  }

  function Join(s: State, ch: ChanId): State {
    if ch >= |s.chans| then s else
    Update(s, ch, s.chans[ch].(phase := Active, since := |s.fan|, seen := |s.fan|))
  }

  function Unlink(s: State, ch: ChanId): State {
    if ch >= |s.chans| then s else Update(s, ch, s.chans[ch].(phase := Unlinked))
  }

  function Close(s: State, ch: ChanId): State {
    if ch >= |s.chans| || s.chans[ch].phase == Closed then s.(panicked := true)
    else Update(s, ch, s.chans[ch].(phase := Closed))
  }

  /** Removes the first occurrence, keeping the order of the rest. */
  function Without(subs: seq<ChanId>, ch: ChanId): seq<ChanId> {
    if subs == [] then [] else if subs[0] == ch then subs[1..] else [subs[0]] + Without(subs[1..], ch)
  }

  datatype Event =
    | Append(t: ThreadId, ev: ScrubEvent)
    | Subscribe(t: ThreadId)
    | Unsubscribe(t: ThreadId, ch: ChanId)
    | Receive(ch: ChanId)
    | Step(t: ThreadId)

  ghost predicate Next(s: State, s': State, e: Event) {
    match e
    case Append(t, ev) => t !in s.threads && s' == At(s, t, Storing(ev))
    case Subscribe(t) =>
      && t !in s.threads
      && s' == At(s, t, Making(|s.chans|)).(chans := s.chans + [Chan(t, New, [], [], 0, 0, [], map[])])
    case Unsubscribe(t, ch) =>  // the caller has the channel from a Subscribe that returned
      && t !in s.threads && ch < |s.chans|
      && s.chans[ch].owner in s.threads && s.threads[s.chans[ch].owner].Member?
      && s' == At(s, t, Quitting(ch))
    case Receive(ch) =>
      && ch < |s.chans| && s.chans[ch].queue != []
      && var c := s.chans[ch];
      && s' == Update(s, ch, c.(queue := c.queue[1..], taken := c.taken + [c.queue[0]]))
    case Step(t) => t in s.threads && Enabled(s, t) && s' == Advance(s, t)
  }

  ghost predicate IsRun(run: seq<State>, events: seq<Event>) {
    && |run| == |events| + 1 && Init(run[0])
    && forall i :: 0 <= i < |events| ==> Next(run[i], run[i + 1], events[i])
  }

  // ---- the invariant ----

  ghost predicate LockInv(s: State) {
    && (forall t :: t in s.threads && HoldsMu(s.threads[t]) <==> s.mu == Some(t))
    && (forall t :: t in s.threads && HoldsSub(s.threads[t]) <==> s.subMu == Some(t))
  }

  /** The account of one channel: accepted and lost fan-outs make up all it was offered, in
      order; the accepted ones are what was taken and what is queued; a loss met a full queue. */
  ghost predicate Account(c: Chan, fan: seq<ScrubEvent>) {
    && c.since <= c.seen <= |fan|
    && (forall k :: 0 <= k < |c.got| ==> c.since <= c.got[k] < c.seen)
    && (forall k, l :: 0 <= k < l < |c.got| ==> c.got[k] < c.got[l])
    && (forall j :: c.since <= j < c.seen ==> (j in c.got <==> j !in c.lost))
    && (forall j :: j in c.lost ==> c.since <= j < c.seen && c.lost[j] == CAPACITY)
    && |c.queue| <= CAPACITY
    && |c.taken| + |c.queue| == |c.got|
    && (forall k :: 0 <= k < |c.got| ==> (c.taken + c.queue)[k] == fan[c.got[k]])
  }

  ghost predicate ChanInv(s: State, ch: ChanId)
    requires ch < |s.chans|
  {
    && RecordKept(s, ch)
    && OwnerInv(s, ch)
  }

  ghost predicate RecordKept(s: State, ch: ChanId) {
    && ch < |s.chans| && Account(s.chans[ch], s.fan)
    && (s.chans[ch].phase == New ==> s.chans[ch].seen == 0 && s.chans[ch].got == [])
  }

  /** A channel's phase says where its owner is, and whether it is subscribed. */
  ghost predicate OwnerInv(s: State, ch: ChanId)
    requires ch < |s.chans|
  {
    var c := s.chans[ch];
    && (c.phase == Active <==> ch in s.subs)
    && c.owner in s.threads
    && var pc := s.threads[c.owner];
    && (pc == Making(ch) || pc == Joining(ch) || pc == Joined(ch) || pc == Member(ch))
    && (c.phase == New <==> pc == Making(ch) || pc == Joining(ch))
  }

  /** How far the fan-out under way, if any, has gone through the subscribers. */
  ghost function Offered(s: State): nat {
    if s.subMu.Some? && s.subMu.value in s.threads && s.threads[s.subMu.value].Fanning?
    then s.threads[s.subMu.value].i else |s.subs|
  }

  ghost predicate SubsInv(s: State) {
    && (forall i :: 0 <= i < |s.subs| ==> s.subs[i] < |s.chans|)
    && (forall i, j :: 0 <= i < j < |s.subs| ==> s.subs[i] != s.subs[j])
    && (forall i :: 0 <= i < |s.subs| ==>
          s.chans[s.subs[i]].seen == if i < Offered(s) then |s.fan| else |s.fan| - 1)
    && Offered(s) <= |s.subs|
  }

  ghost predicate ThreadInv(s: State, t: ThreadId)
    requires t in s.threads
  {
    match s.threads[t]
    case Fanning(ev, i) => s.fan != [] && s.fan[|s.fan| - 1] == ev
    case Making(ch) => ch < |s.chans| && s.chans[ch].owner == t
    case Joining(ch) => ch < |s.chans| && s.chans[ch].owner == t
    case Joined(ch) => ch < |s.chans| && s.chans[ch].owner == t
    case Member(ch) => ch < |s.chans| && s.chans[ch].owner == t
    case Quitting(ch) => ch < |s.chans| && s.chans[ch].phase != New
    case Scanning(ch) => ch < |s.chans| && s.chans[ch].phase != New
    case Leaving(ch) => ch < |s.chans| && s.chans[ch].phase == Unlinked
    case _ => true
  }

  ghost predicate Inv(s: State) {
    && !s.panicked && LockInv(s) && SubsInv(s)
    && (forall ch :: 0 <= ch < |s.chans| ==> ChanInv(s, ch))
    && (forall t :: t in s.threads ==> ThreadInv(s, t))
  }

  // ---- one step keeps it ----

  lemma OthersStay(s: State, t: ThreadId)
    requires t in s.threads && Enabled(s, t)
    ensures var s' := Advance(s, t);
            && s'.threads.Keys == s.threads.Keys
            && (forall t' :: t' in s.threads && t' != t ==> s'.threads[t'] == s.threads[t'])
            && |s'.chans| == |s.chans|
            && (forall ch :: 0 <= ch < |s.chans| ==> s'.chans[ch].owner == s.chans[ch].owner)
  {
    hide *;
    ThreadsStay(s, t);
    OwnersStay(s, t);
  }

  lemma ThreadsStay(s: State, t: ThreadId)
    requires t in s.threads && Enabled(s, t)
    ensures var s' := Advance(s, t);
            && s'.threads.Keys == s.threads.Keys
            && (forall t' :: t' in s.threads && t' != t ==> s'.threads[t'] == s.threads[t'])
  {
  }

  lemma OwnersStay(s: State, t: ThreadId)
    requires t in s.threads && Enabled(s, t)
    ensures var s' := Advance(s, t);
            && |s'.chans| == |s.chans|
            && (forall ch :: 0 <= ch < |s.chans| ==> s'.chans[ch].owner == s.chans[ch].owner)
  {
  }

  lemma OwnLocks(s: State, t: ThreadId)
    requires LockInv(s) && t in s.threads && Enabled(s, t)
    ensures var s' := Advance(s, t);
            var pc' := s'.threads[t];
            && s'.mu == (if HoldsMu(pc') then Some(t) else if s.mu == Some(t) then None else s.mu)
            && s'.subMu == (if HoldsSub(pc') then Some(t) else if s.subMu == Some(t) then None else s.subMu)
            && (HoldsMu(pc') ==> s.mu == None || s.mu == Some(t))
            && (HoldsSub(pc') ==> s.subMu == None || s.subMu == Some(t))
  {
    assert s.mu == Some(t) <==> HoldsMu(s.threads[t]);
    assert s.subMu == Some(t) <==> HoldsSub(s.threads[t]);
  }

  lemma LockKept(s: State, t: ThreadId)
    requires LockInv(s) && t in s.threads && Enabled(s, t)
    ensures LockInv(Advance(s, t))
  {
    OthersStay(s, t);
    OwnLocks(s, t);
    hide Advance, Enabled;
  }

  lemma WithoutKeeps(subs: seq<ChanId>, ch: ChanId)
    requires forall i, j :: 0 <= i < j < |subs| ==> subs[i] != subs[j]
    ensures var r := Without(subs, ch);
            && (forall i, j :: 0 <= i < j < |r| ==> r[i] != r[j])
            && (forall c :: c in r <==> c in subs && c != ch)
  {
    if subs != [] {
      var rest := subs[1..];
      assert subs == [subs[0]] + rest && subs[0] !in rest;
      if subs[0] != ch {
        WithoutKeeps(rest, ch);
        var r := Without(rest, ch);
        assert subs[0] !in r;
        assert forall c :: c in [subs[0]] + r <==> c == subs[0] || c in r;
      }
    }
  }

  /** An accepted offer. */
  lemma AcceptKeepsAccount(c: Chan, fan: seq<ScrubEvent>)
    requires fan != [] && Account(c, fan) && c.seen == |fan| - 1 && |c.queue| < CAPACITY
    ensures var k := |fan| - 1;
            Account(c.(queue := c.queue + [fan[k]], got := c.got + [k], seen := k + 1), fan)
  {
    var k := |fan| - 1;
    var c' := c.(queue := c.queue + [fan[k]], got := c.got + [k], seen := k + 1);
    assert c'.taken + c'.queue == (c.taken + c.queue) + [fan[k]];
    assert forall j :: j in c'.got <==> j in c.got || j == k;
  }

  lemma LossKeepsAccount(c: Chan, fan: seq<ScrubEvent>)
    requires fan != [] && Account(c, fan) && c.seen == |fan| - 1 && |c.queue| >= CAPACITY
    ensures var k := |fan| - 1;
            Account(c.(lost := c.lost[k := |c.queue|], seen := k + 1), fan)
  {
  }

  lemma ReceiveKeepsAccount(c: Chan, fan: seq<ScrubEvent>)
    requires Account(c, fan) && c.queue != []
    ensures Account(c.(queue := c.queue[1..], taken := c.taken + [c.queue[0]]), fan)
  {
    assert c.taken + [c.queue[0]] + c.queue[1..] == c.taken + c.queue;
  }

  lemma JoinKeepsAccount(c: Chan, fan: seq<ScrubEvent>)
    requires Account(c, fan) && c.seen == 0 && c.got == []
    ensures Account(c.(phase := Active, since := |fan|, seen := |fan|), fan)
  {
  }

  lemma FanKeepsAccount(c: Chan, fan: seq<ScrubEvent>, ev: ScrubEvent)
    requires Account(c, fan)
    ensures Account(c, fan + [ev])
  {
  }

  /** What a step does to a channel's own record. */
  lemma ChanStep(s: State, t: ThreadId, ch: ChanId)
    requires Inv(s) && t in s.threads && Enabled(s, t) && ch < |s.chans|
    ensures RecordKept(Advance(s, t), ch)
  {
    assert ChanInv(s, ch);
    hide ChanInv, LockInv, SubsInv, ThreadInv, Account, Advance;
    match s.threads[t]
    case Ready(ev) => ReadyStep(s, t, ch);
    case Fanning(ev, i) => FanningStep(s, t, ch);
    case Joining(ch') => JoiningStep(s, t, ch);
    case _ => SameAccount(s, t, ch);
  }

  lemma ReadyStep(s: State, t: ThreadId, ch: ChanId)
    requires t in s.threads && Enabled(s, t) && s.threads[t].Ready? && RecordKept(s, ch)
    ensures RecordKept(Advance(s, t), ch)
  {
    hide Account;
    FanKeepsAccount(s.chans[ch], s.fan, s.threads[t].ev);
  }

  /** What an offer, and the end of the loop, do to a channel. */
  lemma OfferStep(s: State, t: ThreadId, ch: ChanId)
    requires t in s.threads && Enabled(s, t) && s.threads[t].Fanning? && ch < |s.chans| && s.fan != []
    requires forall i :: 0 <= i < |s.subs| ==> s.subs[i] < |s.chans| && s.chans[s.subs[i]].phase != Closed
    ensures var s', c, k, pc := Advance(s, t), s.chans[ch], |s.fan| - 1, s.threads[t];
            && |s'.chans| == |s.chans| && s'.fan == s.fan
            && s'.chans[ch]
               == if pc.i >= |s.subs| || s.subs[pc.i] != ch then c
                  else if |c.queue| < CAPACITY then c.(queue := c.queue + [pc.ev], got := c.got + [k], seen := k + 1)
                  else c.(lost := c.lost[k := |c.queue|], seen := k + 1)
  {
  }

  lemma SubsAreActive(s: State, t: ThreadId)
    requires Inv(s) && t in s.threads && s.threads[t].Fanning?
    ensures s.fan != []
    ensures forall i :: 0 <= i < |s.subs| ==> s.subs[i] < |s.chans| && s.chans[s.subs[i]].phase == Active
  {
    assert ThreadInv(s, t);
    forall i | 0 <= i < |s.subs| ensures s.subs[i] < |s.chans| && s.chans[s.subs[i]].phase == Active {
      assert ChanInv(s, s.subs[i]);
    }
  }

  lemma FanningStep(s: State, t: ThreadId, ch: ChanId)
    requires Inv(s) && t in s.threads && Enabled(s, t) && s.threads[t].Fanning? && RecordKept(s, ch)
    ensures RecordKept(Advance(s, t), ch)
  {
    SubsAreActive(s, t);
    OfferStep(s, t, ch);
    hide Advance, Enabled, Inv, Account;
    var c, i := s.chans[ch], s.threads[t].i;
    if i < |s.subs| && s.subs[i] == ch {
      OfferedIsActive(s, t, ch);
      if |c.queue| < CAPACITY {
        AcceptKeepsAccount(c, s.fan);
      } else {
        LossKeepsAccount(c, s.fan);
      }
    }
  }

  lemma JoiningStep(s: State, t: ThreadId, ch: ChanId)
    requires Inv(s) && t in s.threads && Enabled(s, t) && s.threads[t].Joining? && RecordKept(s, ch)
    ensures RecordKept(Advance(s, t), ch)
  {
    if s.threads[t].ch == ch {
      JoiningIsNew(s, t, ch);
      hide Account, Inv;
      JoinKeepsAccount(s.chans[ch], s.fan);
    }
  }

  lemma SameAccount(s: State, t: ThreadId, ch: ChanId)
    requires t in s.threads && Enabled(s, t) && RecordKept(s, ch)
    requires !s.threads[t].Ready? && !s.threads[t].Fanning? && !s.threads[t].Joining?
    ensures RecordKept(Advance(s, t), ch)
  {
    hide Account;
    OnlyPhase(s, t, ch);
    AccountIgnoresPhase(s.chans[ch], Advance(s, t).chans[ch].phase, s.fan);
    hide Advance;
  }

  lemma OnlyPhase(s: State, t: ThreadId, ch: ChanId)
    requires t in s.threads && Enabled(s, t) && ch < |s.chans|
    requires !s.threads[t].Ready? && !s.threads[t].Fanning? && !s.threads[t].Joining?
    ensures var s' := Advance(s, t);
            && |s'.chans| == |s.chans| && s'.fan == s.fan
            && s'.chans[ch] == s.chans[ch].(phase := s'.chans[ch].phase)
            && (s'.chans[ch].phase == New ==> s.chans[ch].phase == New)
  {
  }

  lemma AccountIgnoresPhase(c: Chan, phase: Phase, fan: seq<ScrubEvent>)
    requires Account(c, fan)
    ensures Account(c.(phase := phase), fan)
  {
  }

  lemma OfferedIsActive(s: State, t: ThreadId, ch: ChanId)
    requires Inv(s) && t in s.threads && s.threads[t].Fanning? && ch < |s.chans|
    requires s.threads[t].i < |s.subs| && s.subs[s.threads[t].i] == ch
    ensures s.chans[ch].phase == Active && s.fan != [] && s.chans[ch].seen == |s.fan| - 1
    ensures s.threads[t].ev == s.fan[|s.fan| - 1]
  {
    assert ChanInv(s, ch) && ThreadInv(s, t);
    assert s.subMu == Some(t);
    assert Offered(s) == s.threads[t].i;
  }

  lemma JoiningIsNew(s: State, t: ThreadId, ch: ChanId)
    requires Inv(s) && t in s.threads && s.threads[t] == Joining(ch) && ch < |s.chans|
    ensures s.chans[ch].phase == New && s.chans[ch].seen == 0 && s.chans[ch].got == [] && ch !in s.subs
  {
    assert ThreadInv(s, t) && ChanInv(s, ch);
  }

  /** Who may change which channel's phase, and how. */
  lemma PhaseStep(s: State, t: ThreadId, ch: ChanId)
    requires t in s.threads && Enabled(s, t) && ch < |s.chans|
    requires s.threads[t].Scanning? ==> forall i, j :: 0 <= i < j < |s.subs| ==> s.subs[i] != s.subs[j]
    ensures var s' := Advance(s, t);
            && |s'.chans| == |s.chans|
            && match s.threads[t] {
                 case Joining(c) => s'.chans[ch].phase == (if c == ch then Active else s.chans[ch].phase)
                                    && s'.subs == s.subs + [c]
                 case Scanning(c) => s'.chans[ch].phase ==
                                    (if c == ch && ch in s.subs then Unlinked else s.chans[ch].phase)
                                     && forall x :: x in s'.subs <==> x in s.subs && x != c
                 case Leaving(c) => s'.chans[ch].phase == (if c == ch then Closed else s.chans[ch].phase)
                                    && s'.subs == s.subs
                 case _ => s'.chans[ch].phase == s.chans[ch].phase && s'.subs == s.subs
               }
  {
    if s.threads[t].Scanning? {
      WithoutKeeps(s.subs, s.threads[t].ch);
    }
  }

  lemma ChanKept(s: State, t: ThreadId, ch: ChanId)
    requires Inv(s) && t in s.threads && Enabled(s, t) && ch < |s.chans|
    ensures ch < |Advance(s, t).chans| && ChanInv(Advance(s, t), ch)
  {
    ChanStep(s, t, ch);
    OwnerKept(s, t, ch);
    hide Advance, Account, OwnerInv;
  }

  lemma OwnerKept(s: State, t: ThreadId, ch: ChanId)
    requires Inv(s) && t in s.threads && Enabled(s, t) && ch < |s.chans|
    ensures ch < |Advance(s, t).chans| && OwnerInv(Advance(s, t), ch)
  {
    assert ChanInv(s, ch) && ThreadInv(s, t);
    OthersStay(s, t);
    PhaseStep(s, t, ch);
    OwnerMoves(s, t);
    assert OwnerInv(s, ch);
    hide *;
    OwnerFollows(s, Advance(s, t), t, ch);
  }

  /** What the lemmas about a step say of a channel and its owner. */
  lemma OwnerFollows(s: State, s': State, t: ThreadId, ch: ChanId)
    requires t in s.threads && ch < |s.chans| == |s'.chans| && OwnerInv(s, ch) && ThreadInv(s, t)
    requires s'.threads.Keys == s.threads.Keys && s'.chans[ch].owner == s.chans[ch].owner
    requires forall t' :: t' in s.threads && t' != t ==> s'.threads[t'] == s.threads[t']
    requires var pc, pc' := s.threads[t], s'.threads[t];
             && (forall c :: pc == Making(c) ==> pc' == Joining(c))
             && (forall c :: pc == Joining(c) ==> pc' == Joined(c))
             && (forall c :: pc == Joined(c) ==> pc' == Member(c)) && !pc.Member?
    requires match s.threads[t] {
               case Joining(c) => s'.chans[ch].phase == (if c == ch then Active else s.chans[ch].phase)
                                  && s'.subs == s.subs + [c]
               case Scanning(c) => s'.chans[ch].phase
                                   == (if c == ch && ch in s.subs then Unlinked else s.chans[ch].phase)
                                   && forall x :: x in s'.subs <==> x in s.subs && x != c
               case Leaving(c) => s'.chans[ch].phase == (if c == ch then Closed else s.chans[ch].phase)
                                  && s'.subs == s.subs
               case _ => s'.chans[ch].phase == s.chans[ch].phase && s'.subs == s.subs
             }
    ensures OwnerInv(s', ch)
  {
  }

  /** Where a thread can have come from: it keeps its channel or event all the way. */
  lemma OwnerMoves(s: State, t: ThreadId)
    requires t in s.threads && Enabled(s, t)
    ensures var pc, pc' := s.threads[t], Advance(s, t).threads[t];
            && (forall ch :: pc == Making(ch) ==> pc' == Joining(ch))
            && (forall ch :: pc == Joining(ch) ==> pc' == Joined(ch))
            && (forall ch :: pc == Joined(ch) ==> pc' == Member(ch))
            && !pc.Member? && !pc'.Making?
            && (pc'.Joining? ==> pc == Making(pc'.ch)) && (pc'.Joined? ==> pc == Joining(pc'.ch))
            && (pc'.Member? ==> pc == Joined(pc'.ch))
            && (pc'.Scanning? ==> pc == Quitting(pc'.ch)) && !pc'.Quitting?
            && (pc'.Leaving? ==> pc == Scanning(pc'.ch) && pc'.ch in s.subs)
            && (pc'.Fanning? ==> (pc.Fanning? && pc.ev == pc'.ev && Advance(s, t).fan == s.fan)
                                 || (pc == Ready(pc'.ev) && Advance(s, t).fan == s.fan + [pc'.ev]))
  {
  }

  /** Without the lock a thread neither changes the subscribers nor offers them anything. */
  lemma NotLocked(s: State, t: ThreadId)
    requires t in s.threads && Enabled(s, t) && !HoldsSub(s.threads[t]) && !s.threads[t].Ready?
    ensures var s' := Advance(s, t);
            s'.subs == s.subs && s'.fan == s.fan && s'.chans == s.chans && s'.panicked == s.panicked
  {
  }

  lemma SubsKept(s: State, t: ThreadId)
    requires Inv(s) && t in s.threads && Enabled(s, t)
    ensures SubsInv(Advance(s, t))
  {
    match s.threads[t]
    case Fanning(ev, i) => FanningKeepsSubs(s, t);
    case Joining(ch) => JoiningKeepsSubs(s, t);
    case Scanning(ch) => ScanningKeepsSubs(s, t);
    case Ready(ev) => ReadyKeepsSubs(s, t);
    case Leaving(ch) => LeavingKeepsSubs(s, t);
    case _ => QuietKeepsSubs(s, t);
    hide Advance, Enabled, SubsInv;
  }

  lemma JoiningKeepsSubs(s: State, t: ThreadId)
    requires Inv(s) && t in s.threads && Enabled(s, t) && s.threads[t].Joining?
    ensures SubsInv(Advance(s, t))
  {
    assert ThreadInv(s, t);
    var ch, s' := s.threads[t].ch, Advance(s, t);
    JoiningIsNew(s, t, ch);
    assert s.subMu == Some(t) && Offered(s) == |s.subs| && Offered(s') == |s'.subs|;
  }

  lemma FanningKeepsSubs(s: State, t: ThreadId)
    requires Inv(s) && t in s.threads && Enabled(s, t) && s.threads[t].Fanning?
    ensures SubsInv(Advance(s, t)) && !Advance(s, t).panicked
  {
    assert s.subMu == Some(t) && Offered(s) == s.threads[t].i;
    var i, s' := s.threads[t].i, Advance(s, t);
    if i < |s.subs| {
      OfferedIsActive(s, t, s.subs[i]);
      assert s'.subs == s.subs && Offered(s') == i + 1;
      assert forall k :: 0 <= k < |s.subs| && k != i ==> s'.chans[s.subs[k]] == s.chans[s.subs[k]];
    } else {
      assert Offered(s') == |s'.subs|;
    }
  }

  lemma ReadyKeepsSubs(s: State, t: ThreadId)
    requires SubsInv(s) && t in s.threads && Enabled(s, t) && s.threads[t].Ready?
    ensures SubsInv(Advance(s, t))
  {
    assert Offered(s) == |s.subs| && Offered(Advance(s, t)) == 0;
  }

  lemma ScanningKeepsSubs(s: State, t: ThreadId)
    requires LockInv(s) && SubsInv(s) && t in s.threads && Enabled(s, t) && s.threads[t].Scanning?
    ensures SubsInv(Advance(s, t))
  {
    var ch, s' := s.threads[t].ch, Advance(s, t);
    assert s.subMu == Some(t) && Offered(s) == |s.subs| && Offered(s') == |s'.subs|;
    if ch in s.subs {
      WithoutKeeps(s.subs, ch);
      forall i | 0 <= i < |s'.subs|
        ensures s'.subs[i] < |s'.chans| && s'.chans[s'.subs[i]].seen == |s'.fan|
      {
        assert s'.subs[i] in s'.subs;
      }
    }
  }

  lemma LeavingKeepsSubs(s: State, t: ThreadId)
    requires LockInv(s) && SubsInv(s) && t in s.threads && Enabled(s, t) && s.threads[t].Leaving?
    ensures SubsInv(Advance(s, t))
  {
    assert s.subMu == Some(t) && Offered(s) == |s.subs| && Offered(Advance(s, t)) == |s.subs|;
  }

  lemma QuietKeepsSubs(s: State, t: ThreadId)
    requires LockInv(s) && SubsInv(s) && t in s.threads && Enabled(s, t)
    requires var pc := s.threads[t];
             !pc.Fanning? && !pc.Joining? && !pc.Scanning? && !pc.Ready? && !pc.Leaving?
    ensures SubsInv(Advance(s, t))
  {
    OwnLocks(s, t);
    ThreadsStay(s, t);
    QuietStays(s, t);
    assert s.subMu == Some(t) <==> HoldsSub(s.threads[t]);
    hide Advance, Enabled, LockInv, SubsInv;
    assert Offered(Advance(s, t)) == Offered(s);
    OfferedAlike(s, Advance(s, t));
  }

  lemma QuietStays(s: State, t: ThreadId)
    requires t in s.threads && Enabled(s, t)
    requires var pc := s.threads[t];
             !pc.Fanning? && !pc.Joining? && !pc.Scanning? && !pc.Ready? && !pc.Leaving?
    ensures var s' := Advance(s, t);
            && s'.subs == s.subs && s'.fan == s.fan && s'.chans == s.chans
            && t in s'.threads && !s'.threads[t].Fanning?
  {
  }

  lemma OfferedAlike(s: State, s': State)
    requires SubsInv(s) && s'.subs == s.subs && s'.fan == s.fan && s'.chans == s.chans && Offered(s') == Offered(s)
    ensures SubsInv(s')
  {
    hide Offered;
  }

  lemma NoPanic(s: State, t: ThreadId)
    requires Inv(s) && t in s.threads && Enabled(s, t)
    ensures !Advance(s, t).panicked
  {
    assert ThreadInv(s, t);
    match s.threads[t]
    case Fanning(_, i) => FanningKeepsSubs(s, t);
    case _ =>
  }

  lemma ThreadKept(s: State, t: ThreadId, t': ThreadId)
    requires Inv(s) && t in s.threads && Enabled(s, t) && t' in s.threads
    ensures t' in Advance(s, t).threads && ThreadInv(Advance(s, t), t')
  {
    assert ThreadInv(s, t) && ThreadInv(s, t');
    OthersStay(s, t);
    if t == t' {
      OwnThreadKept(s, t);
    } else {
      OtherThreadKept(s, t, t');
    }
  }

  lemma OwnThreadKept(s: State, t: ThreadId)
    requires Inv(s) && t in s.threads && Enabled(s, t)
    ensures t in Advance(s, t).threads && ThreadInv(Advance(s, t), t)
  {
    assert ThreadInv(s, t);
    OthersStay(s, t);
    OwnerMoves(s, t);
    var pc' := Advance(s, t).threads[t];
    if pc'.Scanning? || pc'.Leaving? {
      PhaseStep(s, t, pc'.ch);
    }
    hide Advance, Inv, LockInv, SubsInv, ChanInv, Enabled;
  }

  lemma OtherThreadKept(s: State, t: ThreadId, t': ThreadId)
    requires Inv(s) && t in s.threads && Enabled(s, t) && t' in s.threads && t != t'
    ensures t' in Advance(s, t).threads && ThreadInv(Advance(s, t), t')
  {
    assert ThreadInv(s, t) && ThreadInv(s, t');
    assert s.subMu == Some(t) <==> HoldsSub(s.threads[t]);
    assert s.subMu == Some(t') <==> HoldsSub(s.threads[t']);
    OthersStay(s, t);
    if !HoldsSub(s.threads[t]) && !s.threads[t].Ready? {
      NotLocked(s, t);
      hide Advance, LockInv, SubsInv, ChanInv;
    } else {
      match s.threads[t'] {
        case Quitting(ch) => PhaseStep(s, t, ch);
        case _ =>
      }
      hide Advance, LockInv, SubsInv, ChanInv, Inv;
    }
  }

  lemma StepKeepsInv(s: State, s': State, t: ThreadId)
    requires Inv(s) && Next(s, s', Step(t))
    ensures Inv(s')
  {
    LockKept(s, t);
    SubsKept(s, t);
    NoPanic(s, t);
    OthersStay(s, t);
    forall ch | 0 <= ch < |s'.chans| ensures ChanInv(s', ch) {
      ChanKept(s, t, ch);
    }
    forall t' | t' in s'.threads ensures ThreadInv(s', t') {
      ThreadKept(s, t, t');
    }
    hide Advance, LockInv, SubsInv, ChanInv, ThreadInv, Enabled;
  }

  lemma NewAccount(t: ThreadId, fan: seq<ScrubEvent>)
    ensures Account(Chan(t, New, [], [], 0, 0, [], map[]), fan)
  {
  }

  /** A new thread, and for Subscribe its new channel, join the run. */
  lemma ArrivalKeepsInv(s: State, s': State, e: Event)
    requires Inv(s) && Next(s, s', e) && !e.Step? && !e.Receive?
    ensures Inv(s')
  {
    ArrivingChans(s, s', e);
    ArrivingThreads(s, s', e);
    ArrivingLocks(s, s', e);
    hide LockInv, SubsInv, ThreadInv, ChanInv;
  }

  lemma ArrivingLocks(s: State, s': State, e: Event)
    requires LockInv(s) && SubsInv(s) && Next(s, s', e) && !e.Step? && !e.Receive?
    ensures LockInv(s') && SubsInv(s')
  {
    assert Offered(s') == Offered(s);
  }

  lemma ArrivingChans(s: State, s': State, e: Event)
    requires Inv(s) && Next(s, s', e) && !e.Step? && !e.Receive?
    ensures forall ch :: 0 <= ch < |s'.chans| ==> ChanInv(s', ch)
  {
    hide Account, LockInv, ThreadInv;
    NewAccount(e.t, s.fan);
    forall ch | 0 <= ch < |s'.chans| ensures ChanInv(s', ch) {
      assert ch < |s.chans| ==> ChanInv(s, ch);
    }
  }

  lemma ArrivingThreads(s: State, s': State, e: Event)
    requires Inv(s) && Next(s, s', e) && !e.Step? && !e.Receive?
    ensures forall t :: t in s'.threads ==> ThreadInv(s', t)
  {
    hide Account, LockInv, SubsInv;
    forall t | t in s'.threads ensures ThreadInv(s', t) {
      assert t in s.threads ==> ThreadInv(s, t);
      assert e.Unsubscribe? ==> ChanInv(s, e.ch);
    }
  }

  lemma ReceiveKeepsInv(s: State, s': State, ch: ChanId)
    requires Inv(s) && Next(s, s', Receive(ch))
    ensures Inv(s')
  {
    hide Account;
    assert ChanInv(s, ch);
    ReceiveKeepsAccount(s.chans[ch], s.fan);
    forall ch' | 0 <= ch' < |s'.chans| ensures ChanInv(s', ch') {
      assert ChanInv(s, ch');
    }
    forall t | t in s'.threads ensures ThreadInv(s', t) {
      assert ThreadInv(s, t);
    }
    assert Offered(s') == Offered(s);
  }

  // ---- the laws ----

  lemma InitInv(s: State)
    requires Init(s)
    ensures Inv(s)
  {
  }

  lemma {:induction false} RunKeepsInv(run: seq<State>, events: seq<Event>, i: nat)
    requires IsRun(run, events) && i < |run|
    ensures Inv(run[i])
  {
    hide Next, Inv, Init;
    if i > 0 {
      RunKeepsInv(run, events, i - 1);
      match events[i - 1] {
        case Step(t) => StepKeepsInv(run[i - 1], run[i], t);
        case Receive(ch) => ReceiveKeepsInv(run[i - 1], run[i], ch);
        case e => ArrivalKeepsInv(run[i - 1], run[i], e);
      }
    } else {
      InitInv(run[0]);
    }
  }

  /** In every interleaving, even with repeated Unsubscribes of one channel, nothing is sent on
      a closed channel and no channel is closed twice. */
  lemma NeverPanics(run: seq<State>, events: seq<Event>, i: nat)
    requires IsRun(run, events) && i < |run|
    ensures !run[i].panicked
    ensures forall ch :: ch in run[i].subs ==> ch < |run[i].chans| && run[i].chans[ch].phase == Active
  {
    RunKeepsInv(run, events, i);
    forall ch | ch in run[i].subs ensures ch < |run[i].chans| && run[i].chans[ch].phase == Active {
      assert ChanInv(run[i], ch);
    }
  }

  /** What a subscriber has received and what is queued for it is an ordered subsequence of the
      fan-outs since it subscribed; at most sixteen are queued; a fan-out it was offered is
      missing exactly if it was lost, and then sixteen were queued. Between fan-outs a current
      subscriber has been offered them all. */
  lemma SubscriberAccount(run: seq<State>, events: seq<Event>, i: nat, ch: ChanId)
    requires IsRun(run, events) && i < |run| && ch < |run[i].chans|
    ensures var s := run[i];
            var c := s.chans[ch];
            && c.since <= c.seen <= |s.fan|
            && |c.queue| <= 16
            && |c.taken + c.queue| == |c.got|
            && (forall k :: 0 <= k < |c.got| ==>
                  c.since <= c.got[k] < c.seen && (c.taken + c.queue)[k] == s.fan[c.got[k]])
            && (forall k, l :: 0 <= k < l < |c.got| ==> c.got[k] < c.got[l])
            && (forall j :: c.since <= j < c.seen ==> (j !in c.got <==> j in c.lost))
            && (forall j :: j in c.lost ==> c.lost[j] == 16)
            && (ch in s.subs && s.subMu == None ==> c.seen == |s.fan|)
  {
    RunKeepsInv(run, events, i);
    assert ChanInv(run[i], ch);
    assert run[i].subMu == None ==> Offered(run[i]) == |run[i].subs|;
  }

  /** Any two subscribers agree on the order of the events that both accepted. */
  lemma SubscribersAgree(run: seq<State>, events: seq<Event>, i: nat, a: ChanId, b: ChanId,
                         k: nat, k': nat, l: nat, l': nat)
    requires IsRun(run, events) && i < |run| && a < |run[i].chans| && b < |run[i].chans|
    requires var ga, gb := run[i].chans[a].got, run[i].chans[b].got;
             && k < |ga| && k' < |ga| && l < |gb| && l' < |gb|
             && ga[k] == gb[l] && ga[k'] == gb[l']  // the same two fan-outs
    ensures k < k' <==> l < l'
  {
    SubscriberAccount(run, events, i, a);
    SubscriberAccount(run, events, i, b);
  }

  // ---- who leaves is closed ----

  /** A channel is out of subs and still open only between its removal and its closing, while
      the thread that does both holds subMu; who has finished with a channel has left it closed. */
  ghost predicate CloseInv(s: State) {
    && (forall ch :: 0 <= ch < |s.chans| && s.chans[ch].phase == Unlinked ==>
          s.subMu.Some? && s.subMu.value in s.threads && s.threads[s.subMu.value] == Leaving(ch))
    && (forall t :: t in s.threads && (s.threads[t].Finishing? || s.threads[t].Out?) ==>
          s.threads[t].ch < |s.chans| && s.chans[s.threads[t].ch].phase == Closed)
  }

  /** What a step may do to a channel's phase, and what it makes of the thread. */
  lemma CloseStep(s: State, t: ThreadId, ch: ChanId)
    requires t in s.threads && Enabled(s, t) && ch < |s.chans|
    ensures var s', pc := Advance(s, t), s.threads[t];
            && |s'.chans| == |s.chans| && t in s'.threads
            && var pc', old', new' := s'.threads[t], s.chans[ch].phase, s'.chans[ch].phase;
            && (new' == Unlinked ==> old' == Unlinked || (pc == Scanning(ch) && pc' == Leaving(ch)))
            && (pc == Leaving(ch) ==> new' == Closed && pc' == Finishing(ch))
            && (old' == Closed && !pc.Joining? && !pc.Scanning? ==> new' == Closed)
            && (old' == Closed && pc.Scanning? && ch !in s.subs ==> new' == Closed)
            && (old' == Closed && pc.Joining? && pc.ch != ch ==> new' == Closed)
            && (pc' == Finishing(ch) ==> pc == Leaving(ch) || (pc == Scanning(ch) && ch !in s.subs && new' == old'))
            && (pc' == Out(ch) ==> pc == Finishing(ch))
  {
  }

  /** The channel of the step, and the lock it leaves behind. */
  lemma CloseFrame(s: State, t: ThreadId)
    requires Inv(s) && t in s.threads && Enabled(s, t)
    ensures var pc, pc', s' := s.threads[t], Advance(s, t).threads[t], Advance(s, t);
            && (pc'.Finishing? ==> (pc.Leaving? || pc.Scanning?) && pc.ch == pc'.ch && pc.ch < |s.chans|)
            && (pc'.Out? ==> pc == Finishing(pc'.ch))
            && (pc'.Leaving? ==> s'.subMu == Some(t))
            && (HoldsSub(pc) ==> s.subMu == Some(t))
            && (!HoldsSub(pc) ==> s'.subMu == s.subMu || s.subMu == None)
            && (pc.Scanning? ==> pc.ch < |s.chans| && s.chans[pc.ch].phase != New)
  {
    assert ThreadInv(s, t);
    assert s.subMu == Some(t) <==> HoldsSub(s.threads[t]);
  }

  lemma StepKeepsClosed(s: State, t: ThreadId)
    requires Inv(s) && CloseInv(s) && t in s.threads && Enabled(s, t)
    ensures CloseInv(Advance(s, t))
  {
    var s' := Advance(s, t);
    OthersStay(s, t);
    forall ch | 0 <= ch < |s'.chans| && s'.chans[ch].phase == Unlinked
      ensures s'.subMu.Some? && s'.subMu.value in s'.threads && s'.threads[s'.subMu.value] == Leaving(ch)
    {
      UnlinkedIsLeaving(s, t, ch);
    }
    forall u | u in s'.threads && (s'.threads[u].Finishing? || s'.threads[u].Out?)
      ensures s'.threads[u].ch < |s'.chans| && s'.chans[s'.threads[u].ch].phase == Closed
    {
      FinishedIsClosed(s, t, u);
    }
    hide *;
  }

  lemma UnlinkedIsLeaving(s: State, t: ThreadId, ch: ChanId)
    requires Inv(s) && CloseInv(s) && t in s.threads && Enabled(s, t)
    requires ch < |s.chans| == |Advance(s, t).chans| && Advance(s, t).chans[ch].phase == Unlinked
    ensures var s' := Advance(s, t);
            s'.subMu.Some? && s'.subMu.value in s'.threads && s'.threads[s'.subMu.value] == Leaving(ch)
  {
    CloseStep(s, t, ch);
    CloseFrame(s, t);
    OthersStay(s, t);
    hide Advance, Enabled, Inv;
  }

  lemma FinishedIsClosed(s: State, t: ThreadId, u: ThreadId)
    requires Inv(s) && CloseInv(s) && t in s.threads && Enabled(s, t) && u in s.threads
    requires u in Advance(s, t).threads
    requires Advance(s, t).threads[u].Finishing? || Advance(s, t).threads[u].Out?
    ensures var s' := Advance(s, t);
            s'.threads[u].ch < |s'.chans| && s'.chans[s'.threads[u].ch].phase == Closed
  {
    CloseFrame(s, t);
    OthersStay(s, t);
    var ch := Advance(s, t).threads[u].ch;
    ActiveIsSubscribed(s);
    if ch < |s.chans| {
      CloseStep(s, t, ch);
      if s.threads[t] == Joining(ch) {
        JoiningIsNew(s, t, ch);
      }
    }
    hide Advance, Enabled, Inv;
  }

  lemma ActiveIsSubscribed(s: State)
    requires Inv(s)
    ensures forall ch :: 0 <= ch < |s.chans| ==> (s.chans[ch].phase == Active <==> ch in s.subs)
  {
    forall ch | 0 <= ch < |s.chans| ensures s.chans[ch].phase == Active <==> ch in s.subs {
      assert ChanInv(s, ch);
    }
  }

  lemma EventKeepsClosed(s: State, s': State, e: Event)
    requires Inv(s) && CloseInv(s) && Next(s, s', e)
    ensures CloseInv(s')
  {
    if e.Step? {
      hide Inv, CloseInv, Advance;
      StepKeepsClosed(s, e.t);
    } else {
      hide Inv, Advance, Enabled;
      ArrivalKeepsClosed(s, s');
    }
  }

  /** Arrivals and receivers change no channel's phase and close none. */
  lemma ArrivalKeepsClosed(s: State, s': State)
    requires CloseInv(s) && |s'.chans| >= |s.chans|
    requires forall ch :: 0 <= ch < |s.chans| ==> s'.chans[ch].phase == s.chans[ch].phase
    requires forall ch :: |s.chans| <= ch < |s'.chans| ==> s'.chans[ch].phase != Unlinked
    requires forall t :: t in s.threads ==> t in s'.threads && s'.threads[t] == s.threads[t]
    requires forall t :: t in s'.threads && t !in s.threads ==> !s'.threads[t].Finishing? && !s'.threads[t].Out?
    requires s'.subMu == s.subMu
    ensures CloseInv(s')
  {
  }

  lemma {:induction false} RunKeepsClosed(run: seq<State>, events: seq<Event>, i: nat)
    requires IsRun(run, events) && i < |run|
    ensures CloseInv(run[i])
  {
    if i > 0 {
      hide Next, Inv, CloseInv;
      RunKeepsClosed(run, events, i - 1);
      RunKeepsInv(run, events, i - 1);
      EventKeepsClosed(run[i - 1], run[i], events[i - 1]);
    }
  }

  /** In every interleaving: a channel whose Unsubscribe has returned is closed and not
      subscribed, so a receiver ranging over it ends; and whenever the lock is free, a channel
      whose Subscribe has returned is either subscribed and open, or closed, and never both. */
  lemma UnsubscribedIsClosed(run: seq<State>, events: seq<Event>, i: nat, t: ThreadId)
    requires IsRun(run, events) && i < |run| && t in run[i].threads
    ensures var s := run[i];
            match s.threads[t]
            case Out(ch) => ch < |s.chans| && s.chans[ch].phase == Closed && ch !in s.subs
            case Member(ch) =>
              && ch < |s.chans|
              && (s.subMu == None ==> (ch in s.subs <==> s.chans[ch].phase != Closed))
              && (s.chans[ch].phase == Unlinked ==>
                    s.subMu.Some? && s.subMu.value in s.threads && s.threads[s.subMu.value] == Leaving(ch))
            case _ => true
  {
    var s := run[i];
    RunKeepsInv(run, events, i);
    RunKeepsClosed(run, events, i);
    ActiveIsSubscribed(s);
    assert ThreadInv(s, t);
    if s.threads[t].Member? {
      assert ChanInv(s, s.threads[t].ch);
    }
    hide IsRun;
  }

  // ---- a call serves its arguments ----

  /** The thread is somewhere in the call e, with e's event or channel; a Subscribe has made `made`. */
  predicate Serves(pc: Pc, e: Event, made: ChanId) {
    match e
    case Append(_, ev) =>
      (pc.Storing? || pc.InRing? || pc.Stored? || pc.Ready? || pc.Fanning? || pc.Appended?) && pc.ev == ev
    case Subscribe(_) => pc == Making(made) || pc == Joining(made) || pc == Joined(made) || pc == Member(made)
    case Unsubscribe(_, ch) =>
      pc == Quitting(ch) || pc == Scanning(ch) || pc == Leaving(ch) || pc == Finishing(ch) || pc == Out(ch)
    case _ => true
  }

  lemma StepServes(s: State, t: ThreadId, e: Event, made: ChanId)
    requires t in s.threads && Enabled(s, t) && Serves(s.threads[t], e, made)
    ensures t in Advance(s, t).threads && Serves(Advance(s, t).threads[t], e, made)
  {
  }

  /** In every interleaving a call keeps to the event or channel it was called with. */
  lemma {:induction false} CallsServe(run: seq<State>, events: seq<Event>, j: nat, i: nat)
    requires IsRun(run, events) && j < i < |run|
    requires events[j].Append? || events[j].Subscribe? || events[j].Unsubscribe?
    ensures var e := events[j]; e.t in run[i].threads && Serves(run[i].threads[e.t], e, |run[j].chans|)
  {
    var e := events[j];
    assert Next(run[i - 1], run[i], events[i - 1]);
    if j < i - 1 {
      CallsServe(run, events, j, i - 1);
      if events[i - 1].Step? {
        var t := events[i - 1].t;
        OthersStay(run[i - 1], t);
        if t == e.t {
          StepServes(run[i - 1], t, e, |run[j].chans|);
        }
      }
    }
    hide Advance, Enabled, IsRun;
  }

  // ---- every append is fanned out once, and in which order ----

  predicate Wrote(pc: Pc) { pc.Stored? || pc.Ready? || pc.Fanning? || pc.Appended? }
  predicate Fanned(pc: Pc) { pc.Fanning? || pc.Appended? }

  function EventOf(pc: Pc): Option<ScrubEvent> {
    if pc.InRing? || Wrote(pc) then Some(pc.ev) else None
  }

  /** The events `evs` are one each of the threads `names`, which are those that got so far. */
  ghost predicate Ledger(names: seq<ThreadId>, evs: seq<ScrubEvent>, threads: map<ThreadId, Pc>, far: Pc -> bool) {
    && |names| == |evs|
    && (forall k, l :: 0 <= k < l < |names| ==> names[k] != names[l])
    && (forall t :: t in names <==> t in threads && far(threads[t]))
    && (forall k :: 0 <= k < |names| ==> names[k] in threads && EventOf(threads[names[k]]) == Some(evs[k]))
  }

  ghost predicate OrderInv(s: State) {
    && Ledger(s.writers, s.ring, s.threads, Wrote)
    && Ledger(s.fanners, s.fan, s.threads, Fanned)
  }

  /** A thread moves on without getting there, or having been there ... */
  lemma LedgerStays(names: seq<ThreadId>, evs: seq<ScrubEvent>, threads: map<ThreadId, Pc>, far: Pc -> bool,
                    t: ThreadId, pc: Pc)
    requires Ledger(names, evs, threads, far)
    requires far(pc) <==> t in threads && far(threads[t])
    requires t in threads && far(pc) ==> EventOf(pc) == EventOf(threads[t])
    ensures Ledger(names, evs, threads[t := pc], far)
  {
    hide EventOf;
    assert forall k :: 0 <= k < |names| ==> names[k] in names;
  }

  /** ... or it gets there. */
  lemma LedgerGrows(names: seq<ThreadId>, evs: seq<ScrubEvent>, threads: map<ThreadId, Pc>, far: Pc -> bool,
                    t: ThreadId, pc: Pc)
    requires Ledger(names, evs, threads, far)
    requires t in threads && !far(threads[t]) && far(pc) && EventOf(pc).Some?
    ensures Ledger(names + [t], evs + [EventOf(pc).value], threads[t := pc], far)
  {
    hide EventOf;
    assert t !in names;
    assert forall k :: 0 <= k < |names| ==> names[k] in names;
    assert forall u :: u in names + [t] <==> u in names || u == t;
  }

  /** What a step does to the two orders. */
  lemma OrderStep(s: State, t: ThreadId)
    requires t in s.threads && Enabled(s, t)
    ensures var s', pc := Advance(s, t), s.threads[t];
            && s'.ring == (if pc.InRing? then s.ring + [pc.ev] else s.ring)
            && s'.writers == (if pc.InRing? then s.writers + [t] else s.writers)
            && s'.fan == (if pc.Ready? then s.fan + [pc.ev] else s.fan)
            && s'.fanners == (if pc.Ready? then s.fanners + [t] else s.fanners)
  {
  }

  /** And to the thread. */
  lemma ProgressStep(s: State, t: ThreadId)
    requires t in s.threads && Enabled(s, t)
    ensures var s', pc := Advance(s, t), s.threads[t];
            && t in s'.threads
            && var pc' := s'.threads[t];
            && s'.threads == s.threads[t := pc']
            && (Wrote(pc') <==> Wrote(pc) || pc.InRing?) && !(Wrote(pc) && pc.InRing?)
            && (Fanned(pc') <==> Fanned(pc) || pc.Ready?) && !(Fanned(pc) && pc.Ready?)
            && (Wrote(pc') || Fanned(pc') ==> EventOf(pc').Some? && EventOf(pc') == EventOf(pc))
            && (pc.InRing? || pc.Ready? ==> EventOf(pc) == Some(pc.ev))
  {
  }

  lemma StepKeepsOrder(s: State, t: ThreadId)
    requires OrderInv(s) && t in s.threads && Enabled(s, t)
    ensures OrderInv(Advance(s, t))
  {
    OrderStep(s, t);
    ProgressStep(s, t);
    hide Advance, Enabled, Ledger, EventOf, Wrote, Fanned;
    var pc, pc' := s.threads[t], Advance(s, t).threads[t];
    if pc.InRing? {
      LedgerGrows(s.writers, s.ring, s.threads, Wrote, t, pc');
    } else {
      LedgerStays(s.writers, s.ring, s.threads, Wrote, t, pc');
    }
    if pc.Ready? {
      LedgerGrows(s.fanners, s.fan, s.threads, Fanned, t, pc');
    } else {
      LedgerStays(s.fanners, s.fan, s.threads, Fanned, t, pc');
    }
  }

  lemma EventKeepsOrder(s: State, s': State, e: Event)
    requires OrderInv(s) && Next(s, s', e)
    ensures OrderInv(s')
  {
    match e
    case Step(t) => StepKeepsOrder(s, t);
    case Receive(_) =>
    case _ =>
      LedgerStays(s.writers, s.ring, s.threads, Wrote, e.t, s'.threads[e.t]);
      LedgerStays(s.fanners, s.fan, s.threads, Fanned, e.t, s'.threads[e.t]);
      hide Ledger;
  }

  lemma {:induction false} RunKeepsOrder(run: seq<State>, events: seq<Event>, i: nat)
    requires IsRun(run, events) && i < |run|
    ensures OrderInv(run[i])
  {
    if i > 0 {
      hide Next, OrderInv;
      RunKeepsOrder(run, events, i - 1);
      EventKeepsOrder(run[i - 1], run[i], events[i - 1]);
    }
  }

  /** In every interleaving, an Append that has returned has written the ring once and has been
      fanned out once, with its own event; and nothing else was ever written or fanned out. */
  lemma AppendsFannedOnce(run: seq<State>, events: seq<Event>, i: nat)
    requires IsRun(run, events) && i < |run|
    ensures var s := run[i];
            && (forall t :: t in s.threads ==>
                  && multiset(s.writers)[t] == (if Wrote(s.threads[t]) then 1 else 0)
                  && multiset(s.fanners)[t] == (if Fanned(s.threads[t]) then 1 else 0))
            && |s.writers| == |s.ring| && |s.fanners| == |s.fan|
            && (forall k :: 0 <= k < |s.ring| ==>
                  var t := s.writers[k]; t in s.threads && Wrote(s.threads[t]) && s.threads[t].ev == s.ring[k])
            && (forall k :: 0 <= k < |s.fan| ==>
                  var t := s.fanners[k]; t in s.threads && Fanned(s.threads[t]) && s.threads[t].ev == s.fan[k])
  {
    var s := run[i];
    RunKeepsOrder(run, events, i);
    hide IsRun, Wrote, Fanned;
    forall t | t in s.threads
      ensures multiset(s.writers)[t] == (if Wrote(s.threads[t]) then 1 else 0)
      ensures multiset(s.fanners)[t] == (if Fanned(s.threads[t]) then 1 else 0)
    {
      CountOfDistinct(s.writers, t);
      CountOfDistinct(s.fanners, t);
    }
    assert forall k :: 0 <= k < |s.ring| ==> s.writers[k] in s.writers;
    assert forall k :: 0 <= k < |s.fan| ==> s.fanners[k] in s.fanners;
  }

  /** Has written the ring and not begun its fan-out. */
  predicate Waiting(s: State, t: ThreadId) { t in s.threads && (s.threads[t].Stored? || s.threads[t].Ready?) }

  /** The step begins a fan-out while an older write is still waiting for its own. */
  ghost predicate Overtakes(s: State, e: Event) {
    && e.Step? && e.t in s.threads && s.threads[e.t].Ready?
    && exists k, l :: 0 <= k < l < |s.writers| && s.writers[l] == e.t && Waiting(s, s.writers[k])
  }

  ghost predicate InRingOrder(s: State) { s.fanners <= s.writers }

  lemma OrderKeptIff(s: State, s': State, e: Event)
    requires OrderInv(s) && Next(s, s', e)
    ensures InRingOrder(s') <==> InRingOrder(s) && !Overtakes(s, e)
  {
    if e.Step? {
      OrderStep(s, e.t);
      hide Advance, Enabled;
      if s.threads[e.t].Ready? {
        FanOutKeepsOrderIff(s, e.t);
      } else if s.threads[e.t].InRing? {
        assert e.t !in s.fanners;
        WriteKeepsOrder(s.fanners, s.writers, e.t);
      }
    }
  }

  lemma WriteKeepsOrder(fanners: seq<ThreadId>, writers: seq<ThreadId>, t: ThreadId)
    requires t !in fanners
    ensures fanners <= writers + [t] <==> fanners <= writers
  {
    assert (writers + [t])[|writers|] == t;
    assert fanners <= writers + [t] ==> |fanners| <= |writers|;
  }

  lemma FanOutKeepsOrderIff(s: State, t: ThreadId)
    requires OrderInv(s) && t in s.threads && s.threads[t].Ready?
    ensures s.fanners + [t] <= s.writers <==> InRingOrder(s) && !Overtakes(s, Step(t))
  {
    hide *;
    if s.fanners + [t] <= s.writers {
      NextInRingOvertakesNobody(s, t);
    } else {
      LaterInRingOvertakes(s, t);
    }
  }

  lemma NextInRingOvertakesNobody(s: State, t: ThreadId)
    requires OrderInv(s) && t in s.threads && s.threads[t].Ready? && s.fanners + [t] <= s.writers
    ensures InRingOrder(s) && !Overtakes(s, Step(t))
  {
    hide EventOf;
    var n := |s.fanners|;
    assert s.writers[n] == t;
    forall k | 0 <= k < n ensures !Waiting(s, s.writers[k]) {
      assert s.writers[k] == s.fanners[k] && s.fanners[k] in s.fanners;
    }
  }

  lemma LaterInRingOvertakes(s: State, t: ThreadId)
    requires OrderInv(s) && t in s.threads && s.threads[t].Ready? && !(s.fanners + [t] <= s.writers)
    ensures !InRingOrder(s) || Overtakes(s, Step(t))
  {
    hide EventOf;
    var n := |s.fanners|;
    assert t in s.writers && t !in s.fanners;
    var l :| 0 <= l < |s.writers| && s.writers[l] == t;
    if InRingOrder(s) {
      assert forall k :: 0 <= k < n ==> s.writers[k] == s.fanners[k] && s.fanners[k] in s.fanners;
      assert n < l;
      assert s.writers[n] in s.writers && s.writers[n] !in s.fanners;
      assert Waiting(s, s.writers[n]);
    }
  }

  ghost predicate NeverOvertaken(run: seq<State>, events: seq<Event>, i: nat)
    requires i <= |run| && i <= |events|
  {
    forall j :: 0 <= j < i ==> !Overtakes(run[j], events[j])
  }

  /** The fan-outs are in the order of the ring exactly as long as no fan-out has begun while
      an older write was waiting for its own. */
  lemma {:induction false} RingOrderIff(run: seq<State>, events: seq<Event>, i: nat)
    requires IsRun(run, events) && i < |run|
    ensures InRingOrder(run[i]) <==> NeverOvertaken(run, events, i)
  {
    hide *;
    if i == 0 {
      StartsInOrder(run, events);
    } else {
      RunStep(run, events, i);
      RunKeepsOrder(run, events, i - 1);
      RingOrderIff(run, events, i - 1);
      OrderKeptIff(run[i - 1], run[i], events[i - 1]);
      OneStepMore(run, events, i);
    }
  }

  lemma StartsInOrder(run: seq<State>, events: seq<Event>)
    requires IsRun(run, events)
    ensures InRingOrder(run[0]) && NeverOvertaken(run, events, 0)
  {
  }

  lemma RunStep(run: seq<State>, events: seq<Event>, i: nat)
    requires IsRun(run, events) && 0 < i < |run|
    ensures i <= |events| && Next(run[i - 1], run[i], events[i - 1])
  {
    hide Next;
  }

  lemma OneStepMore(run: seq<State>, events: seq<Event>, i: nat)
    requires 0 < i <= |run| && i <= |events|
    ensures NeverOvertaken(run, events, i)
            <==> NeverOvertaken(run, events, i - 1) && !Overtakes(run[i - 1], events[i - 1])
  {
    hide Overtakes;
  }

  /** And then the subscribers see what the ring holds, up to the writes still waiting. */
  lemma InOrderMeansPrefix(s: State)
    requires OrderInv(s) && InRingOrder(s)
    ensures s.fan <= s.ring
    ensures forall k :: |s.fan| <= k < |s.ring| ==> Waiting(s, s.writers[k])
  {
    forall k | 0 <= k < |s.fan| ensures s.fan[k] == s.ring[k] {
      assert s.fanners[k] == s.writers[k];
    }
    forall k | |s.fan| <= k < |s.ring| ensures Waiting(s, s.writers[k]) {
      assert s.writers[k] in s.writers;
      assert s.writers[k] !in s.fanners;
    }
  }

  /** No two writes wait for their fan-outs at once. */
  ghost predicate OneWaits(s: State) { forall t, u :: Waiting(s, t) && Waiting(s, u) ==> t == u }

  lemma LoneWriterOvertakesNobody(s: State, e: Event)
    requires OrderInv(s) && OneWaits(s)
    ensures !Overtakes(s, e)
  {
    assert e.Step? && e.t in s.threads && s.threads[e.t].Ready? ==> Waiting(s, e.t);
  }

  /** So when the callers never have two Appends between their write and their fan-out, the
      fan-outs are the ring without at most its last event. */
  lemma SerialAppendsInOrder(run: seq<State>, events: seq<Event>, i: nat)
    requires IsRun(run, events) && i < |run| && forall j :: 0 <= j <= i ==> OneWaits(run[j])
    ensures run[i].fan <= run[i].ring && |run[i].ring| <= |run[i].fan| + 1
  {
    assert |run| == |events| + 1;
    hide IsRun, Overtakes, InRingOrder;
    forall j | 0 <= j < i ensures !Overtakes(run[j], events[j]) {
      RunKeepsOrder(run, events, j);
      LoneWriterOvertakesNobody(run[j], events[j]);
    }
    RunKeepsOrder(run, events, i);
    RingOrderIff(run, events, i);
    InOrderMeansPrefix(run[i]);
    OnePending(run[i]);
  }

  lemma OnePending(s: State)
    requires OrderInv(s) && InRingOrder(s) && OneWaits(s)
    ensures |s.ring| <= |s.fan| + 1
  {
    InOrderMeansPrefix(s);
    hide Waiting, InRingOrder;
    var n := |s.ring|;
    assert n > |s.fan| ==> Waiting(s, s.writers[|s.fan|]) && Waiting(s, s.writers[n - 1]);
  }

  lemma StartRun()
    ensures IsRun([State(map[], [], [], None, None, [], [], [], [], false)], [])
  {
  }

  lemma Extend(run: seq<State>, events: seq<Event>, e: Event, s: State)
    returns (run': seq<State>, events': seq<Event>)
    requires IsRun(run, events) && Next(run[|run| - 1], s, e)
    ensures run' == run + [s] && events' == events + [e] && IsRun(run', events')
  {
    hide Next, Init;
    run', events' := run + [s], events + [e];
  }

  /** Two writers and nobody else. */
  function Writers(p: Pc, q: Pc, mu: Option<ThreadId>, subMu: Option<ThreadId>,
                   ring: seq<ScrubEvent>, fan: seq<ScrubEvent>): State {
    State(map[0 := p, 1 := q], [], [], mu, subMu, ring, Names(ring), fan, Names(fan), false)
  }

  /** Thread 0 writes "a" and thread 1 writes "b". */
  function Names(evs: seq<ScrubEvent>): seq<ThreadId> {
    seq(|evs|, i requires 0 <= i < |evs| => if evs[i] == "a" then 0 else 1)
  }

  lemma FirstStored() returns (run: seq<State>, events: seq<Event>)
    ensures IsRun(run, events) && run[|run| - 1] == Writers(Ready("a"), Storing("b"), None, None, ["a"], [])
  {
    hide IsRun;
    StartRun();
    run, events := [State(map[], [], [], None, None, [], [], [], [], false)], [];
    run, events := Extend(run, events, Append(0, "a"), At(run[0], 0, Storing("a")));
    run, events := Extend(run, events, Append(1, "b"), Writers(Storing("a"), Storing("b"), None, None, [], []));
    run, events := Extend(run, events, Step(0), Writers(InRing("a"), Storing("b"), Some(0), None, [], []));
    run, events := Extend(run, events, Step(0), Writers(Stored("a"), Storing("b"), Some(0), None, ["a"], []));
    run, events := Extend(run, events, Step(0), Writers(Ready("a"), Storing("b"), None, None, ["a"], []));
  }

  lemma BothStored() returns (run: seq<State>, events: seq<Event>)
    ensures IsRun(run, events) && run[|run| - 1] == Writers(Ready("a"), Ready("b"), None, None, ["a", "b"], [])
  {
    hide IsRun;
    run, events := FirstStored();
    run, events := Extend(run, events, Step(1), Writers(Ready("a"), InRing("b"), Some(1), None, ["a"], []));
    run, events := Extend(run, events, Step(1), Writers(Ready("a"), Stored("b"), Some(1), None, ["a", "b"], []));
    run, events := Extend(run, events, Step(1), Writers(Ready("a"), Ready("b"), None, None, ["a", "b"], []));
  }

  /** The order of the fan-outs need not be that of the ring: the writer of the older event
      can be overtaken between the two locks. */
  lemma RingOrderCanDiffer()
    ensures exists run: seq<State>, events: seq<Event> ::
              IsRun(run, events) && run[|run| - 1].ring == ["a", "b"] && run[|run| - 1].fan == ["b", "a"]
  {
    hide IsRun;
    var run, events := BothStored();
    run, events := Extend(run, events, Step(1), Writers(Ready("a"), Fanning("b", 0), None, Some(1), ["a", "b"], ["b"]));
    run, events := Extend(run, events, Step(1), Writers(Ready("a"), Appended("b"), None, None, ["a", "b"], ["b"]));
    run, events := Extend(run, events, Step(0),
                                Writers(Fanning("a", 0), Appended("b"), None, Some(0), ["a", "b"], ["b", "a"]));
  }
}
