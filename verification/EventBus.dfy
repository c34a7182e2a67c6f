/** The server-sent-events bus: handlers subscribe a channel, stream from it and unsubscribe;
    publishers offer an event to every subscribed channel under the read lock. A channel is
    closed after the write lock is released, so the order of removal and closing is what keeps
    a publisher from sending on a closed channel. The laws hold over every interleaving. */
module EventBus {
  import opened Prelude

  type ThreadId = nat
  type ChanId = nat
  type ZFSEvent = string

  const CAPACITY := 64

  /** A channel. Beside what Go keeps (whether it is open, its queue) the model records what the
      handler has taken, the publishers whose events were accepted, in order, and those whose
      event was lost with the length of the queue at that moment. */
  datatype Chan = Chan(
    owner: ThreadId, open: bool, queue: seq<ZFSEvent>, taken: seq<ZFSEvent>,
    got: seq<ThreadId>, lost: map<ThreadId, nat>)

  datatype Pc =
    // a handler and its channel
    | Subscribing(ch: ChanId)  // has made the channel
    | Adding(ch: ChanId)       // holds the write lock
    | Added(ch: ChanId)        // is in subs, still holds it
    | Streaming(ch: ChanId)
    | Removing(ch: ChanId)     // holds the write lock again
    | Removed(ch: ChanId)      // is out of subs, still holds it
    | Closing(ch: ChanId)      // released it, about to close
    | Gone(ch: ChanId)
    // a publisher: subs as it was when the lock was taken, the channels sent to and skipped
    // so far, and the channel its loop variable holds
    | Publishing(ev: ZFSEvent)
    | Sending(ev: ZFSEvent, start: set<ChanId>, sent: set<ChanId>, skipped: set<ChanId>, cur: Option<ChanId>)
    | Published(ev: ZFSEvent, start: set<ChanId>, sent: set<ChanId>, skipped: set<ChanId>)

  datatype State = State(
    threads: map<ThreadId, Pc>,
    chans: seq<Chan>,
    subs: set<ChanId>,
    readers: set<ThreadId>, writer: Option<ThreadId>,
    panicked: bool)  // a send on, or a second close of, a closed channel

  ghost predicate Init(s: State) { s == State(map[], [], {}, {}, None, false) }

  predicate HoldsWrite(pc: Pc) { pc.Adding? || pc.Added? || pc.Removing? || pc.Removed? }

  function OwnChan(pc: Pc): Option<ChanId> {
    if pc.Publishing? || pc.Sending? || pc.Published? then None else Some(pc.ch)
  }

  /** What happens next. A publisher's loop picks its channels in the order the map yields them. */
  datatype Event =
    | Arrive(t: ThreadId)
    | Publish(t: ThreadId, ev: ZFSEvent)
    | Receive(t: ThreadId)
    | Pick(t: ThreadId, ch: ChanId)
    | Step(t: ThreadId)

  function At(s: State, t: ThreadId, pc: Pc): State { s.(threads := s.threads[t := pc]) }

  /** One step of a handler or publisher, apart from receiving and picking. */
  predicate Enabled(s: State, t: ThreadId)
    requires t in s.threads
  {
    match s.threads[t]
    case Subscribing(_) => s.writer == None && s.readers == {}
    case Streaming(_) => s.writer == None && s.readers == {}
    case Publishing(_) => s.writer == None
    case Sending(_, _, sent, skipped, cur) => cur.Some? || s.subs <= sent + skipped
    case Gone(_) => false
    case Published(_, _, _, _) => false
    case _ => true
  }

  function Advance(s: State, t: ThreadId): State
    requires t in s.threads && Enabled(s, t)
  {
    match s.threads[t]
    case Subscribing(ch) => At(s, t, Adding(ch)).(writer := Some(t))
    case Adding(ch) => At(s, t, Added(ch)).(subs := s.subs + {ch})
    case Added(ch) => At(s, t, Streaming(ch)).(writer := None)
    case Streaming(ch) => At(s, t, Removing(ch)).(writer := Some(t))
    case Removing(ch) => At(s, t, Removed(ch)).(subs := s.subs - {ch})
    case Removed(ch) => At(s, t, Closing(ch)).(writer := None)
    case Closing(ch) => At(Close(s, ch), t, Gone(ch))
    case Publishing(ev) => At(s, t, Sending(ev, s.subs, {}, {}, None)).(readers := s.readers + {t})
    case Sending(ev, start, sent, skipped, cur) =>
      if cur.None? then At(s, t, Published(ev, start, sent, skipped)).(readers := s.readers - {t})
      else if HasRoom(s, cur.value)
      then At(Send(s, cur.value, ev, t), t, Sending(ev, start, sent + {cur.value}, skipped, None))
      else At(Skip(s, cur.value, t), t, Sending(ev, start, sent, skipped + {cur.value}, None))
  }

  /** Whether the `select` sends: a closed channel is always ready, and then panics. */
  predicate HasRoom(s: State, ch: ChanId) {
    ch < |s.chans| ==> !s.chans[ch].open || |s.chans[ch].queue| < CAPACITY
  }

  function Update(s: State, ch: ChanId, c: Chan): State
    requires ch < |s.chans|
  {
    s.(chans := s.chans[ch := c])
  }

  function Send(s: State, ch: ChanId, ev: ZFSEvent, t: ThreadId): State {
    if ch < |s.chans| && s.chans[ch].open
    then var c := s.chans[ch]; Update(s, ch, c.(queue := c.queue + [ev], got := c.got + [t]))
    else s.(panicked := true)
  }

  function Skip(s: State, ch: ChanId, t: ThreadId): State {
    if ch < |s.chans|
    then var c := s.chans[ch]; Update(s, ch, c.(lost := c.lost[t := |c.queue|]))
    else s
  }

  function Close(s: State, ch: ChanId): State {
    if ch < |s.chans| && s.chans[ch].open then Update(s, ch, s.chans[ch].(open := false))
    else s.(panicked := true)
  }

  ghost predicate Next(s: State, s': State, e: Event) {
    match e
    case Arrive(t) =>
      && t !in s.threads
      && s' == At(s, t, Subscribing(|s.chans|)).(chans := s.chans + [Chan(t, true, [], [], [], map[])])
    case Publish(t, ev) => t !in s.threads && s' == At(s, t, Publishing(ev))
    case Receive(t) =>
      && t in s.threads && s.threads[t].Streaming?
      && var ch := s.threads[t].ch;
      && ch < |s.chans| && s.chans[ch].queue != []
      && var c := s.chans[ch];
      && s' == Update(s, ch, c.(queue := c.queue[1..], taken := c.taken + [c.queue[0]]))
    case Pick(t, ch) =>
      && t in s.threads && s.threads[t].Sending?
      && var Sending(ev, start, sent, skipped, cur) := s.threads[t];
      && cur.None? && ch in s.subs && ch !in sent + skipped
      && s' == At(s, t, Sending(ev, start, sent, skipped, Some(ch)))
    case Step(t) => t in s.threads && Enabled(s, t) && s' == Advance(s, t)
  }

  ghost predicate IsRun(run: seq<State>, events: seq<Event>) {
    && |run| == |events| + 1 && Init(run[0])
    && forall i :: 0 <= i < |events| ==> Next(run[i], run[i + 1], events[i])
  }

  // ---- the invariant ----

  ghost predicate LockInv(s: State) {
    && (forall t :: t in s.readers <==> t in s.threads && s.threads[t].Sending?)
    && (forall t :: t in s.threads && HoldsWrite(s.threads[t]) <==> s.writer == Some(t))
    && (s.writer.Some? ==> s.readers == {})
  }

  /** Handlers and channels belong to each other one to one; a channel is subscribed exactly
      between its adding and its removal, and open until its owner has gone. */
  ghost predicate ChanInv(s: State, ch: ChanId)
    requires ch < |s.chans|
  {
    var Chan(t, open, queue, _, _, _) := s.chans[ch];
    && t in s.threads && OwnChan(s.threads[t]) == Some(ch)
    && (ch in s.subs <==> s.threads[t].Added? || s.threads[t].Streaming? || s.threads[t].Removing?)
    && (open <==> !s.threads[t].Gone?)
    && |queue| <= CAPACITY
  }

  ghost predicate ThreadInv(s: State, t: ThreadId)
    requires t in s.threads
  {
    match s.threads[t]
    case Publishing(_) => true
    case Sending(ev, start, sent, skipped, cur) =>
      && start == s.subs && sent + skipped <= start && sent !! skipped
      && (cur.Some? ==> cur.value in start && cur.value !in sent + skipped)
    case Published(_, start, sent, skipped) => sent + skipped == start && sent !! skipped
    case pc => pc.ch < |s.chans| && s.chans[pc.ch].owner == t
  }

  ghost predicate Inv(s: State) {
    && !s.panicked && LockInv(s)
    && (forall ch :: ch in s.subs ==> ch < |s.chans|)
    && (forall ch :: 0 <= ch < |s.chans| ==> ChanInv(s, ch))
    && (forall t :: t in s.threads ==> ThreadInv(s, t))
  }

  lemma LockKept(s: State, t: ThreadId)
    requires LockInv(s) && t in s.threads && Enabled(s, t)
    ensures LockInv(Advance(s, t))
  {
    assert t in s.readers <==> s.threads[t].Sending?;
    assert s.writer == Some(t) <==> HoldsWrite(s.threads[t]);
  }

  /** What a step leaves alone. */
  lemma OthersStay(s: State, t: ThreadId)
    requires t in s.threads && Enabled(s, t)
    ensures var s' := Advance(s, t);
            && s'.threads.Keys == s.threads.Keys
            && (forall t' :: t' in s.threads && t' != t ==> s'.threads[t'] == s.threads[t'])
            && OwnChan(s'.threads[t]) == OwnChan(s.threads[t])
            && |s'.chans| == |s.chans|
            && (forall ch :: 0 <= ch < |s.chans| ==> s'.chans[ch].owner == s.chans[ch].owner)
            && (!HoldsWrite(s.threads[t]) ==> s'.subs == s.subs)
  {
  }

  lemma ThreadKept(s: State, t: ThreadId, t': ThreadId)
    requires LockInv(s) && t in s.threads && Enabled(s, t) && t' in s.threads
    requires ThreadInv(s, t) && ThreadInv(s, t')
    ensures t' in Advance(s, t).threads && ThreadInv(Advance(s, t), t')
  {
    OthersStay(s, t);
    assert s.writer == Some(t) <==> HoldsWrite(s.threads[t]);
    assert t' in s.readers <==> s.threads[t'].Sending?;
    if t != t' {
      hide Advance, LockInv;
    }
  }

  /** Whether ch is subscribed and open changes only in its owner's steps; its buffer never
      overflows. */
  lemma ChanStep(s: State, t: ThreadId, ch: ChanId)
    requires t in s.threads && Enabled(s, t) && ch < |s.chans| && |s.chans[ch].queue| <= CAPACITY
    ensures var s' := Advance(s, t);
            && |s'.chans| == |s.chans| && |s'.chans[ch].queue| <= CAPACITY
            && (OwnChan(s.threads[t]) != Some(ch) ==>
                  s'.chans[ch].open == s.chans[ch].open && (ch in s'.subs <==> ch in s.subs))
  {
  }

  lemma ChanKept(s: State, t: ThreadId, ch: ChanId)
    requires Inv(s) && t in s.threads && Enabled(s, t) && ch < |s.chans|
    ensures ch < |Advance(s, t).chans| && ChanInv(Advance(s, t), ch)
  {
    assert ChanInv(s, ch) && ThreadInv(s, t);
    ChanStep(s, t, ch);
    OthersStay(s, t);
    if s.chans[ch].owner == t {
      OwnChanKept(s, t, ch);
    } else {
      hide Advance, LockInv, Enabled;
    }
  }

  lemma OwnChanKept(s: State, t: ThreadId, ch: ChanId)
    requires t in s.threads && Enabled(s, t) && ch < |s.chans| && ChanInv(s, ch) && s.chans[ch].owner == t
    ensures ch < |Advance(s, t).chans| && ChanInv(Advance(s, t), ch)
  {
  }

  lemma NoPanic(s: State, t: ThreadId)
    requires Inv(s) && t in s.threads && Enabled(s, t)
    ensures !Advance(s, t).panicked
    ensures forall ch :: ch in Advance(s, t).subs ==> ch < |s.chans|
  {
    assert ThreadInv(s, t);
    match s.threads[t]
    case Sending(_, _, _, _, cur) =>
      if cur.Some? {
        assert ChanInv(s, cur.value);
      }
    case Closing(ch) => assert ChanInv(s, ch);
    case _ =>
  }

  lemma StepKeepsInv(s: State, s': State, e: Event)
    requires Inv(s) && Next(s, s', e)
    ensures Inv(s')
  {
    match e
    case Arrive(t) => ArriveKeepsInv(s, s', t);
    case Publish(t, ev) => PublishKeepsInv(s, s', t, ev);
    case Receive(t) => ReceiveKeepsInv(s, s', t);
    case Pick(t, ch) => PickKeepsInv(s, s', t, ch);
    case Step(t) =>
      LockKept(s, t);
      NoPanic(s, t);
      OthersStay(s, t);
      forall ch | 0 <= ch < |s'.chans| ensures ChanInv(s', ch) {
        ChanKept(s, t, ch);
      }
      forall t' | t' in s'.threads ensures ThreadInv(s', t') {
        ThreadKept(s, t, t');
      }
      hide Advance, LockInv, ThreadInv, ChanInv;
  }

  lemma ArriveKeepsInv(s: State, s': State, t: ThreadId)
    requires Inv(s) && Next(s, s', Arrive(t))
    ensures Inv(s')
  {
    forall ch | 0 <= ch < |s'.chans| ensures ChanInv(s', ch) {
      assert ch < |s.chans| ==> ChanInv(s, ch);
    }
    forall t' | t' in s'.threads ensures ThreadInv(s', t') {
      assert t' != t ==> ThreadInv(s, t');
    }
  }

  lemma PublishKeepsInv(s: State, s': State, t: ThreadId, ev: ZFSEvent)
    requires Inv(s) && Next(s, s', Publish(t, ev))
    ensures Inv(s')
  {
    forall ch | 0 <= ch < |s'.chans| ensures ChanInv(s', ch) {
      assert ChanInv(s, ch);
    }
    forall t' | t' in s'.threads ensures ThreadInv(s', t') {
      assert t' != t ==> ThreadInv(s, t');
    }
  }

  lemma ReceiveKeepsInv(s: State, s': State, t: ThreadId)
    requires Inv(s) && Next(s, s', Receive(t))
    ensures Inv(s')
  {
    forall ch | 0 <= ch < |s'.chans| ensures ChanInv(s', ch) {
      assert ChanInv(s, ch);
    }
    forall t' | t' in s'.threads ensures ThreadInv(s', t') {
      assert ThreadInv(s, t');
    }
  }

  lemma PickKeepsInv(s: State, s': State, t: ThreadId, ch: ChanId)
    requires Inv(s) && Next(s, s', Pick(t, ch))
    ensures Inv(s')
  {
    forall ch' | 0 <= ch' < |s'.chans| ensures ChanInv(s', ch') {
      assert ChanInv(s, ch');
    }
    forall t' | t' in s'.threads ensures ThreadInv(s', t') {
      assert ThreadInv(s, t');
    }
  }

  // ---- the laws ----

  lemma {:induction false} RunKeepsInv(run: seq<State>, events: seq<Event>, i: nat)
    requires IsRun(run, events) && i < |run|
    ensures Inv(run[i])
  {
    hide Next, Inv;
    if i > 0 {
      RunKeepsInv(run, events, i - 1);
      StepKeepsInv(run[i - 1], run[i], events[i - 1]);
    } else {
      InitInv(run[0]);
    }
  }

  lemma InitInv(s: State)
    requires Init(s)
    ensures Inv(s)
  {
  }

  /** In every interleaving: nothing is ever sent on a closed channel and no channel is closed
      twice; every subscribed channel is open and within its buffer. */
  lemma NeverPanics(run: seq<State>, events: seq<Event>, i: nat)
    requires IsRun(run, events) && i < |run|
    ensures !run[i].panicked
    ensures forall ch :: ch in run[i].subs ==> ch < |run[i].chans| && run[i].chans[ch].open
    ensures forall ch :: 0 <= ch < |run[i].chans| ==> |run[i].chans[ch].queue| <= 64
  {
    RunKeepsInv(run, events, i);
    forall ch | 0 <= ch < |run[i].chans|
      ensures |run[i].chans[ch].queue| <= 64 && (ch in run[i].subs ==> run[i].chans[ch].open)
    {
      assert ChanInv(run[i], ch);
    }
  }

  /** A handler that streams is subscribed and its channel open; one that has gone has left its
      channel closed and is not subscribed. */
  lemma GoneIsClosed(run: seq<State>, events: seq<Event>, i: nat, t: ThreadId)
    requires IsRun(run, events) && i < |run| && t in run[i].threads
    ensures var s := run[i];
            match s.threads[t]
            case Streaming(ch) => ch < |s.chans| && s.chans[ch].open && ch in s.subs
            case Gone(ch) => ch < |s.chans| && !s.chans[ch].open && ch !in s.subs
            case _ => true
  {
    RunKeepsInv(run, events, i);
    var pc := run[i].threads[t];
    assert ThreadInv(run[i], t);
    if pc.Streaming? || pc.Gone? {
      assert ChanInv(run[i], pc.ch);
    }
    hide IsRun;
  }

  /** A publisher keeps to the event it was called with. */
  lemma {:induction false} PublisherKeepsEvent(run: seq<State>, events: seq<Event>, j: nat, i: nat)
    requires IsRun(run, events) && j < i < |run| && events[j].Publish?
    ensures var Publish(t, ev) := events[j];
            && t in run[i].threads
            && var pc := run[i].threads[t];
            (pc.Publishing? || pc.Sending? || pc.Published?) && pc.ev == ev
  {
    assert Next(run[i - 1], run[i], events[i - 1]);
    if j < i - 1 {
      PublisherKeepsEvent(run, events, j, i - 1);
      if events[i - 1].Step? {
        OthersStay(run[i - 1], events[i - 1].t);
      }
    }
    hide IsRun;
  }

  // ---- who received what ----

  /** The event that thread t has sent to ch, and whether it has skipped ch. */
  function SentEvent(threads: map<ThreadId, Pc>, t: ThreadId, ch: ChanId): Option<ZFSEvent> {
    if t in threads && (threads[t].Sending? || threads[t].Published?) && ch in threads[t].sent
    then Some(threads[t].ev) else None
  }

  predicate HasSkipped(threads: map<ThreadId, Pc>, t: ThreadId, ch: ChanId) {
    t in threads && (threads[t].Sending? || threads[t].Published?) && ch in threads[t].skipped
  }

  /** The account of one channel: what was taken and is queued are the events of the publishers
      that sent to it, once each; those that skipped it met a full queue. */
  ghost predicate Account(c: Chan, ch: ChanId, threads: map<ThreadId, Pc>) {
    && |c.got| == |c.taken| + |c.queue|
    && (forall k :: 0 <= k < |c.got| ==> SentEvent(threads, c.got[k], ch) == Some((c.taken + c.queue)[k]))
    && (forall k, l :: 0 <= k < l < |c.got| ==> c.got[k] != c.got[l])
    && (forall t :: SentEvent(threads, t, ch).Some? ==> t in c.got)
    && (forall t :: t in c.lost <==> HasSkipped(threads, t, ch))
    && (forall t :: t in c.lost ==> c.lost[t] == CAPACITY)
  }

  ghost predicate Accounts(s: State) {
    && (forall ch :: 0 <= ch < |s.chans| ==> Account(s.chans[ch], ch, s.threads))
    && (forall t: ThreadId, ch: ChanId ::
          SentEvent(s.threads, t, ch).Some? || HasSkipped(s.threads, t, ch) ==> ch < |s.chans|)
  }

  /** A channel's account depends only on its own record and on what was sent to it or skipped. */
  lemma AccountFrame(c: Chan, c': Chan, ch: ChanId, threads: map<ThreadId, Pc>, threads': map<ThreadId, Pc>)
    requires Account(c, ch, threads)
    requires c'.queue == c.queue && c'.taken == c.taken && c'.got == c.got && c'.lost == c.lost
    requires forall t :: SentEvent(threads', t, ch) == SentEvent(threads, t, ch)
    requires forall t :: HasSkipped(threads', t, ch) == HasSkipped(threads, t, ch)
    ensures Account(c', ch, threads')
  {
    hide SentEvent, HasSkipped;
  }

  lemma AcceptKeepsAccount(c: Chan, ch: ChanId, threads: map<ThreadId, Pc>, threads': map<ThreadId, Pc>,
                           t: ThreadId, ev: ZFSEvent)
    requires Account(c, ch, threads) && SentEvent(threads, t, ch) == None && SentEvent(threads', t, ch) == Some(ev)
    requires forall t' :: t' != t ==> SentEvent(threads', t', ch) == SentEvent(threads, t', ch)
    requires forall t' :: HasSkipped(threads', t', ch) == HasSkipped(threads, t', ch)
    ensures Account(c.(queue := c.queue + [ev], got := c.got + [t]), ch, threads')
  {
    hide SentEvent, HasSkipped;
    var c' := c.(queue := c.queue + [ev], got := c.got + [t]);
    assert c'.taken + c'.queue == (c.taken + c.queue) + [ev];
    assert forall x :: x in c'.got <==> x in c.got || x == t;
    assert forall k :: 0 <= k < |c.got| ==> c.got[k] != t;
  }

  lemma LossKeepsAccount(c: Chan, ch: ChanId, threads: map<ThreadId, Pc>, threads': map<ThreadId, Pc>, t: ThreadId)
    requires Account(c, ch, threads) && |c.queue| == CAPACITY && HasSkipped(threads', t, ch)
    requires forall t' :: SentEvent(threads', t', ch) == SentEvent(threads, t', ch)
    requires forall t' :: t' != t ==> HasSkipped(threads', t', ch) == HasSkipped(threads, t', ch)
    ensures Account(c.(lost := c.lost[t := |c.queue|]), ch, threads')
  {
    hide SentEvent, HasSkipped;
  }

  lemma TakeKeepsAccount(c: Chan, ch: ChanId, threads: map<ThreadId, Pc>)
    requires Account(c, ch, threads) && c.queue != []
    ensures Account(c.(queue := c.queue[1..], taken := c.taken + [c.queue[0]]), ch, threads)
  {
    hide SentEvent, HasSkipped;
    assert c.taken + [c.queue[0]] + c.queue[1..] == c.taken + c.queue;
  }

  /** What a step other than an offer leaves as it was. */
  lemma QuietStep(s: State, t: ThreadId, ch: ChanId)
    requires t in s.threads && Enabled(s, t) && ch < |s.chans|
    requires s.threads[t].Sending? ==> s.threads[t].cur.None?
    ensures var s', c := Advance(s, t), s.chans[ch];
            && |s'.chans| == |s.chans|
            && s'.chans[ch] == c.(open := s'.chans[ch].open)
            && (forall t' :: SentEvent(s'.threads, t', ch) == SentEvent(s.threads, t', ch))
            && (forall t' :: HasSkipped(s'.threads, t', ch) == HasSkipped(s.threads, t', ch))
  {
  }

  /** An offer to cur is the only change there is. */
  lemma OfferStep(s: State, t: ThreadId, ch: ChanId)
    requires Inv(s) && t in s.threads && s.threads[t].Sending? && s.threads[t].cur.Some? && ch < |s.chans|
    ensures var s', c, cur := Advance(s, t), s.chans[ch], s.threads[t].cur.value;
            && |s'.chans| == |s.chans| && cur < |s.chans|
            && (forall t' :: t' != t || ch != cur ==>
                  && SentEvent(s'.threads, t', ch) == SentEvent(s.threads, t', ch)
                  && HasSkipped(s'.threads, t', ch) == HasSkipped(s.threads, t', ch))
            && (ch != cur ==> s'.chans[ch] == c)
            && (ch == cur ==>
                  && SentEvent(s.threads, t, ch) == None && !HasSkipped(s.threads, t, ch)
                  && if |c.queue| < CAPACITY
                     then && s'.chans[ch] == c.(queue := c.queue + [s.threads[t].ev], got := c.got + [t])
                          && SentEvent(s'.threads, t, ch) == Some(s.threads[t].ev) && !HasSkipped(s'.threads, t, ch)
                     else && s'.chans[ch] == c.(lost := c.lost[t := |c.queue|]) && |c.queue| == CAPACITY
                          && SentEvent(s'.threads, t, ch) == None && HasSkipped(s'.threads, t, ch))
  {
    assert ThreadInv(s, t) && ChanInv(s, s.threads[t].cur.value);
    hide ChanInv, ThreadInv, Inv, LockInv;
  }

  lemma AccountStep(s: State, t: ThreadId, ch: ChanId)
    requires Inv(s) && t in s.threads && Enabled(s, t) && ch < |s.chans| && Account(s.chans[ch], ch, s.threads)
    ensures ch < |Advance(s, t).chans| && Account(Advance(s, t).chans[ch], ch, Advance(s, t).threads)
  {
    hide *;
    var s', c := Advance(s, t), s.chans[ch];
    if s.threads[t].Sending? && s.threads[t].cur.Some? {
      OfferStep(s, t, ch);
      if s.threads[t].cur.value != ch {
        AccountFrame(c, s'.chans[ch], ch, s.threads, s'.threads);
      } else if |c.queue| < CAPACITY {
        AcceptKeepsAccount(c, ch, s.threads, s'.threads, t, s.threads[t].ev);
      } else {
        LossKeepsAccount(c, ch, s.threads, s'.threads, t);
      }
    } else {
      QuietStep(s, t, ch);
      AccountFrame(c, s'.chans[ch], ch, s.threads, s'.threads);
    }
  }

  /** Only channels that exist are sent to or skipped. */
  lemma TargetsExist(s: State, t: ThreadId, t': ThreadId, ch: ChanId)
    requires Inv(s) && Accounts(s) && t in s.threads && Enabled(s, t)
    requires SentEvent(Advance(s, t).threads, t', ch).Some? || HasSkipped(Advance(s, t).threads, t', ch)
    ensures ch < |s.chans|
  {
    assert ThreadInv(s, t);
    assert SentEvent(s.threads, t', ch).Some? || HasSkipped(s.threads, t', ch) ==> ch < |s.chans|;
    hide Accounts, LockInv, ChanInv, Account;
  }

  lemma StepKeepsAccounts(s: State, s': State, e: Event)
    requires Inv(s) && Accounts(s) && Next(s, s', e)
    ensures Accounts(s')
  {
    if e.Step? {
      OthersStay(s, e.t);
      forall ch | 0 <= ch < |s'.chans| ensures Account(s'.chans[ch], ch, s'.threads) {
        AccountStep(s, e.t, ch);
      }
      forall t': ThreadId, ch: ChanId | SentEvent(s'.threads, t', ch).Some? || HasSkipped(s'.threads, t', ch)
        ensures ch < |s'.chans| {
        TargetsExist(s, e.t, t', ch);
      }
      hide Account, SentEvent, HasSkipped, Advance, Enabled, Inv;
    } else {
      OtherEventsKeepAccounts(s, s', e);
    }
  }

  lemma OtherEventsKeepAccounts(s: State, s': State, e: Event)
    requires Accounts(s) && Next(s, s', e) && !e.Step?
    ensures Accounts(s')
  {
    assert |s.chans| <= |s'.chans|;
    assert forall t: ThreadId, ch: ChanId :: SentEvent(s'.threads, t, ch) == SentEvent(s.threads, t, ch);
    assert forall t: ThreadId, ch: ChanId :: HasSkipped(s'.threads, t, ch) == HasSkipped(s.threads, t, ch);
    hide SentEvent, HasSkipped;
    forall ch | 0 <= ch < |s'.chans| ensures Account(s'.chans[ch], ch, s'.threads) {
      if ch == |s.chans| {
        assert s'.chans[ch] == Chan(e.t, true, [], [], [], map[]);
      } else if e.Receive? && ch == s.threads[e.t].ch {
        TakeKeepsAccount(s.chans[ch], ch, s.threads);
        AccountFrame(s'.chans[ch], s'.chans[ch], ch, s.threads, s'.threads);
      } else {
        AccountFrame(s.chans[ch], s'.chans[ch], ch, s.threads, s'.threads);
      }
    }
  }

  lemma {:induction false} RunKeepsAccounts(run: seq<State>, events: seq<Event>, i: nat)
    requires IsRun(run, events) && i < |run|
    ensures Accounts(run[i])
  {
    if i > 0 {
      hide Next, Inv, Accounts;
      RunKeepsAccounts(run, events, i - 1);
      RunKeepsInv(run, events, i - 1);
      StepKeepsAccounts(run[i - 1], run[i], events[i - 1]);
    }
  }

  /** While a publisher runs the subscribers do not change. */
  lemma SubscribersFixed(run: seq<State>, events: seq<Event>, i: nat, t: ThreadId)
    requires IsRun(run, events) && i < |run| && t in run[i].threads && run[i].threads[t].Sending?
    ensures run[i].subs == run[i].threads[t].start && run[i].writer == None
  {
    RunKeepsInv(run, events, i);
    assert ThreadInv(run[i], t);
    assert t in run[i].readers <==> run[i].threads[t].Sending?;
  }

  /** In every interleaving, a publish that has ended has reached everyone who was subscribed
      when it took the lock: its event is among those received or queued exactly once, unless
      sixty-four were queued when it was offered; and it has reached nobody else. */
  lemma PublishReachesAll(run: seq<State>, events: seq<Event>, i: nat, t: ThreadId, ch: ChanId)
    requires IsRun(run, events) && i < |run| && t in run[i].threads && run[i].threads[t].Published?
    ensures ch in run[i].threads[t].start ==> ch < |run[i].chans|
    ensures ch < |run[i].chans| ==>
              var c, pc := run[i].chans[ch], run[i].threads[t];
              && |c.taken + c.queue| == |c.got|
              && multiset(c.got)[t] == (if ch in pc.start && t !in c.lost then 1 else 0)
              && (forall k :: 0 <= k < |c.got| && c.got[k] == t ==> (c.taken + c.queue)[k] == pc.ev)
              && (t in c.lost ==> ch in pc.start && c.lost[t] == 64)
  {
    var s := run[i];
    RunKeepsInv(run, events, i);
    RunKeepsAccounts(run, events, i);
    assert ThreadInv(s, t);
    hide Inv, IsRun;
    assert ch in s.threads[t].start <==> SentEvent(s.threads, t, ch).Some? || HasSkipped(s.threads, t, ch);
    if ch < |s.chans| {
      assert Account(s.chans[ch], ch, s.threads);
      hide Accounts, ThreadInv;
      CountOfDistinct(s.chans[ch].got, t);
    }
  }

  /** And nothing else is ever received: every event taken or queued was published by the
      thread that is recorded for it, each of which is recorded once. */
  lemma NothingElseReceived(run: seq<State>, events: seq<Event>, i: nat, ch: ChanId)
    requires IsRun(run, events) && i < |run| && ch < |run[i].chans|
    ensures var c, threads := run[i].chans[ch], run[i].threads;
            && |c.taken + c.queue| == |c.got| && |c.queue| <= 64
            && (forall k :: 0 <= k < |c.got| ==>
                  && c.got[k] in threads && (threads[c.got[k]].Sending? || threads[c.got[k]].Published?)
                  && ch in threads[c.got[k]].start && (c.taken + c.queue)[k] == threads[c.got[k]].ev)
            && (forall k, l :: 0 <= k < l < |c.got| ==> c.got[k] != c.got[l])
  {
    var s := run[i];
    var c := s.chans[ch];
    RunKeepsInv(run, events, i);
    RunKeepsAccounts(run, events, i);
    assert Account(c, ch, s.threads) && ChanInv(s, ch);
    hide IsRun, Accounts;
    forall k | 0 <= k < |c.got|
      ensures c.got[k] in s.threads && (s.threads[c.got[k]].Sending? || s.threads[c.got[k]].Published?)
      ensures ch in s.threads[c.got[k]].start && (c.taken + c.queue)[k] == s.threads[c.got[k]].ev
    {
      assert SentEvent(s.threads, c.got[k], ch).Some?;
      assert ThreadInv(s, c.got[k]);
    }
  }
}
