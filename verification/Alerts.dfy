/** The alert engine: what a pool's state calls for, and the cooldown per host, pool and level. */
module Alerts {
  import opened Prelude

  datatype Config = Config(enabled: bool, capacityWarning: int, capacityCritical: int, cooldownMinutes: int)
  datatype Level = Warning | Critical
  datatype Trigger = Health(state: string) | Capacity(pct: int) | ScrubErrors(n: int)
  datatype Alert = Alert(level: Level, host: string, pool: string, trigger: Trigger)
  datatype Pool = Pool(name: string, health: string, capacity: int, scrubErrors: Option<int>)

  function Name(level: Level): string { if level == Critical then "critical" else "warning" }

  function Key(host: string, pool: string, level: Level): string { host + ":" + (pool + ":" + Name(level)) }
  function KeyOf(a: Alert): string { Key(a.host, a.pool, a.level) }

  /** Two alerts have one key exactly if they have one level and the texts before it agree. */
  lemma KeyEqualIff(host: string, pool: string, level: Level, host': string, pool': string, level': Level)
    ensures Key(host, pool, level) == Key(host', pool', level')
            <==> level == level' && host + ":" + pool == host' + ":" + pool'
  {
    assert |Name(Critical)| != |Name(Warning)|;
    KeySplits(host, pool, level);
    KeySplits(host', pool', level');
    if Key(host, pool, level) == Key(host', pool', level') {
      SplitAtLast(host + ":" + pool, Name(level), host' + ":" + pool', Name(level'), ':');
    }
  }

  lemma KeySplits(host: string, pool: string, level: Level)
    ensures Key(host, pool, level) == (host + ":" + pool) + [':'] + Name(level)
    ensures ':' !in Name(level)
  {
    assert host + ":" + (pool + ":" + Name(level)) == (host + ":" + pool) + [':'] + Name(level);
  }

  /** Whether one host name, with a colon after it, starts the other. */
  predicate OneStartsOther(host: string, host': string) {
    host + ":" <= host' || host' + ":" <= host
  }

  /** The key of two hosts' alerts can be the same for some pools exactly if one host's name
      and a colon start the other's; otherwise a key names one host and pool. */
  lemma HostsCollideIff(host: string, host': string)
    requires host != host'
    ensures (exists pool, pool' :: host + ":" + pool == host' + ":" + pool') <==> OneStartsOther(host, host')
  {
    if pool, pool' :| host + ":" + pool == host' + ":" + pool' {
      if |host| <= |host'| {
        SharedStart(host, pool, host', pool');
      } else {
        SharedStart(host', pool', host, pool);
      }
    }
    if host + ":" <= host' {
      Extended(host, host');
    } else if host' + ":" <= host {
      Extended(host', host);
    }
  }

  lemma SharedStart(host: string, pool: string, host': string, pool': string)
    requires host != host' && |host| <= |host'| && host + ":" + pool == host' + ":" + pool'
    ensures host + ":" <= host'
  {
    var k := host + ":" + pool;
    assert k[..|host|] == host && k[..|host'|] == host';
    assert |host| != |host'|;
    assert k[..|host| + 1] == host + ":" && k[..|host| + 1] <= host';
  }

  /** The pool of the shorter host that takes the place of a pool named c of the longer one. */
  lemma Extended(host: string, host': string)
    requires host + ":" <= host'
    ensures host + ":" + (host'[|host| + 1..] + ":" + "c") == host' + ":" + "c"
  {
    assert host' == host + ":" + host'[|host| + 1..];
  }

  /** Hence keys are exact for a set of hosts none of which starts another in that way. */
  lemma KeyInjective(host: string, pool: string, level: Level, host': string, pool': string, level': Level)
    requires !OneStartsOther(host, host') && Key(host, pool, level) == Key(host', pool', level')
    ensures host == host' && pool == pool' && level == level'
  {
    KeyEqualIff(host, pool, level, host', pool', level');
    if host != host' {
      HostsCollideIff(host, host');
    } else {
      assert (host + ":" + pool)[|host| + 1..] == pool && (host + ":" + pool')[|host| + 1..] == pool';
    }
  }

  // ---- the cooldown, over the history of dispatched alerts ----

  datatype Attempt = Attempt(key: string, at: int)

  function Due(ds: seq<int>, now: int, cooldown: int): bool { ds == [] || now - ds[|ds| - 1] >= cooldown }

  /** The times at which the alerts of a key were delivered. */
  function Deliveries(h: seq<Attempt>, key: string, cooldown: int): seq<int> {
    if h == [] then [] else
    var ds, a := Deliveries(h[..|h| - 1], key, cooldown), h[|h| - 1];
    if a.key == key && Due(ds, a.at, cooldown) then ds + [a.at] else ds
  }

  lemma NextDelivery(h: seq<Attempt>, a: Attempt, key: string, cooldown: int)
    ensures var ds := Deliveries(h, key, cooldown);
            Deliveries(h + [a], key, cooldown) == if a.key == key && Due(ds, a.at, cooldown) then ds + [a.at] else ds
  {
    assert (h + [a])[..|h|] == h;
  }

  predicate Chronological(h: seq<Attempt>) { forall i, j :: 0 <= i < j < |h| ==> h[i].at <= h[j].at }

  ghost predicate Spaced(ds: seq<int>, cooldown: int) {
    forall i, j :: 0 <= i < j < |ds| ==> ds[j] - ds[i] >= cooldown
  }

  /** Two deliveries of one key are at least a cooldown apart. */
  lemma {:induction false} DeliveriesSpaced(h: seq<Attempt>, key: string, cooldown: int)
    requires cooldown > 0
    ensures Spaced(Deliveries(h, key, cooldown), cooldown)
  {
    if h != [] {
      DeliveriesSpaced(h[..|h| - 1], key, cooldown);
    }
  }

  function InSpan(from: int, to: int): int -> bool { (t: int) => from <= t <= to }

  /** So no span of length T holds more than T/C + 1 of them. */
  lemma {:induction false} DeliveriesBounded(ds: seq<int>, cooldown: int, from: int, span: nat)
    requires cooldown > 0 && Spaced(ds, cooldown)
    ensures |Filter(ds, InSpan(from, from + span))| <= span / cooldown + 1
    decreases |ds|, 0
  {
    hide Filter;
    assert span / cooldown >= 0;
    FilterAll(ds, InSpan(from, from + span));
    if ds != [] {
      var init, last := ds[..|ds| - 1], ds[|ds| - 1];
      assert ds == init + [last];
      FilterNext(init, last, InSpan(from, from + span));
      if InSpan(from, from + span)(last) {
        EarlierBounded(init, last, cooldown, from, span);
      } else {
        DeliveriesBounded(init, cooldown, from, span);
      }
    }
  }

  /** In particular of the deliveries of one key. */
  lemma KeyDeliveriesBounded(h: seq<Attempt>, key: string, cooldown: int, from: int, span: nat)
    requires cooldown > 0
    ensures |Filter(Deliveries(h, key, cooldown), InSpan(from, from + span))| <= span / cooldown + 1
  {
    hide *;
    DeliveriesSpaced(h, key, cooldown);
    DeliveriesBounded(Deliveries(h, key, cooldown), cooldown, from, span);
  }

  /** Those before a delivery at `last` lie a cooldown before it. */
  lemma EarlierBounded(init: seq<int>, last: int, cooldown: int, from: int, span: nat)
    requires cooldown > 0 && Spaced(init + [last], cooldown) && from <= last <= from + span
    ensures |Filter(init, InSpan(from, from + span))| <= span / cooldown
    decreases |init|, 1
  {
    hide Filter;
    assert span / cooldown >= 0;
    forall k | 0 <= k < |init| ensures init[k] <= last - cooldown {
      assert (init + [last])[k] == init[k] && (init + [last])[|init|] == last;
    }
    var left := last - cooldown - from;
    if left < 0 {
      FilterAll(init, InSpan(from, from + span));
    } else {
      assert Spaced(init, cooldown) by {
        assert forall k :: 0 <= k < |init| ==> (init + [last])[k] == init[k];
      }
      DeliveriesBounded(init, cooldown, from, left);
      FilterAgree(init, InSpan(from, from + span), InSpan(from, from + left));
      QuotientAtLeast(span, cooldown, left / cooldown + 1);
    }
  }

  lemma QuotientAtLeast(n: nat, d: nat, k: nat)
    requires d > 0 && k * d <= n
    ensures k <= n / d
  {
    var gap := n / d + 1 - k;
    assert gap * d > 0;
  }

  /** An alert is delivered exactly if every earlier delivery of its key is a cooldown old; one
      that is suppressed has a delivery of its key less than a cooldown before it. */
  lemma DeliveredIff(h: seq<Attempt>, a: Attempt, cooldown: int)
    requires cooldown > 0 && Chronological(h + [a])
    ensures var ds := Deliveries(h, a.key, cooldown);
            && (Due(ds, a.at, cooldown) <==> forall d :: d in ds ==> a.at - d >= cooldown)
            && (!Due(ds, a.at, cooldown) ==> exists d :: d in ds && 0 <= a.at - d < cooldown)
  {
    var ds := Deliveries(h, a.key, cooldown);
    DeliveriesSpaced(h, a.key, cooldown);
    DeliveriesPast(h, a, cooldown);
    if ds != [] {
      assert ds[|ds| - 1] in ds;
    }
  }

  lemma DeliveriesPast(h: seq<Attempt>, a: Attempt, cooldown: int)
    requires Chronological(h + [a])
    ensures forall d :: d in Deliveries(h, a.key, cooldown) ==> d <= a.at
  {
    forall i | 0 <= i < |h| ensures h[i].at <= a.at {
      assert (h + [a])[i] == h[i] && (h + [a])[|h|] == a;
    }
    NotInFuture(h, a.key, a.at, cooldown);
  }

  lemma {:induction false} NotInFuture(h: seq<Attempt>, key: string, now: int, cooldown: int)
    requires forall x :: x in h ==> x.at <= now
    ensures forall d :: d in Deliveries(h, key, cooldown) ==> d <= now
  {
    if h != [] {
      NotInFuture(h[..|h| - 1], key, now, cooldown);
    }
  }

  /** A delivered alert silences all alerts with its key, however many, until a cooldown has
      passed; the first one after that is delivered. */
  lemma {:induction false} SharedKeySilences(h: seq<Attempt>, a: Attempt, more: seq<Attempt>, b: Attempt, cooldown: int)
    requires a.key == b.key && Due(Deliveries(h, a.key, cooldown), a.at, cooldown)
    requires forall x :: x in more && x.key == a.key ==> x.at - a.at < cooldown
    ensures Deliveries(h + [a] + more, a.key, cooldown) == Deliveries(h, a.key, cooldown) + [a.at]
    ensures Due(Deliveries(h + [a] + more, b.key, cooldown), b.at, cooldown) <==> b.at - a.at >= cooldown
  {
    hide Deliveries;
    if more == [] {
      NextDelivery(h, a, a.key, cooldown);
      assert h + [a] + more == h + [a];
    } else {
      var init, x := more[..|more| - 1], more[|more| - 1];
      assert x in more && forall y :: y in init ==> y in more;
      SharedKeySilences(h, a, init, b, cooldown);
      NextDelivery(h + [a] + init, x, a.key, cooldown);
      assert h + [a] + more == h + [a] + init + [x];
    }
  }

  /** So host "a:b" with pool "c" silences host "a" with pool "b:c", about which nothing was
      ever sent, for a whole cooldown. */
  lemma KeyCanCollide(level: Level, trigger: Trigger, trigger': Trigger, now: int, later: int, cooldown: int)
    ensures var a, b := Alert(level, "a:b", "c", trigger), Alert(level, "a", "b:c", trigger');
            && Due(Deliveries([], KeyOf(a), cooldown), now, cooldown)
            && (Due(Deliveries([Attempt(KeyOf(a), now)], KeyOf(b), cooldown), later, cooldown)
                <==> later - now >= cooldown)
  {
    var a, b := Alert(level, "a:b", "c", trigger), Alert(level, "a", "b:c", trigger');
    assert "a:b" + ":" + "c" == "a" + ":" + "b:c";
    KeyEqualIff("a:b", "c", level, "a", "b:c", level);
    SharedKeySilences([], Attempt(KeyOf(a), now), [], Attempt(KeyOf(b), later), cooldown);
    assert [] + [Attempt(KeyOf(a), now)] + [] == [Attempt(KeyOf(a), now)];
  }

  /** Without a positive cooldown nothing is ever suppressed. */
  lemma NoCooldownNoSilence(h: seq<Attempt>, a: Attempt, cooldown: int)
    requires cooldown <= 0 && Chronological(h + [a])
    ensures Due(Deliveries(h, a.key, cooldown), a.at, cooldown)
  {
    var ds := Deliveries(h, a.key, cooldown);
    DeliveriesPast(h, a, cooldown);
    if ds != [] {
      assert ds[|ds| - 1] in ds;
    }
  }

  // ---- what a pool's state calls for ----

  predicate Unhealthy(p: Pool) { p.health != "ONLINE" && p.health != "" }

  function AlertsFor(host: string, p: Pool, c: Config): seq<Alert> {
    (if Unhealthy(p) then [Alert(Critical, host, p.name, Health(p.health))] else [])
    + (if p.capacity >= c.capacityCritical then [Alert(Critical, host, p.name, Capacity(p.capacity))]
       else if p.capacity >= c.capacityWarning then [Alert(Warning, host, p.name, Capacity(p.capacity))] else [])
    + (if p.scrubErrors.Some? && p.scrubErrors.value > 0
       then [Alert(Critical, host, p.name, ScrubErrors(p.scrubErrors.value))] else [])
  }

  /** What the alerts of a check are: of this host and pool; one about health, critical, exactly
      if the state is neither empty nor ONLINE; one about capacity exactly from one of the two
      levels on, critical from the critical one on; one about the scrub, critical, exactly if it
      found errors; in this order. */
  lemma AlertsMean(host: string, p: Pool, c: Config)
    ensures var alerts := AlertsFor(host, p, c);
            var full := p.capacity >= c.capacityCritical || p.capacity >= c.capacityWarning;
            var scrubbed := p.scrubErrors.Some? && p.scrubErrors.value > 0;
            && (forall a :: a in alerts ==> a.host == host && a.pool == p.name)
            && (forall a :: a in alerts && a.trigger.Health? <==>
                  a == Alert(Critical, host, p.name, Health(p.health)) && p.health != "ONLINE" && p.health != "")
            && (forall a :: a in alerts && a.trigger.Capacity? <==>
                  && full
                  && a == Alert(if p.capacity >= c.capacityCritical then Critical else Warning, host, p.name,
                                Capacity(p.capacity)))
            && (forall a :: a in alerts && a.trigger.ScrubErrors? <==>
                  scrubbed && a == Alert(Critical, host, p.name, ScrubErrors(p.scrubErrors.value)))
            && (forall i, j :: 0 <= i < j < |alerts| ==> Order(alerts[i].trigger) < Order(alerts[j].trigger))
  {
  }

  function Order(t: Trigger): nat { if t.Health? then 0 else if t.Capacity? then 1 else 2 }

  function WithDefaults(c: Config): Config {
    Config(c.enabled,
           if c.capacityWarning == 0 then 80 else c.capacityWarning,
           if c.capacityCritical == 0 then 90 else c.capacityCritical,
           if c.cooldownMinutes == 0 then 60 else c.cooldownMinutes)
  }

  function Attempts(alerts: seq<Alert>, now: int): (r: seq<Attempt>)
    ensures |r| == |alerts| && forall i :: 0 <= i < |r| ==> r[i] == Attempt(KeyOf(alerts[i]), now)
  {
    seq(|alerts|, i requires 0 <= i < |alerts| => Attempt(KeyOf(alerts[i]), now))
  }

  /** Those of the alerts, dispatched in a row at one time, that are delivered. */
  function Sent(h: seq<Attempt>, alerts: seq<Alert>, now: int, cooldown: int): seq<Alert> {
    if alerts == [] then [] else
    var init, a := alerts[..|alerts| - 1], alerts[|alerts| - 1];
    Sent(h, init, now, cooldown)
    + if Due(Deliveries(h + Attempts(init, now), KeyOf(a), cooldown), now, cooldown) then [a] else []
  }

  class Engine {
    const cfg: Config
    var cooldown: map<string, int>
    ghost var history: seq<Attempt>  // every alert ever dispatched, delivered or not

    function Cooldown(): int { cfg.cooldownMinutes * MINUTE }

    /** The map holds the last delivery of every key. */
    ghost predicate Valid()
      reads this
    {
      forall key ::
        var ds := Deliveries(history, key, Cooldown());
        (key in cooldown <==> ds != []) && (key in cooldown ==> cooldown[key] == ds[|ds| - 1])
    }

    constructor (given: Option<Config>)
      ensures Valid() && history == []
      ensures cfg.capacityWarning != 0 && cfg.capacityCritical != 0 && Cooldown() != 0
      ensures given.None? ==>
                && !cfg.enabled
                && cfg.capacityWarning == 80 && cfg.capacityCritical == 90 && Cooldown() == 3_600_000_000_000
      ensures given.Some? ==>
                && cfg.enabled == given.value.enabled
                && cfg.capacityWarning == (if given.value.capacityWarning != 0 then given.value.capacityWarning else 80)
                && cfg.capacityCritical ==
                    (if given.value.capacityCritical != 0 then given.value.capacityCritical else 90)
                && Cooldown() ==
                    (if given.value.cooldownMinutes != 0 then given.value.cooldownMinutes * 60_000_000_000
                     else 3_600_000_000_000)
    {
      cfg := WithDefaults(if given.Some? then given.value else Config(false, 0, 0, 0));
      cooldown, history := map[], [];
    }

    method Dispatch(a: Alert, now: int) returns (sent: bool)
      requires Valid()
      modifies this
      ensures Valid() && history == old(history) + [Attempt(KeyOf(a), now)]
      ensures sent <==> Due(Deliveries(old(history), KeyOf(a), Cooldown()), now, Cooldown())
    {
      hide Deliveries, KeyOf;
      var key := KeyOf(a);
      forall k {
        NextDelivery(history, Attempt(key, now), k, Cooldown());
      }
      history := history + [Attempt(key, now)];
      if key in cooldown && now - cooldown[key] < Cooldown() {
        return false;
      }
      cooldown := cooldown[key := now];
      return true;
    }

    method CheckPool(host: string, p: Pool, now: int) returns (sent: seq<Alert>)
      requires Valid()
      modifies this
      ensures Valid() && history == old(history) + Attempts(AlertsFor(host, p, cfg), now)
      ensures sent == Sent(old(history), AlertsFor(host, p, cfg), now, Cooldown())
    {
      var alerts: seq<Alert> := [];
      if Unhealthy(p) {
        alerts := alerts + [Alert(Critical, host, p.name, Health(p.health))];
      }
      if p.capacity >= cfg.capacityCritical {
        alerts := alerts + [Alert(Critical, host, p.name, Capacity(p.capacity))];
      } else if p.capacity >= cfg.capacityWarning {
        alerts := alerts + [Alert(Warning, host, p.name, Capacity(p.capacity))];
      }
      if p.scrubErrors.Some? && p.scrubErrors.value > 0 {
        alerts := alerts + [Alert(Critical, host, p.name, ScrubErrors(p.scrubErrors.value))];
      }
      assert alerts == AlertsFor(host, p, cfg);
      sent := DispatchAll(alerts, now);
    }

    method DispatchAll(alerts: seq<Alert>, now: int) returns (sent: seq<Alert>)
      requires Valid()
      modifies this
      ensures Valid() && history == old(history) + Attempts(alerts, now)
      ensures sent == Sent(old(history), alerts, now, Cooldown())
    {
      hide Deliveries, KeyOf;
      sent := [];
      for i := 0 to |alerts|
        invariant Valid() && history == old(history) + Attempts(alerts[..i], now)
        invariant sent == Sent(old(history), alerts[..i], now, Cooldown())
      {
        assert alerts[..i + 1][..i] == alerts[..i];
        var ok := Dispatch(alerts[i], now);
        assert Attempts(alerts[..i + 1], now) == Attempts(alerts[..i], now) + [Attempt(KeyOf(alerts[i]), now)];
        if ok {
          sent := sent + [alerts[i]];
        }
      }
      assert alerts[..|alerts|] == alerts;
    }

    method CheckPools(host: string, pools: seq<Pool>, now: int) returns (sent: seq<Alert>)
      requires Valid()
      modifies this
      ensures Valid()
      ensures !cfg.enabled ==> sent == [] && history == old(history)
      ensures cfg.enabled ==>
                && history == old(history) + Attempts(AllAlerts(host, pools, cfg), now)
                && sent == Sent(old(history), AllAlerts(host, pools, cfg), now, Cooldown())
    {
      hide AlertsFor, AllAlerts, Attempts, Sent, Valid;
      sent := [];
      if !cfg.enabled {
        return;
      }
      NoPools(history, host, cfg, now, Cooldown());
      for i := 0 to |pools|
        invariant Valid() && history == old(history) + Attempts(AllAlerts(host, pools[..i], cfg), now)
        invariant sent == Sent(old(history), AllAlerts(host, pools[..i], cfg), now, Cooldown())
      {
        NextPool(old(history), host, pools, i, cfg, now, Cooldown());
        var s := CheckPool(host, pools[i], now);
        sent := sent + s;
      }
      assert pools[..|pools|] == pools;
    }
  }

  function AllAlerts(host: string, pools: seq<Pool>, c: Config): seq<Alert> {
    if pools == [] then [] else AllAlerts(host, pools[..|pools| - 1], c) + AlertsFor(host, pools[|pools| - 1], c)
  }

  /** The alerts of all pools are those of each, in the order of the pools. */
  lemma {:induction false} AllAlertsAre(host: string, x: seq<Pool>, p: Pool, y: seq<Pool>, c: Config)
    ensures AllAlerts(host, x + y, c) == AllAlerts(host, x, c) + AllAlerts(host, y, c)
    ensures AllAlerts(host, [p], c) == AlertsFor(host, p, c)
  {
    hide AlertsFor;
    assert AllAlerts(host, [p], c) == [] + AlertsFor(host, p, c) by {
      assert [p][..0] == [];
    }
    if y == [] {
      assert x + y == x;
    } else {
      assert (x + y)[..|x + y| - 1] == x + y[..|y| - 1];
      AllAlertsAre(host, x, p, y[..|y| - 1], c);
    }
  }

  /** What is sent of two lots is what is sent of the first, and of the second after it; of one
      alert it is that alert if its key is due. */
  lemma SentAre(h: seq<Attempt>, x: seq<Alert>, y: seq<Alert>, a: Alert, now: int, cooldown: int)
    ensures Sent(h, x + y, now, cooldown) == Sent(h, x, now, cooldown) + Sent(h + Attempts(x, now), y, now, cooldown)
    ensures Sent(h, [a], now, cooldown) == if Due(Deliveries(h, KeyOf(a), cooldown), now, cooldown) then [a] else []
  {
    SentConcat(h, x, y, now, cooldown);
    SentNone(h, now, cooldown);
    NextSent(h, [], a, now, cooldown);
    assert [] + [a] == [a] && h + Attempts([], now) == h;
    hide *;
  }

  lemma NoPools(h: seq<Attempt>, host: string, c: Config, now: int, cooldown: int)
    ensures h + Attempts(AllAlerts(host, [], c), now) == h && Sent(h, AllAlerts(host, [], c), now, cooldown) == []
  {
  }

  lemma NextPool(h: seq<Attempt>, host: string, pools: seq<Pool>, i: nat, c: Config, now: int, cooldown: int)
    requires i < |pools|
    ensures var before, more := AllAlerts(host, pools[..i], c), AlertsFor(host, pools[i], c);
            var after := AllAlerts(host, pools[..i + 1], c);
            && h + Attempts(after, now) == h + Attempts(before, now) + Attempts(more, now)
            && Sent(h, after, now, cooldown)
               == Sent(h, before, now, cooldown) + Sent(h + Attempts(before, now), more, now, cooldown)
  {
    hide *;
    var before, more := AllAlerts(host, pools[..i], c), AlertsFor(host, pools[i], c);
    NextAlerts(host, pools, i, c);
    AttemptsConcat(h, before, more, now);
    SentConcat(h, before, more, now, cooldown);
  }

  lemma NextAlerts(host: string, pools: seq<Pool>, i: nat, c: Config)
    requires i < |pools|
    ensures AllAlerts(host, pools[..i + 1], c) == AllAlerts(host, pools[..i], c) + AlertsFor(host, pools[i], c)
  {
    hide AlertsFor;
    assert pools[..i + 1][..i] == pools[..i];
  }

  lemma AttemptsConcat(h: seq<Attempt>, x: seq<Alert>, y: seq<Alert>, now: int)
    ensures h + Attempts(x + y, now) == h + Attempts(x, now) + Attempts(y, now)
  {
    hide KeyOf;
    assert Attempts(x + y, now) == Attempts(x, now) + Attempts(y, now);
  }

  lemma SentNone(h: seq<Attempt>, now: int, cooldown: int)
    ensures Sent(h, [], now, cooldown) == []
  {
  }

  lemma {:induction false} SentConcat(h: seq<Attempt>, x: seq<Alert>, y: seq<Alert>, now: int, cooldown: int)
    ensures Sent(h, x + y, now, cooldown) == Sent(h, x, now, cooldown) + Sent(h + Attempts(x, now), y, now, cooldown)
  {
    hide Deliveries, Sent;
    if y == [] {
      assert x + y == x;
      SentNone(h + Attempts(x, now), now, cooldown);
    } else {
      var init, a := y[..|y| - 1], y[|y| - 1];
      assert x + y == (x + init) + [a] && y == init + [a];
      SentConcat(h, x, init, now, cooldown);
      AttemptsConcat(h, x, init, now);
      NextSent(h, x + init, a, now, cooldown);
      NextSent(h + Attempts(x, now), init, a, now, cooldown);
    }
  }

  lemma NextSent(h: seq<Attempt>, alerts: seq<Alert>, a: Alert, now: int, cooldown: int)
    ensures Sent(h, alerts + [a], now, cooldown)
            == Sent(h, alerts, now, cooldown)
               + if Due(Deliveries(h + Attempts(alerts, now), KeyOf(a), cooldown), now, cooldown) then [a] else []
  {
    assert (alerts + [a])[..|alerts|] == alerts;
  }

  // ---- one check, one alert per level ----

  /** An alert that follows one of its own key in the same check is never due. */
  lemma {:induction false} Silenced(h: seq<Attempt>, alerts: seq<Alert>, i: nat, key: string, now: int, cooldown: int)
    requires cooldown > 0 && i < |alerts| && KeyOf(alerts[i]) == key
    ensures !Due(Deliveries(h + Attempts(alerts, now), key, cooldown), now, cooldown)
  {
    hide Deliveries, KeyOf;
    var n := |alerts| - 1;
    var before, last := h + Attempts(alerts[..n], now), Attempt(KeyOf(alerts[n]), now);
    assert h + Attempts(alerts, now) == before + [last];
    NextDelivery(before, last, key, cooldown);
    if i < n {
      Silenced(h, alerts[..n], i, key, now, cooldown);
    }
  }

  /** What is sent in one check is, for its key, the first alert of the check. */
  lemma {:induction false} SentIsFirst(h: seq<Attempt>, alerts: seq<Alert>, now: int, cooldown: int, a: Alert)
    requires cooldown > 0 && a in Sent(h, alerts, now, cooldown)
    ensures exists i :: 0 <= i < |alerts| && alerts[i] == a && forall k :: 0 <= k < i ==> KeyOf(alerts[k]) != KeyOf(a)
  {
    hide Deliveries, KeyOf;
    var n := |alerts| - 1;
    if a in Sent(h, alerts[..n], now, cooldown) {
      SentIsFirst(h, alerts[..n], now, cooldown, a);
    } else {
      forall k | 0 <= k < n ensures KeyOf(alerts[k]) != KeyOf(a) {
        if KeyOf(alerts[k]) == KeyOf(a) {
          Silenced(h, alerts[..n], k, KeyOf(a), now, cooldown);
        }
      }
      assert alerts[n] == a;
    }
  }

  /** So with a positive cooldown a check never sends two critical alerts about a pool: while
      the pool is unhealthy, its capacity and scrub alerts are never delivered at the critical
      level, and while it is critically full its scrub errors are not. Without one all are. */
  lemma HealthMasksTheRest(h: seq<Attempt>, host: string, p: Pool, c: Config, now: int, cooldown: int)
    ensures cooldown > 0 ==>
              forall a :: a in Sent(h, AlertsFor(host, p, c), now, cooldown) && a.level == Critical ==>
                && (Unhealthy(p) ==> a.trigger == Health(p.health))
                && (!Unhealthy(p) && p.capacity >= c.capacityCritical ==> a.trigger == Capacity(p.capacity))
    ensures cooldown <= 0 && (forall x :: x in h ==> x.at <= now) ==>
              Sent(h, AlertsFor(host, p, c), now, cooldown) == AlertsFor(host, p, c)
  {
    hide Sent, AlertsFor;
    if cooldown > 0 {
      forall a | a in Sent(h, AlertsFor(host, p, c), now, cooldown) && a.level == Critical
        ensures Unhealthy(p) ==> a.trigger == Health(p.health)
        ensures !Unhealthy(p) && p.capacity >= c.capacityCritical ==> a.trigger == Capacity(p.capacity)
      {
        SentIsGravest(h, host, p, c, now, cooldown, a);
      }
    } else if forall x :: x in h ==> x.at <= now {
      AllSent(h, AlertsFor(host, p, c), now, cooldown);
    }
  }

  lemma SentIsGravest(h: seq<Attempt>, host: string, p: Pool, c: Config, now: int, cooldown: int, a: Alert)
    requires cooldown > 0 && a in Sent(h, AlertsFor(host, p, c), now, cooldown) && a.level == Critical
    ensures Unhealthy(p) ==> a.trigger == Health(p.health)
    ensures !Unhealthy(p) && p.capacity >= c.capacityCritical ==> a.trigger == Capacity(p.capacity)
  {
    hide Deliveries, Sent, Key;
    SentIsFirst(h, AlertsFor(host, p, c), now, cooldown, a);
    var alerts := AlertsFor(host, p, c);
    var i :| 0 <= i < |alerts| && alerts[i] == a && forall k :: 0 <= k < i ==> KeyOf(alerts[k]) != KeyOf(a);
    assert i > 0 ==> KeyOf(alerts[0]) != KeyOf(a);
  }

  lemma {:induction false} AllSent(h: seq<Attempt>, alerts: seq<Alert>, now: int, cooldown: int)
    requires cooldown <= 0 && forall x :: x in h ==> x.at <= now
    ensures Sent(h, alerts, now, cooldown) == alerts
  {
    hide Deliveries, KeyOf;
    if alerts != [] {
      var init, a := alerts[..|alerts| - 1], alerts[|alerts| - 1];
      AllSent(h, init, now, cooldown);
      NotInFuture(h + Attempts(init, now), KeyOf(a), now, cooldown);
      var ds := Deliveries(h + Attempts(init, now), KeyOf(a), cooldown);
      assert ds != [] ==> ds[|ds| - 1] in ds;
    }
  }
}
