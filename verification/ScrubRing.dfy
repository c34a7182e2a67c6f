/** The ring of the last hundred scrub events, as a view of the unbounded log of appends. */
module ScrubRing {
  import opened Prelude

  datatype ScrubEvent = ScrubEvent(pool: string, state: string, timestamp: int)

  const BUFFER_SIZE := 100

  /** What Latest answers: it first looks whether slot 0 holds anything, and slot 0 holds the
      last append whose index is a multiple of the ring's size. */
  function LatestOf(log: seq<Option<ScrubEvent>>): Option<ScrubEvent> {
    if log == [] || log[(|log| - 1) / BUFFER_SIZE * BUFFER_SIZE] == None then None else log[|log| - 1]
  }

  /** With real events only, that is the newest one, and nil exactly when there is none. A nil
      append breaks it exactly when it sits in slot 0 under a newer real event. */
  lemma LatestIsNewest(log: seq<Option<ScrubEvent>>)
    ensures (forall k :: 0 <= k < |log| ==> log[k].Some?) ==>
              if log == [] then LatestOf(log) == None else LatestOf(log) == log[|log| - 1]
    ensures log != [] ==>
              (LatestOf(log) == log[|log| - 1]
               <==> log[|log| - 1] == None || log[(|log| - 1) / BUFFER_SIZE * BUFFER_SIZE].Some?)
  {
  }

  /** As after a nil append and a real one. */
  lemma NilHidesNewest(ev: ScrubEvent)
    ensures LatestOf([None, Some(ev)]) == None
  {
  }

  class EventBuffer {
    const events: array<Option<ScrubEvent>>
    var pos: nat
    var full: bool
    ghost var log: seq<Option<ScrubEvent>>  // every append, oldest first

    ghost predicate Valid()
      reads this, events
    {
      && events.Length == BUFFER_SIZE
      && pos == |log| % BUFFER_SIZE
      && (full <==> |log| >= BUFFER_SIZE)
      && (forall k :: 0 <= k < |log| && |log| - BUFFER_SIZE <= k ==> events[k % BUFFER_SIZE] == log[k])
      && (forall i :: |log| <= i < BUFFER_SIZE ==> events[i] == None)
    }

    constructor ()
      ensures Valid() && log == [] && fresh(events)
    {
      events := new Option<ScrubEvent>[BUFFER_SIZE](_ => None);
      pos, full, log := 0, false, [];
    }

    /** The first half of Append, under `mu`; the fan-out that follows is in FanOut. */
    method Append(ev: Option<ScrubEvent>)
      requires Valid()
      modifies this, events
      ensures Valid() && log == old(log) + [ev]
    {
      SlotsDiffer(|log|);
      events[pos] := ev;
      pos := (pos + 1) % BUFFER_SIZE;
      log := log + [ev];
      if pos == 0 {
        full := true;
      }
    }

    method Latest() returns (r: Option<ScrubEvent>)
      requires Valid()
      ensures r == LatestOf(log)
    {
      SlotOfLast(|log|);
      if events[0] == None {
        return None;
      }
      var idx := (pos - 1 + BUFFER_SIZE) % BUFFER_SIZE;
      r := events[idx];
    }

    /** The occupied slots, oldest first. */
    ghost function Contents(): seq<Option<ScrubEvent>>
      requires Valid()
      reads this, events
    {
      if full then events[pos..] + events[..pos] else events[..pos]
    }

    /** They are exactly the last hundred appends. */
    lemma ContentsAreLast()
      requires Valid()
      ensures Contents() == Last(log, 100)
    {
      var c, r := Contents(), Last(log, 100);
      forall i | 0 <= i < |c| ensures |r| == |c| && c[i] == r[i] {
        if full {
          SlotFromOldest(|log|, i);
        }
      }
    }
  }

  /** No two of the last hundred appends share a slot. */
  lemma SlotsDiffer(n: nat)
    ensures forall k :: 0 <= k < n && n - BUFFER_SIZE < k ==> k % BUFFER_SIZE != n % BUFFER_SIZE
    ensures (n + 1) % BUFFER_SIZE == (n % BUFFER_SIZE + 1) % BUFFER_SIZE
  {
    forall k | 0 <= k < n && n - BUFFER_SIZE < k ensures k % BUFFER_SIZE != n % BUFFER_SIZE {
      SlotDiffers(k, n);
    }
  }

  lemma SlotDiffers(k: nat, n: nat)
    requires k < n < k + BUFFER_SIZE
    ensures k % BUFFER_SIZE != n % BUFFER_SIZE
  {
  }

  lemma SlotOfLast(n: nat)
    ensures n > 0 ==>
              && (n % BUFFER_SIZE - 1 + BUFFER_SIZE) % BUFFER_SIZE == (n - 1) % BUFFER_SIZE
              && (n - 1) / BUFFER_SIZE * BUFFER_SIZE % BUFFER_SIZE == 0
              && n - BUFFER_SIZE <= (n - 1) / BUFFER_SIZE * BUFFER_SIZE < n
  {
  }

  lemma SlotFromOldest(n: nat, i: nat)
    requires n >= BUFFER_SIZE && i < BUFFER_SIZE
    ensures (n - BUFFER_SIZE + i) % BUFFER_SIZE
            == if n % BUFFER_SIZE + i < BUFFER_SIZE then n % BUFFER_SIZE + i else n % BUFFER_SIZE + i - BUFFER_SIZE
  {
  }
}
