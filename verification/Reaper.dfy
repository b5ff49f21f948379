/** The stale-upload reaper as a timed machine: it sleeps for half the time-to-live, sweeps, and
    sleeps again. A sleep may overrun by up to `slack`; a sweep takes no time. */
module Reaper {
  import opened StreamingHash
  import opened Records
  import opened StoreModel

  datatype Timing = Timing(ttl: nat, slack: nat)

  /** `wake` is when the reaper last swept, or started. `created` holds every upload ever created
      with its time, `settled` those whose entry was taken by `finalize` or `abort`. */
  datatype Clock = Clock(now: nat, entries: map<Id, InFlight>, wake: nat, running: bool,
                         created: map<Id, nat>, settled: set<Id>)

  datatype Event =
    | Pass(time: nat)
    | Insert(id: Id, hasher: Hasher)
    | Feed(id: Id, hasher: Hasher)
    | Settle(id: Id)
    | SweepNow
    | CancelReaper

  const BEGINNING := Clock(0, map[], 0, true, map[], {})

  function Interval(t: Timing): nat { t.ttl / 2 }

  /** The longest an entry can stay: not stale at one sweep, gone at the next. */
  function Window(t: Timing): nat { t.ttl + Interval(t) + t.slack }

  /** Time cannot pass the end of a sleep before the sweep is done. */
  predicate CanHappen(t: Timing, c: Clock, e: Event) {
    match e
    case Pass(time) => c.running ==> c.now + time <= c.wake + Interval(t) + t.slack
    case Insert(id, _) => id !in c.created
    case Feed(id, _) => id in c.entries
    case Settle(id) => id in c.created
    case SweepNow => c.running && c.wake + Interval(t) <= c.now
    case CancelReaper => true
  }

  function After(t: Timing, c: Clock, e: Event): Clock {
    if !CanHappen(t, c, e) then c
    else
      match e
      case Pass(time) => c.(now := c.now + time)
      case Insert(id, hasher) =>
        c.(entries := c.entries[id := InFlight(hasher, c.now)], created := c.created[id := c.now])
      case Feed(id, hasher) => c.(entries := c.entries[id := c.entries[id].(hasher := hasher)])
      case Settle(id) => c.(entries := c.entries - {id}, settled := c.settled + {id})
      case SweepNow => c.(entries := c.entries - Stale(c.entries, c.now, t.ttl), wake := c.now)
      case CancelReaper => c.(running := false)
  }

  function Lapse(t: Timing, events: seq<Event>): Clock {
    if events == [] then BEGINNING else After(t, Lapse(t, events[..|events| - 1]), events[|events| - 1])
  }

  predicate EntryOk(t: Timing, c: Clock, id: Id) {
    && (id in c.created ==> c.created[id] <= c.now)
    && (id in c.entries ==>
          id in c.created && c.entries[id].createdAt == c.created[id] && c.wake <= c.created[id] + t.ttl)
    && (id in c.created && id !in c.settled && c.now <= c.created[id] + t.ttl ==> id in c.entries)
    && (id in c.settled ==> id in c.created && id !in c.entries)
  }

  ghost predicate ClockOk(t: Timing, c: Clock) {
    && c.wake <= c.now
    && (c.running ==> c.now <= c.wake + Interval(t) + t.slack)
    && forall id: Id :: EntryOk(t, c, id)
  }

  lemma EventKeeps(t: Timing, c: Clock, e: Event)
    requires ClockOk(t, c)
    ensures ClockOk(t, After(t, c, e))
  {
    forall id: Id ensures EntryOk(t, After(t, c, e), id) {
      assert EntryOk(t, c, id);
    }
  }

  lemma {:induction false} LapseKeeps(t: Timing, events: seq<Event>)
    ensures ClockOk(t, Lapse(t, events))
    decreases |events|
  {
    if events != [] {
      LapseKeeps(t, events[..|events| - 1]);
      EventKeeps(t, Lapse(t, events[..|events| - 1]), events[|events| - 1]);
    }
  }

  /** An upload that is neither finalized nor aborted keeps its entry for its whole time-to-live. */
  lemma YoungEntriesStay(t: Timing, events: seq<Event>, id: Id)
    requires var c := Lapse(t, events);
             id in c.created && id !in c.settled && c.now <= c.created[id] + t.ttl
    ensures id in Lapse(t, events).entries
  {
    LapseKeeps(t, events);
    assert EntryOk(t, Lapse(t, events), id);
  }

  /** Two sweeps are at least half the time-to-live apart. */
  lemma SweepsAreApart(t: Timing, c: Clock, time: nat)
    requires CanHappen(t, c, SweepNow)
    ensures var swept := After(t, c, SweepNow);
            var later := swept.(now := swept.now + time);
            CanHappen(t, later, SweepNow) <==> time >= t.ttl / 2
  {
  }

  /** An upload that was finalized or aborted has no entry, and never gets one again. */
  lemma SettledAreGone(t: Timing, events: seq<Event>, id: Id)
    requires id in Lapse(t, events).settled
    ensures id !in Lapse(t, events).entries
  {
    LapseKeeps(t, events);
    assert EntryOk(t, Lapse(t, events), id);
  }

  /** While the reaper runs, no entry is ever older than the window. */
  lemma NoEntryOutlivesWindow(t: Timing, events: seq<Event>, id: Id)
    requires var c := Lapse(t, events); c.running && id in c.entries
    ensures var c := Lapse(t, events);
            && id in c.created && c.entries[id].createdAt == c.created[id] <= c.now
            && c.now <= c.created[id] + t.ttl + t.ttl / 2 + t.slack
  {
    LapseKeeps(t, events);
    assert EntryOk(t, Lapse(t, events), id);
  }

  /** The uploads created in the last `Window` of time. */
  function Recent(t: Timing, c: Clock): set<Id> {
    set id | id in c.created && c.now <= c.created[id] + t.ttl + t.ttl / 2 + t.slack
  }

  lemma {:induction false} Fewer(a: set<Id>, b: set<Id>)
    requires a <= b
    ensures |a| <= |b|
  {
    assert b == a + (b - a);
  }

  /** So the map never holds more entries than uploads were created within the window. */
  lemma MapStaysSmall(t: Timing, events: seq<Event>)
    requires Lapse(t, events).running
    ensures var c := Lapse(t, events); |c.entries| <= |Recent(t, c)|
  {
    var c := Lapse(t, events);
    forall id | id in c.entries ensures id in Recent(t, c) {
      LapseKeeps(t, events);
      assert EntryOk(t, c, id);
    }
    assert c.entries.Keys <= Recent(t, c);
    Fewer(c.entries.Keys, Recent(t, c));
    assert |c.entries| == |c.entries.Keys|;
  }

  lemma OneMore(t: Timing, events: seq<Event>, e: Event)
    ensures Lapse(t, events + [e]) == After(t, Lapse(t, events), e)
  {
    assert (events + [e])[..|events|] == events;
  }

  /** One upload, created at time 0 and still in flight. */
  function Lone(id: Id, hasher: Hasher, now: nat, wake: nat): Clock {
    Clock(now, map[id := InFlight(hasher, 0)], wake, true, map[id := 0], {})
  }

  lemma LonePass(t: Timing, id: Id, hasher: Hasher, now: nat, wake: nat, time: nat)
    requires now + time <= wake + Interval(t) + t.slack
    ensures After(t, Lone(id, hasher, now, wake), Pass(time)) == Lone(id, hasher, now + time, wake)
  {
  }

  lemma LoneSweep(t: Timing, id: Id, hasher: Hasher, now: nat, wake: nat)
    requires wake + Interval(t) <= now <= t.ttl
    ensures After(t, Lone(id, hasher, now, wake), SweepNow) == Lone(id, hasher, now, now)
  {
    assert Stale(Lone(id, hasher, now, wake).entries, now, t.ttl) == {};
  }

  /** And it needs the reaper: once that is cancelled, an upload in flight can get as old as one likes. */
  lemma WithoutReaper(t: Timing, id: Id, hasher: Hasher, age: nat) returns (events: seq<Event>)
    ensures var c := Lapse(t, events);
            !c.running && id in c.entries && c.entries[id].createdAt == 0 && c.now == age
  {
    events := [];
    OneMore(t, events, Insert(id, hasher));
    events := events + [Insert(id, hasher)];
    assert Lapse(t, events) == Lone(id, hasher, 0, 0);
    OneMore(t, events, CancelReaper);
    events := events + [CancelReaper];
    OneMore(t, events, Pass(age));
    events := events + [Pass(age)];
  }

  /** The window cannot be made smaller: an upload that a sweep finds exactly time-to-live old
      survives it and reaches the full window before the next sweep. */
  lemma WindowIsReached(t: Timing, id: Id, hasher: Hasher) returns (events: seq<Event>)
    requires t.ttl % 2 == 0
    ensures Lapse(t, events) == Lone(id, hasher, t.ttl + t.ttl / 2 + t.slack, t.ttl)
  {
    var half := Interval(t);
    events := [];
    OneMore(t, events, Insert(id, hasher));
    events := events + [Insert(id, hasher)];
    assert Lapse(t, events) == Lone(id, hasher, 0, 0);
    LonePass(t, id, hasher, 0, 0, half);
    OneMore(t, events, Pass(half));
    events := events + [Pass(half)];
    LoneSweep(t, id, hasher, half, 0);
    OneMore(t, events, SweepNow);
    events := events + [SweepNow];
    LonePass(t, id, hasher, half, half, half);
    OneMore(t, events, Pass(half));
    events := events + [Pass(half)];
    LoneSweep(t, id, hasher, half + half, half);
    OneMore(t, events, SweepNow);
    events := events + [SweepNow];
    LonePass(t, id, hasher, half + half, half + half, half + t.slack);
    OneMore(t, events, Pass(half + t.slack));
    events := events + [Pass(half + t.slack)];
  }
}
