/**
  The fixed-window limiter built on RedisService.incr: INCR, and a separate EXPIRE issued by the
  caller that saw the count 1. The two commands of one call may be far apart and interleave with
  other calls; a key expires at the instant its TTL has run out. DEL (used after a successful
  verification) ends a window early. Times are seconds.
 */
module RateLimit {
  import opened Wrappers

  datatype Counter = Counter(count: nat, expiresAt: Option<int>)

  datatype Limits = Limits(max: nat, ttl: int)

  /** An accepted call, with the number of the window it was counted in. */
  datatype Accept = Accept(at: int, window: nat)

  /** The Redis key, the callers about to send EXPIRE, and the history of windows and accepted calls. */
  datatype State = State(cell: Option<Counter>, expirePending: nat, clock: int, starts: seq<int>, log: seq<Accept>)

  datatype Event = Incr(now: int) | Expire(now: int) | Del(now: int)

  function Live(cell: Option<Counter>, now: int): Option<Counter> {
    if cell.Some? && (cell.value.expiresAt.None? || now < cell.value.expiresAt.value) then cell else None
  }

  function Initial(clock: int): State { State(None, 0, clock, [], []) }

  /** INCR creates a missing key with the value 1 and no TTL, and keeps the TTL of an existing one. */
  function Incremented(cell: Option<Counter>, now: int): Counter {
    match Live(cell, now)
    case None => Counter(1, None)
    case Some(c) => c.(count := c.count + 1)
  }

  function Step(l: Limits, s: State, e: Event): State {
    match e
    case Incr(now) =>
      var c := Incremented(s.cell, now);
      var starts := if c.count == 1 then s.starts + [now] else s.starts;
      State(Some(c), s.expirePending + (if c.count == 1 then 1 else 0), now, starts,
            if c.count <= l.max && starts != [] then s.log + [Accept(now, |starts| - 1)] else s.log)
    case Expire(now) =>
      var c := Live(s.cell, now);
      s.(cell := if c.Some? then Some(c.value.(expiresAt := Some(now + l.ttl))) else None,
         expirePending := if s.expirePending > 0 then s.expirePending - 1 else 0, clock := now)
    case Del(now) => s.(cell := None, clock := now)
  }

  /** Time does not run backwards, and an EXPIRE comes from a caller that saw the count 1. */
  predicate Allowed(s: State, e: Event) {
    s.clock <= e.now && (e.Expire? ==> s.expirePending > 0)
  }

  function Run(l: Limits, start: int, events: seq<Event>): State {
    if events == [] then Initial(start) else Step(l, Run(l, start, events[..|events| - 1]), events[|events| - 1])
  }

  predicate AllAllowed(l: Limits, start: int, events: seq<Event>) {
    events == [] ||
    (AllAllowed(l, start, events[..|events| - 1]) &&
     Allowed(Run(l, start, events[..|events| - 1]), events[|events| - 1]))
  }

  // ----- Counting ---------------------------------------------------------------------------

  function InWindow(log: seq<Accept>, w: nat): nat {
    if log == [] then 0 else InWindow(log[..|log| - 1], w) + (if log[|log| - 1].window == w then 1 else 0)
  }

  function InInterval(log: seq<Accept>, from: int, to: int): nat {
    if log == [] then 0 else InInterval(log[..|log| - 1], from, to) + (if from <= log[|log| - 1].at < to then 1 else 0)
  }

  /** Entries of a window that fall outside an interval. */
  function Outside(log: seq<Accept>, w: nat, from: int, to: int): nat {
    if log == [] then 0
    else
      var last := log[|log| - 1];
      Outside(log[..|log| - 1], w, from, to) + (if last.window == w && !(from <= last.at < to) then 1 else 0)
  }

  lemma {:induction false} TwoWindowsCover(log: seq<Accept>, w: nat, from: int, to: int)
    requires forall a <- log :: from <= a.at < to ==> a.window == w || a.window == w + 1
    ensures InInterval(log, from, to) + Outside(log, w, from, to) <= InWindow(log, w) + InWindow(log, w + 1)
  {
    if log != [] { TwoWindowsCover(log[..|log| - 1], w, from, to); }
  }

  lemma {:induction false} OutsideCounts(log: seq<Accept>, i: nat, from: int, to: int)
    requires i < |log| && !(from <= log[i].at < to)
    ensures Outside(log, log[i].window, from, to) > 0
  {
    if i < |log| - 1 { OutsideCounts(log[..|log| - 1], i, from, to); }
  }

  lemma {:induction false} NothingInInterval(log: seq<Accept>, from: int, to: int)
    requires forall a <- log :: !(from <= a.at < to)
    ensures InInterval(log, from, to) == 0
  {
    if log != [] { NothingInInterval(log[..|log| - 1], from, to); }
  }

  lemma {:induction false} NoEntries(log: seq<Accept>, w: nat)
    requires forall a <- log :: a.window != w
    ensures InWindow(log, w) == 0
  {
    if log != [] { NoEntries(log[..|log| - 1], w); }
  }

  lemma LogAppended(log: seq<Accept>, a: Accept, w: nat, from: int, to: int)
    ensures InWindow(log + [a], w) == InWindow(log, w) + (if a.window == w then 1 else 0)
    ensures InInterval(log + [a], from, to) == InInterval(log, from, to) + (if from <= a.at < to then 1 else 0)
  {
    assert (log + [a])[..|log|] == log;
  }

  // ----- Per window --------------------------------------------------------------------------

  ghost predicate WindowsBounded(l: Limits, s: State) {
    && (s.cell.Some? ==> s.starts != [] && s.cell.value.count >= 1)
    && (forall a <- s.log :: a.window < |s.starts|)
    && Capped(s.log, l.max)
    && (s.cell.Some? ==> InWindow(s.log, |s.starts| - 1) <= s.cell.value.count)
  }

  lemma StepKeepsWindowsBounded(l: Limits, s: State, e: Event)
    requires WindowsBounded(l, s)
    ensures WindowsBounded(l, Step(l, s, e))
  {
    if e.Incr? {
      var c := Incremented(s.cell, e.now);
      var starts := Step(l, s, e).starts;
      NoEntries(s.log, |s.starts|);
      forall w: nat ensures InWindow(Step(l, s, e).log, w) <= l.max
                    ensures w == |starts| - 1 ==> InWindow(Step(l, s, e).log, w) <= c.count
      {
        LogAppended(s.log, Accept(e.now, |starts| - 1), w, 0, 0);
      }
    }
  }

  /** No window ever accepts more than the maximum, whatever is interleaved. */
  lemma {:induction false} AtMostMaxPerWindow(l: Limits, start: int, events: seq<Event>)
    ensures WindowsBounded(l, Run(l, start, events))
  {
    if events != [] {
      AtMostMaxPerWindow(l, start, events[..|events| - 1]);
      StepKeepsWindowsBounded(l, Run(l, start, events[..|events| - 1]), events[|events| - 1]);
    }
  }

  // ----- What is accepted -----------------------------------------------------------------------

  function Least(a: nat, b: nat): nat { if a <= b then a else b }

  /** The key's window has accepted what it counts, up to the maximum; without a TTL somebody is about to set one. */
  ghost predicate CellMatches(l: Limits, s: State) {
    && s.cell.Some? ==>
         && s.starts != [] && s.cell.value.count >= 1
         && InWindow(s.log, |s.starts| - 1) == Least(s.cell.value.count, l.max)
         && (s.cell.value.expiresAt.None? ==> s.expirePending > 0)
         && (s.cell.value.expiresAt.Some? ==> s.cell.value.expiresAt.value <= s.clock + l.ttl)
  }

  lemma StepKeepsCell(l: Limits, s: State, e: Event)
    requires WindowsBounded(l, s) && CellMatches(l, s) && Allowed(s, e)
    ensures CellMatches(l, Step(l, s, e))
  {
    if e.Incr? { IncrKeepsCell(l, s, e.now); }
  }

  lemma IncrKeepsCell(l: Limits, s: State, now: int)
    requires WindowsBounded(l, s) && CellMatches(l, s) && s.clock <= now
    ensures CellMatches(l, Step(l, s, Incr(now)))
  {
    if Live(s.cell, now).None? { OpenedCell(l, s, now); } else { JoinedCell(l, s, now); }
  }

  lemma OpenedCell(l: Limits, s: State, now: int)
    requires WindowsBounded(l, s) && s.clock <= now && Live(s.cell, now).None?
    ensures CellMatches(l, Step(l, s, Incr(now)))
  {
    NoEntries(s.log, |s.starts|);
    LogAppended(s.log, Accept(now, |s.starts|), |s.starts|, 0, 0);
  }

  lemma JoinedCell(l: Limits, s: State, now: int)
    requires CellMatches(l, s) && s.clock <= now && Live(s.cell, now).Some?
    ensures CellMatches(l, Step(l, s, Incr(now)))
  {
    LogAppended(s.log, Accept(now, |s.starts| - 1), |s.starts| - 1, 0, 0);
  }

  lemma {:induction false} CellAlwaysMatches(l: Limits, start: int, events: seq<Event>)
    requires AllAllowed(l, start, events)
    ensures CellMatches(l, Run(l, start, events))
  {
    if events != [] {
      var before := events[..|events| - 1];
      CellAlwaysMatches(l, start, before);
      AtMostMaxPerWindow(l, start, before);
      StepKeepsCell(l, Run(l, start, before), events[|events| - 1]);
    }
  }

  /**
    In every run a call is refused exactly if the key is still there and its window has accepted the maximum; an
    accepted one is logged at its time.
   */
  lemma {:induction false} RefusedIffWindowIsFull(l: Limits, start: int, events: seq<Event>, now: int)
    requires AllAllowed(l, start, events) && l.max >= 1
    ensures var (s, t) := (Run(l, start, events), Step(l, Run(l, start, events), Incr(now)));
            var live := s.cell.Some? && (s.cell.value.expiresAt == None || now < s.cell.value.expiresAt.value);
            var window: nat := if live && s.starts != [] then |s.starts| - 1 else |s.starts|;
            && (t.log == s.log <==> live && InWindow(s.log, window) == l.max)
            && (t.log != s.log ==> t.log == s.log + [Accept(now, window)])
  {
    CellAlwaysMatches(l, start, events);
  }

  /** So once the key has been left alone for a TTL, and nobody is between INCR and EXPIRE, a call is accepted. */
  lemma {:induction false} AcceptedAfterTtl(l: Limits, start: int, events: seq<Event>, now: int)
    requires AllAllowed(l, start, events) && l.max >= 1
    requires Run(l, start, events).expirePending == 0 && Run(l, start, events).clock + l.ttl <= now
    ensures var (s, t) := (Run(l, start, events), Step(l, Run(l, start, events), Incr(now)));
            t.log == s.log + [Accept(now, |s.starts|)]
  {
    CellAlwaysMatches(l, start, events);
  }

  /** A call on its own: INCR, and EXPIRE if the count is 1. */
  function Called(l: Limits, s: State, now: int): State {
    var t := Step(l, s, Incr(now));
    if t.cell.Some? && t.cell.value.count == 1 then Step(l, t, Expire(now)) else t
  }

  /** It counts on in a live key, and otherwise starts one that lives for the TTL. */
  lemma UninterruptedCall(l: Limits, s: State, now: int)
    requires s.cell.Some? ==> s.starts != [] && s.cell.value.count >= 1
    ensures var t := Called(l, s, now);
            var live := s.cell.Some? && (s.cell.value.expiresAt == None || now < s.cell.value.expiresAt.value);
            var count := if live then s.cell.value.count + 1 else 1;
            && t.cell == Some(Counter(count, if live then s.cell.value.expiresAt else Some(now + l.ttl)))
            && t.log == (if count <= l.max then s.log + [Accept(now, |t.starts| - 1)] else s.log)
            && t.starts == (if live then s.starts else s.starts + [now])
            && t.expirePending == s.expirePending && t.clock == now
  {
  }

  // ----- Any interval of one TTL -----------------------------------------------------------------

  /**
    The windows from `base` on, which no DEL has ended, are at least one TTL apart, whoever is between INCR and
    EXPIRE.
   */
  ghost predicate WindowsApart(l: Limits, s: State, base: nat) {
    && KeyIsLastWindow(l, s, base)
    && FarApart(s.starts, base, l.ttl)
    && LogFollowsWindows(s.log, s.starts, base)
    && LoggedBy(s.log, s.clock)
  }

  ghost predicate FarApart(starts: seq<int>, base: nat, ttl: int) {
    forall v, w | base <= v < w < |starts| :: starts[v] + ttl <= starts[w]
  }

  /** The key is the last window's, or that window has run out, or DEL has ended it. */
  ghost predicate KeyIsLastWindow(l: Limits, s: State, base: nat) {
    && base <= |s.starts|
    && (s.cell.Some? ==>
          && |s.starts| > base && s.cell.value.count >= 1 && s.starts[|s.starts| - 1] <= s.clock
          && (s.cell.value.expiresAt.Some? ==> s.cell.value.expiresAt.value >= s.starts[|s.starts| - 1] + l.ttl))
    && (s.cell.None? && |s.starts| > base ==> s.starts[|s.starts| - 1] + l.ttl <= s.clock)
  }

  ghost predicate LoggedBy(log: seq<Accept>, clock: int) {
    forall i | 0 <= i < |log| :: log[i].at <= clock
  }

  ghost predicate InItsWindow(a: Accept, starts: seq<int>) {
    a.window < |starts| && starts[a.window] <= a.at && (a.window + 1 < |starts| ==> a.at <= starts[a.window + 1])
  }

  ghost predicate LogFollowsWindows(log: seq<Accept>, starts: seq<int>, base: nat) {
    && (forall i | 0 <= i < |log| && base <= log[i].window :: InItsWindow(log[i], starts))
    && (forall i, j | 0 <= i < j < |log| :: log[i].window <= log[j].window)
    && (forall i | 0 <= i < |log| :: log[i].window < |starts|)
    // every window was opened by an accepted call
    && (forall w | base <= w < |starts| :: Opened(log, starts, w))
  }

  ghost predicate Opened(log: seq<Accept>, starts: seq<int>, w: nat)
    requires w < |starts|
  {
    Accept(starts[w], w) in log
  }

  lemma NewWindowFollows(log: seq<Accept>, starts: seq<int>, base: nat, now: int)
    requires LogFollowsWindows(log, starts, base) && LoggedBy(log, now)
    ensures LogFollowsWindows(log + [Accept(now, |starts|)], starts + [now], base)
  {
    var (log', starts') := (log + [Accept(now, |starts|)], starts + [now]);
    forall i | 0 <= i < |log'| && base <= log'[i].window ensures InItsWindow(log'[i], starts') {
      if i < |log| { assert InItsWindow(log[i], starts); }
    }
    assert log'[|log|] == Accept(now, |starts|);
    forall w | base <= w < |starts'| ensures Opened(log', starts', w) {
      if w < |starts| { assert Opened(log, starts, w); }
    }
  }

  lemma SameWindowFollows(log: seq<Accept>, starts: seq<int>, base: nat, now: int)
    requires LogFollowsWindows(log, starts, base) && |starts| > base && starts[|starts| - 1] <= now
    ensures LogFollowsWindows(log + [Accept(now, |starts| - 1)], starts, base)
  {
    var log' := log + [Accept(now, |starts| - 1)];
    forall i | 0 <= i < |log'| && base <= log'[i].window ensures InItsWindow(log'[i], starts) {
      if i < |log| { assert InItsWindow(log[i], starts); }
    }
    forall w | base <= w < |starts| ensures Opened(log', starts, w) { assert Opened(log, starts, w); }
  }

  lemma StepKeepsWindowsApart(l: Limits, s: State, base: nat, e: Event)
    requires l.max >= 1 && l.ttl > 0 && WindowsApart(l, s, base) && Allowed(s, e) && !e.Del?
    ensures WindowsApart(l, Step(l, s, e), base)
  {
    StepKeepsKey(l, s, base, e);
    match e
    case Incr(now) =>
      if Live(s.cell, now).None? { OpenWindow(l, s, base, now); } else { JoinWindow(l, s, base, now); }
    case Expire(now) =>
  }

  lemma OpenWindow(l: Limits, s: State, base: nat, now: int)
    requires l.max >= 1 && l.ttl > 0 && WindowsApart(l, s, base) && s.clock <= now && Live(s.cell, now).None?
    ensures var t := Step(l, s, Incr(now));
            && t.starts == s.starts + [now] && FarApart(t.starts, base, l.ttl)
            && LogFollowsWindows(t.log, t.starts, base) && LoggedBy(t.log, now)
  {
    NewWindowFollows(s.log, s.starts, base, now);
    FarApartExtended(s.starts, base, l.ttl, now);
  }

  lemma FarApartExtended(starts: seq<int>, base: nat, ttl: int, now: int)
    requires ttl > 0 && FarApart(starts, base, ttl) && (|starts| > base ==> starts[|starts| - 1] + ttl <= now)
    ensures FarApart(starts + [now], base, ttl)
  {
    forall v, w | base <= v < w < |starts + [now]| ensures (starts + [now])[v] + ttl <= (starts + [now])[w] {
      if w == |starts| && v < w - 1 { assert starts[v] + ttl <= starts[w - 1]; }
    }
  }

  lemma JoinWindow(l: Limits, s: State, base: nat, now: int)
    requires WindowsApart(l, s, base) && s.clock <= now && Live(s.cell, now).Some?
    ensures var t := Step(l, s, Incr(now));
            && t.starts == s.starts && LogFollowsWindows(t.log, t.starts, base) && LoggedBy(t.log, now)
  {
    SameWindowFollows(s.log, s.starts, base, now);
  }

  lemma StepKeepsKey(l: Limits, s: State, base: nat, e: Event)
    requires l.ttl > 0 && KeyIsLastWindow(l, s, base) && Allowed(s, e) && !e.Del?
    ensures KeyIsLastWindow(l, Step(l, s, e), base)
  {
  }

  /** The number of windows that had begun by the last DEL. */
  function Base(l: Limits, start: int, events: seq<Event>): nat {
    if events == [] then 0
    else if events[|events| - 1].Del? then |Run(l, start, events[..|events| - 1]).starts|
    else Base(l, start, events[..|events| - 1])
  }

  /** What was accepted in earlier windows was accepted before `from`, if every DEL was. */
  ghost predicate EarlierBefore(log: seq<Accept>, base: nat, from: int) {
    forall a <- log :: a.window < base ==> a.at < from
  }

  lemma DelKeepsWindowsApart(l: Limits, s: State, base: nat, now: int, from: int)
    requires WindowsApart(l, s, base) && s.clock <= now < from
    ensures WindowsApart(l, Step(l, s, Del(now)), |s.starts|) && EarlierBefore(s.log, |s.starts|, from)
  {
  }

  lemma {:induction false} RunKeepsWindowsApart(l: Limits, start: int, events: seq<Event>, from: int)
    requires l.max >= 1 && l.ttl > 0 && AllAllowed(l, start, events)
    requires forall e <- events :: e.Del? ==> e.now < from
    ensures WindowsApart(l, Run(l, start, events), Base(l, start, events))
    ensures EarlierBefore(Run(l, start, events).log, Base(l, start, events), from)
  {
    if events != [] {
      var (before, e) := (events[..|events| - 1], events[|events| - 1]);
      RunKeepsWindowsApart(l, start, before, from);
      var (s, base) := (Run(l, start, before), Base(l, start, before));
      if e.Del? {
        assert e in events;
        DelKeepsWindowsApart(l, s, base, e.now, from);
      } else {
        StepKeepsWindowsApart(l, s, base, e);
      }
    }
  }

  lemma IntervalSpansTwoWindows(l: Limits, s: State, base: nat, a: Accept, b: Accept, from: int)
    requires WindowsApart(l, s, base) && EarlierBefore(s.log, base, from) && a in s.log && b in s.log
    requires from <= a.at < from + l.ttl && from <= b.at < from + l.ttl
    ensures base <= a.window < |s.starts| && b.window <= a.window + 1
    ensures b.window == a.window + 1 ==> s.starts[a.window] < from
  {
    assert InItsWindow(a, s.starts) && InItsWindow(b, s.starts);
  }

  lemma {:induction false} ClockIsLatest(l: Limits, start: int, events: seq<Event>)
    requires AllAllowed(l, start, events)
    ensures forall e <- events :: e.now <= Run(l, start, events).clock
  {
    if events != [] {
      ClockIsLatest(l, start, events[..|events| - 1]);
      forall e | e in events ensures e.now <= Run(l, start, events).clock {
        if e != events[|events| - 1] { assert e in events[..|events| - 1]; }
      }
    }
  }

  /**
    Any half-open interval as long as the TTL in which no DEL falls holds fewer than twice the maximum of
    accepted calls: it meets at most two windows, and not the opening call of the first of two.
   */
  lemma {:induction false} SlidingBound(l: Limits, start: int, events: seq<Event>, from: int)
    requires l.max >= 1 && l.ttl > 0 && AllAllowed(l, start, events)
    requires forall e <- events :: e.Del? ==> !(from <= e.now < from + l.ttl)
    ensures InInterval(Run(l, start, events).log, from, from + l.ttl) <= 2 * l.max - 1
  {
    if events != [] && events[|events| - 1].now >= from + l.ttl {
      var (before, e) := (events[..|events| - 1], events[|events| - 1]);
      SlidingBound(l, start, before, from);
      LaterIsOutside(l, Run(l, start, before), e, from);
    } else {
      ClockIsLatest(l, start, events);
      RunKeepsWindowsApart(l, start, events, from);
      AtMostMaxPerWindow(l, start, events);
      SlidingBoundOf(l, Run(l, start, events), Base(l, start, events), from);
    }
  }

  lemma LaterIsOutside(l: Limits, s: State, e: Event, from: int)
    requires e.now >= from + l.ttl
    ensures InInterval(Step(l, s, e).log, from, from + l.ttl) == InInterval(s.log, from, from + l.ttl)
  {
    var t := Step(l, s, e);
    if t.log != s.log { LogAppended(s.log, t.log[|s.log|], 0, from, from + l.ttl); }
  }

  lemma SlidingBoundOf(l: Limits, s: State, base: nat, from: int)
    requires l.max >= 1 && WindowsApart(l, s, base) && EarlierBefore(s.log, base, from) && WindowsBounded(l, s)
    ensures InInterval(s.log, from, from + l.ttl) <= 2 * l.max - 1
  {
    var to := from + l.ttl;
    if exists a <- s.log :: from <= a.at < to {
      var first := EarliestInInterval(s.log, from, to);
      TwoWindowBound(l, s, base, s.log[first], from);
    } else {
      NothingInInterval(s.log, from, to);
    }
  }

  ghost predicate Capped(log: seq<Accept>, max: nat) {
    forall w: nat :: InWindow(log, w) <= max
  }

  lemma TwoWindowBound(l: Limits, s: State, base: nat, first: Accept, from: int)
    requires l.max >= 1 && WindowsApart(l, s, base) && EarlierBefore(s.log, base, from) && Capped(s.log, l.max)
    requires first in s.log && from <= first.at < from + l.ttl
    requires forall a <- s.log :: from <= a.at < from + l.ttl ==> first.window <= a.window
    ensures InInterval(s.log, from, from + l.ttl) <= 2 * l.max - 1
  {
    var w, to := first.window, from + l.ttl;
    assert InWindow(s.log, w) <= l.max && InWindow(s.log, w + 1) <= l.max;
    if exists b <- s.log :: from <= b.at < to && b.window != w {
      var b :| b in s.log && from <= b.at < to && b.window != w;
      IntervalSpansTwoWindows(l, s, base, first, b, from);
      TwoWindowCount(l, s, base, first, from);
    } else {
      OneWindowCovers(s.log, w, from, to);
    }
  }

  lemma TwoWindowCount(l: Limits, s: State, base: nat, first: Accept, from: int)
    requires WindowsApart(l, s, base) && EarlierBefore(s.log, base, from)
    requires first in s.log && from <= first.at < from + l.ttl
    requires base <= first.window < |s.starts| && s.starts[first.window] < from
    requires forall a <- s.log :: from <= a.at < from + l.ttl ==> first.window <= a.window
    ensures var w := first.window;
            InInterval(s.log, from, from + l.ttl) + 1 <= InWindow(s.log, w) + InWindow(s.log, w + 1)
  {
    OpeningCallIsOutside(s, base, first.window, from, from + l.ttl);
    OnlyTwoWindows(l, s, base, first, from);
    TwoWindowsCover(s.log, first.window, from, from + l.ttl);
  }

  lemma OnlyTwoWindows(l: Limits, s: State, base: nat, first: Accept, from: int)
    requires WindowsApart(l, s, base) && EarlierBefore(s.log, base, from)
    requires first in s.log && from <= first.at < from + l.ttl
    requires forall a <- s.log :: from <= a.at < from + l.ttl ==> first.window <= a.window
    ensures forall a <- s.log :: from <= a.at < from + l.ttl ==>
              a.window == first.window || a.window == first.window + 1
  {
    forall a | a in s.log && from <= a.at < from + l.ttl ensures a.window <= first.window + 1 {
      IntervalSpansTwoWindows(l, s, base, first, a, from);
    }
  }

  lemma OpeningCallIsOutside(s: State, base: nat, w: nat, from: int, to: int)
    requires LogFollowsWindows(s.log, s.starts, base) && base <= w < |s.starts| && s.starts[w] < from
    ensures Outside(s.log, w, from, to) > 0
  {
    assert Opened(s.log, s.starts, w);
    var i :| 0 <= i < |s.log| && s.log[i] == Accept(s.starts[w], w);
    OutsideCounts(s.log, i, from, to);
  }

  lemma {:induction false} OneWindowCovers(log: seq<Accept>, w: nat, from: int, to: int)
    requires forall a <- log :: from <= a.at < to ==> a.window == w
    ensures InInterval(log, from, to) <= InWindow(log, w)
  {
    if log != [] { OneWindowCovers(log[..|log| - 1], w, from, to); }
  }

  lemma {:induction false} EarliestInInterval(log: seq<Accept>, from: int, to: int) returns (i: nat)
    requires exists a <- log :: from <= a.at < to
    requires forall i, j | 0 <= i < j < |log| :: log[i].window <= log[j].window
    ensures i < |log| && from <= log[i].at < to
    ensures forall a <- log :: from <= a.at < to ==> log[i].window <= a.window
  {
    var n := |log| - 1;
    if exists a <- log[..n] :: from <= a.at < to {
      i := EarliestInInterval(log[..n], from, to);
    } else {
      i := n;
    }
  }

  lemma {:induction false} Appended(l: Limits, start: int, events: seq<Event>, e: Event)
    ensures Run(l, start, events + [e]) == Step(l, Run(l, start, events), e)
    ensures AllAllowed(l, start, events + [e]) <==> AllAllowed(l, start, events) && Allowed(Run(l, start, events), e)
  {
    assert (events + [e])[..|events|] == events;
  }

  /** The bound is reached: three calls a window give five accepted calls within one TTL, not three. */
  lemma SlidingBoundIsReached() returns (events: seq<Event>)
    ensures AllAllowed(Limits(3, 600), 0, events) && forall e <- events :: !e.Del?
    ensures InInterval(Run(Limits(3, 600), 0, events).log, 599, 599 + 600) == 5
  {
    events := FirstWindowUsedUp();
    events := ThenIncr(events, Some(Counter(3, Some(600))), 0, 599, 2, 600);
    events := ThenExpire(events, Counter(1, None), 1, 600, 3, 600);
    events := ThenIncr(events, Some(Counter(1, Some(1200))), 0, 600, 3, 600);
    events := ThenIncr(events, Some(Counter(2, Some(1200))), 0, 600, 4, 600);
  }

  lemma FirstWindowUsedUp() returns (events: seq<Event>)
    ensures Reached(events, Some(Counter(3, Some(600))), 0, 599, 2)
  {
    events := ThenIncr([], None, 0, 0, 0, 0);
    events := ThenExpire(events, Counter(1, None), 1, 0, 0, 0);
    events := ThenIncr(events, Some(Counter(1, Some(600))), 0, 0, 0, 599);
    events := ThenIncr(events, Some(Counter(2, Some(600))), 0, 599, 1, 599);
  }

  /** A run without DEL that has got this far, with this many accepted calls in [599, 1199). */
  ghost predicate Reached(events: seq<Event>, cell: Option<Counter>, pending: nat, clock: int, hits: nat) {
    var s := Run(Limits(3, 600), 0, events);
    && AllAllowed(Limits(3, 600), 0, events) && (forall e <- events :: !e.Del?)
    && s.cell == cell && s.expirePending == pending && s.clock == clock
    && InInterval(s.log, 599, 1199) == hits && (cell.Some? ==> s.starts != [])
  }

  lemma {:induction false} ThenIncr(events: seq<Event>, cell: Option<Counter>, pending: nat, clock: int, hits: nat,
                                    now: int)
    returns (more: seq<Event>)
    requires Reached(events, cell, pending, clock, hits) && clock <= now
    ensures var c := Incremented(cell, now);
            Reached(more, Some(c), if c.count == 1 then pending + 1 else pending, now,
                    if c.count <= 3 && 599 <= now < 1199 then hits + 1 else hits)
  {
    more := events + [Incr(now)];
    var s := Run(Limits(3, 600), 0, events);
    Appended(Limits(3, 600), 0, events, Incr(now));
    var w := |Step(Limits(3, 600), s, Incr(now)).starts|;
    if w > 0 { LogAppended(s.log, Accept(now, w - 1), 0, 599, 1199); }
  }

  lemma {:induction false} ThenExpire(events: seq<Event>, c: Counter, pending: nat, clock: int, hits: nat, now: int)
    returns (more: seq<Event>)
    requires Reached(events, Some(c), pending, clock, hits) && clock <= now && pending > 0 && c.expiresAt.None?
    ensures Reached(more, Some(c.(expiresAt := Some(now + 600))), pending - 1, now, hits)
  {
    more := events + [Expire(now)];
    Appended(Limits(3, 600), 0, events, Expire(now));
  }
}
