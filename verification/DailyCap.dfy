/**
  The daily cap of awardXp with its statements apart: the counter's INCR, the EXPIRE of whoever saw 1, and the
  award's transaction are separate steps of racing requests. One user, one event and one date have one key.
 */
module DailyCap {
  import opened RateLimit
  import opened Ledger
  import opened Wrappers

  /** 25 hours. */
  const CAP_TTL := 90000
  const DAY := 86400

  function CapLimits(): Limits { Limits(EVENT_KEY_DAILY_CAP, CAP_TTL) }

  /** The counter, the requests that passed it and have yet to run their transaction, and the rows written. */
  datatype Requests = Requests(counter: RateLimit.State, passed: nat, awarded: nat)

  datatype Event = Command(command: RateLimit.Event) | Transaction(ok: bool)

  function Step(s: Requests, e: Event): Requests {
    match e
    case Command(command) =>
      var counter := RateLimit.Step(CapLimits(), s.counter, command);
      s.(counter := counter, passed := s.passed + if |counter.log| > |s.counter.log| then 1 else 0)
    case Transaction(ok) =>
      if s.passed == 0 then s else s.(passed := s.passed - 1, awarded := s.awarded + if ok then 1 else 0)
  }

  function Run(start: int, events: seq<Event>): Requests {
    if events == [] then Requests(RateLimit.Initial(start), 0, 0)
    else Step(Run(start, events[..|events| - 1]), events[|events| - 1])
  }

  function Commands(events: seq<Event>): seq<RateLimit.Event> {
    if events == [] then []
    else
      var before := Commands(events[..|events| - 1]);
      if events[|events| - 1].Command? then before + [events[|events| - 1].command] else before
  }

  /** The key names a date: it is only incremented on that date, and never deleted. */
  ghost predicate OfOneDate(commands: seq<RateLimit.Event>, from: int) {
    forall c <- commands :: !c.Del? && (c.Incr? ==> from <= c.now < from + DAY)
  }

  lemma {:induction false} CounterRunsAlone(start: int, events: seq<Event>)
    ensures Run(start, events).counter == RateLimit.Run(CapLimits(), start, Commands(events))
    ensures Run(start, events).awarded + Run(start, events).passed <= |Run(start, events).counter.log|
  {
    if events != [] {
      var (before, e) := (events[..|events| - 1], events[|events| - 1]);
      CounterRunsAlone(start, before);
      if e.Command? {
        assert (Commands(before) + [e.command])[..|Commands(before)|] == Commands(before);
      }
    }
  }

  ghost predicate WithinDay(starts: seq<int>, from: int) {
    forall i | 0 <= i < |starts| :: from <= starts[i] < from + DAY
  }

  lemma {:induction false} WindowsStartOnTheDate(start: int, commands: seq<RateLimit.Event>, from: int)
    requires OfOneDate(commands, from)
    ensures WithinDay(RateLimit.Run(CapLimits(), start, commands).starts, from)
  {
    if commands != [] {
      WindowsStartOnTheDate(start, commands[..|commands| - 1], from);
      assert commands[|commands| - 1] in commands;
    }
  }

  lemma {:induction false} OneWindowHoldsAll(log: seq<Accept>)
    requires forall a <- log :: a.window == 0
    ensures InWindow(log, 0) == |log|
  {
    if log != [] { OneWindowHoldsAll(log[..|log| - 1]); }
  }

  lemma {:induction false} NoDelNoBase(start: int, commands: seq<RateLimit.Event>)
    requires forall c <- commands :: !c.Del?
    ensures RateLimit.Base(CapLimits(), start, commands) == 0
  {
    if commands != [] { NoDelNoBase(start, commands[..|commands| - 1]); }
  }

  lemma SecondStartIsLater(starts: seq<int>, ttl: int)
    requires FarApart(starts, 0, ttl)
    ensures |starts| > 1 ==> starts[0] + ttl <= starts[1]
  {
  }

  /** A date is shorter than the TTL, so its key has one window, and that accepts no more than the cap. */
  lemma OneWindowPerDate(start: int, commands: seq<RateLimit.Event>, from: int)
    requires RateLimit.AllAllowed(CapLimits(), start, commands) && OfOneDate(commands, from)
    ensures |RateLimit.Run(CapLimits(), start, commands).log| <= EVENT_KEY_DAILY_CAP
  {
    var s := RateLimit.Run(CapLimits(), start, commands);
    WindowsStartOnTheDate(start, commands, from);
    RunKeepsWindowsApart(CapLimits(), start, commands, 0);
    NoDelNoBase(start, commands);
    AtMostMaxPerWindow(CapLimits(), start, commands);
    SecondStartIsLater(s.starts, CAP_TTL);
    forall a | a in s.log ensures a.window == 0 { assert InItsWindow(a, s.starts); }
    OneWindowHoldsAll(s.log);
    assert InWindow(s.log, 0) <= CapLimits().max;
  }

  /** However many requests race, awardXp writes at most 500 rows for one user, event and date. */
  lemma {:induction false} DailyCapHoldsUnderRaces(start: int, events: seq<Event>, from: int)
    requires RateLimit.AllAllowed(CapLimits(), start, Commands(events)) && OfOneDate(Commands(events), from)
    ensures Run(start, events).awarded <= 500
  {
    CounterRunsAlone(start, events);
    OneWindowPerDate(start, Commands(events), from);
  }

  // ----- And exactly the first 500 requests pass --------------------------------------------------

  function Requested(commands: seq<RateLimit.Event>): nat {
    if commands == [] then 0
    else Requested(commands[..|commands| - 1]) + if commands[|commands| - 1].Incr? then 1 else 0
  }

  /** Transactions of passed requests that were rolled back. */
  function RolledBack(start: int, events: seq<Event>): nat {
    if events == [] then 0
    else
      var (before, e) := (events[..|events| - 1], events[|events| - 1]);
      RolledBack(start, before) + if e == Transaction(false) && Run(start, before).passed > 0 then 1 else 0
  }

  lemma {:induction false} InWindowIsPart(log: seq<Accept>, window: nat)
    ensures InWindow(log, window) <= |log|
  {
    if log != [] { InWindowIsPart(log[..|log| - 1], window); }
  }

  lemma {:induction false} FirstRequestsPass(start: int, commands: seq<RateLimit.Event>, from: int)
    requires RateLimit.AllAllowed(CapLimits(), start, commands) && OfOneDate(commands, from)
    ensures |RateLimit.Run(CapLimits(), start, commands).log| ==
              if Requested(commands) <= 500 then Requested(commands) else 500
  {
    if commands != [] {
      var (before, c) := (commands[..|commands| - 1], commands[|commands| - 1]);
      FirstRequestsPass(start, before, from);
      if c.Incr? {
        var s := RateLimit.Run(CapLimits(), start, before);
        RefusedIffWindowIsFull(CapLimits(), start, before, c.now);
        InWindowIsPart(s.log, if s.starts == [] then 0 else |s.starts| - 1);
        OneWindowPerDate(start, commands, from);
      } else {
        assert c in commands;
      }
    }
  }

  lemma {:induction false} PassedAreServed(start: int, events: seq<Event>)
    ensures var s := Run(start, events);
            s.awarded + s.passed + RolledBack(start, events) == |s.counter.log|
  {
    if events != [] { PassedAreServed(start, events[..|events| - 1]); }
  }

  /**
    However requests race: the first 500 of the date pass, and each of them has its row, or was rolled back, or has its
    transaction still to come.
   */
  lemma {:induction false} FirstFiveHundredAreServed(start: int, events: seq<Event>, from: int)
    requires RateLimit.AllAllowed(CapLimits(), start, Commands(events)) && OfOneDate(Commands(events), from)
    ensures var (s, requested) := (Run(start, events), Requested(Commands(events)));
            s.awarded + s.passed + RolledBack(start, events) == if requested <= 500 then requested else 500
  {
    CounterRunsAlone(start, events);
    PassedAreServed(start, events);
    FirstRequestsPass(start, Commands(events), from);
  }

  /** A counter that is begun, with its EXPIRE at once, lives for 25 hours. */
  lemma CounterLives(s: RateLimit.State, now: int)
    requires s.cell.None?
    ensures Called(CapLimits(), s, now).cell == Some(Counter(1, Some(now + 25 * 60 * 60)))
  {
    UninterruptedCall(CapLimits(), s, now);
  }
}
