/**
  Study streaks. A call of recordStudyDay reads the user row and later runs an UPDATE guarded by
  `last_study_date <> today`; any number of calls interleave. Each of the two statements is one step.
 */
module Streak {
  import opened Calendar
  import opened Wrappers

  datatype UserRow = UserRow(streakDays: nat, longestStreak: nat, lastStudyDate: Option<Date>)

  /** A call between its read and its UPDATE. */
  datatype Call = Call(row: UserRow, today: Date)

  datatype Award = StreakDay(today: Date) | Milestone(days: nat, today: Date)

  datatype State = State(row: UserRow, calls: map<nat, Call>, awards: seq<Award>, clock: Date)

  datatype Event = Read(call: nat) | Write(call: nat) | NextDay(today: Date)

  function Initial(today: Date): State { State(UserRow(0, 0, None), map[], [], today) }

  predicate IsMilestone(days: nat) { days == 7 || days == 14 || days == 30 || days == 50 || days == 100 }

  function NextStreak(c: Call): nat {
    if c.row.lastStudyDate.Some? && AccraDaysBetween(c.today, c.row.lastStudyDate.value) == 1
    then c.row.streakDays + 1 else 1
  }

  function AwardsFor(streak: nat, today: Date): seq<Award> {
    [StreakDay(today)] + if IsMilestone(streak) then [Milestone(streak, today)] else []
  }

  /**
    The guarded UPDATE and, when it changed the row, the award calls that follow it; the ledger decides what they pay.
   */
  function Written(s: State, c: Call): State {
    if s.row.lastStudyDate == Some(c.today) then s
    else
      var streak := NextStreak(c);
      var longest := if c.row.longestStreak > streak then c.row.longestStreak else streak;
      s.(row := UserRow(streak, longest, Some(c.today)), awards := s.awards + AwardsFor(streak, c.today))
  }

  function Step(s: State, e: Event): State {
    match e
    case Read(call) =>
      if s.row.lastStudyDate == Some(s.clock) then s  // already studied today: the call is over
      else s.(calls := s.calls[call := Call(s.row, s.clock)])
    case Write(call) =>
      if call in s.calls then Written(s, s.calls[call]).(calls := s.calls - {call}) else s
    case NextDay(today) => s.(clock := today)
  }

  /** The clock does not run backwards, and a call reads and writes on one and the same day. */
  predicate Allowed(s: State, e: Event) {
    match e
    case Read(call) => call !in s.calls
    case Write(call) => call in s.calls ==> s.calls[call].today == s.clock
    case NextDay(today) => DayNumber(s.clock) <= DayNumber(today)
  }

  function Run(start: Date, events: seq<Event>): State {
    if events == [] then Initial(start) else Step(Run(start, events[..|events| - 1]), events[|events| - 1])
  }

  predicate AllAllowed(start: Date, events: seq<Event>) {
    events == [] ||
    (AllAllowed(start, events[..|events| - 1]) && Allowed(Run(start, events[..|events| - 1]), events[|events| - 1]))
  }

  // ----- The reference: sets of study days ---------------------------------------------------

  /** The day numbers on which a call got as far as its UPDATE, whether or not the UPDATE changed anything. */
  function StudyDays(start: Date, events: seq<Event>): set<int> {
    if events == [] then {}
    else
      var before, e := events[..|events| - 1], events[|events| - 1];
      var s := Run(start, before);
      StudyDays(start, before) + if e.Write? && e.call in s.calls then {DayNumber(s.calls[e.call].today)} else {}
  }

  /** The longest block of consecutive days in the set that ends on the given day has this length. */
  ghost predicate MaximalRun(days: set<int>, last: int, length: nat) {
    (forall d :: last - length < d <= last ==> d in days) && last - length !in days
  }

  ghost predicate LongestRun(days: set<int>, length: nat) {
    && (forall last: int, n: nat :: MaximalRun(days, last, n) ==> n <= length)
    && exists last :: MaximalRun(days, last, length)
  }

  lemma RunLengthIsUnique(days: set<int>, last: int, m: nat, n: nat)
    requires MaximalRun(days, last, m) && MaximalRun(days, last, n)
    ensures m == n
  {
  }

  // ----- Runs ------------------------------------------------------------------------------

  ghost predicate RowIsRunLength(row: UserRow, days: set<int>) {
    match row.lastStudyDate
    case None => days == {} && row.streakDays == 0 && row.longestStreak == 0
    case Some(last) =>
      && DayNumber(last) in days
      && (forall d <- days :: d <= DayNumber(last))
      && MaximalRun(days, DayNumber(last), row.streakDays)
      && LongestRun(days, row.longestStreak)
  }

  /** The award call fires once for a day, and for a milestone on the day a maximal run reaches it. */
  ghost predicate AwardsAreExact(awards: seq<Award>, days: set<int>) {
    forall a: Award :: multiset(awards)[a] == if Earned(a, days) then 1 else 0
  }

  ghost predicate Earned(a: Award, days: set<int>) {
    match a
    case StreakDay(d) => DayNumber(d) in days
    case Milestone(m, d) => m in {7, 14, 30, 50, 100} && MaximalRun(days, DayNumber(d), m)
  }

  predicate RecordedSince(row: UserRow, day: Date) {
    row.lastStudyDate.Some? && DayNumber(row.lastStudyDate.value) >= DayNumber(day)
  }

  ghost predicate Inv(s: State, days: set<int>) {
    && RowIsRunLength(s.row, days)
    && AwardsAreExact(s.awards, days)
    && (forall d <- days :: d <= DayNumber(s.clock))
    // a call still sees the row it read, or someone has recorded its day or a later one since
    && (forall c <- s.calls :: s.calls[c].row == s.row || RecordedSince(s.row, s.calls[c].today))
    && (forall c <- s.calls :: DayNumber(s.calls[c].today) <= DayNumber(s.clock))
  }

  lemma SameDate(a: Date, b: Date)
    ensures DayNumber(a) == DayNumber(b) <==> a == b
  {
    DateRoundTrip(a);
    DateRoundTrip(b);
  }

  lemma NewDayExtendsRuns(days: set<int>, today: int, streak: nat)
    requires forall d <- days :: d < today
    requires streak > 0 && MaximalRun(days, today - 1, streak - 1)
    ensures MaximalRun(days + {today}, today, streak)
    ensures forall last: int, n: nat :: last < today ==>
              (MaximalRun(days + {today}, last, n) <==> MaximalRun(days, last, n))
    ensures forall last: int, n: nat :: last > today && MaximalRun(days + {today}, last, n) ==> n == 0
  {
    var more := days + {today};
    assert today - streak == (today - 1) - (streak - 1);
    forall last: int, n: nat | last < today ensures MaximalRun(more, last, n) <==> MaximalRun(days, last, n) {
      assert forall d :: d <= last ==> (d in more <==> d in days);
    }
    forall last: int, n: nat | last > today && MaximalRun(more, last, n) ensures n == 0 {
      assert last !in more;
    }
  }

  lemma NewDayLongestRun(days: set<int>, today: int, streak: nat, longest: nat)
    requires forall d <- days :: d < today
    requires streak > 0 && MaximalRun(days, today - 1, streak - 1)
    requires LongestRun(days, longest)
    ensures LongestRun(days + {today}, if longest > streak then longest else streak)
  {
    NewDayExtendsRuns(days, today, streak);
    var more := days + {today};
    var best := if longest > streak then longest else streak;
    forall last: int, n: nat | MaximalRun(more, last, n) ensures n <= best {
      if last == today { RunLengthIsUnique(more, today, n, streak); }
    }
    if longest > streak {
      var last :| MaximalRun(days, last, longest);
      assert last in days;
      assert MaximalRun(more, last, longest);
    } else {
      assert MaximalRun(more, today, streak);
    }
  }

  lemma NewDayAwards(awards: seq<Award>, days: set<int>, today: Date, streak: nat)
    requires AwardsAreExact(awards, days)
    requires forall d <- days :: d < DayNumber(today)
    requires streak > 0 && MaximalRun(days, DayNumber(today) - 1, streak - 1)
    ensures AwardsAreExact(awards + AwardsFor(streak, today), days + {DayNumber(today)})
  {
    var more := days + {DayNumber(today)};
    forall a: Award
      ensures multiset(awards + AwardsFor(streak, today))[a] == if Earned(a, more) then 1 else 0
    {
      NewDayEarns(a, days, today, streak);
      assert multiset(awards + AwardsFor(streak, today)) == multiset(awards) + multiset(AwardsFor(streak, today));
    }
  }

  lemma NewDayEarns(a: Award, days: set<int>, today: Date, streak: nat)
    requires forall d <- days :: d < DayNumber(today)
    requires streak > 0 && MaximalRun(days, DayNumber(today) - 1, streak - 1)
    ensures Earned(a, days + {DayNumber(today)}) <==> Earned(a, days) || a in AwardsFor(streak, today)
    ensures multiset(AwardsFor(streak, today))[a] == if a in AwardsFor(streak, today) then 1 else 0
    ensures !(Earned(a, days) && a in AwardsFor(streak, today))
  {
    var more := days + {DayNumber(today)};
    NewDayExtendsRuns(days, DayNumber(today), streak);
    SameDate(a.today, today);
    if a.Milestone? {
      var last := DayNumber(a.today);
      EndOfRunIsMember(days, last, a.days);
      EndOfRunIsMember(more, last, a.days);
      if last == DayNumber(today) && MaximalRun(more, last, a.days) { RunLengthIsUnique(more, last, a.days, streak); }
    }
  }

  lemma EndOfRunIsMember(days: set<int>, last: int, n: nat)
    ensures n > 0 && MaximalRun(days, last, n) ==> last in days
  {
  }

  /** NextStreak extends the run that ended yesterday, or starts a run of one. */
  lemma NextStreakExtends(c: Call, days: set<int>)
    requires RowIsRunLength(c.row, days) && forall d <- days :: d < DayNumber(c.today)
    ensures MaximalRun(days, DayNumber(c.today) - 1, NextStreak(c) - 1)
  {
    if c.row.lastStudyDate.Some? && DayNumber(c.row.lastStudyDate.value) != DayNumber(c.today) - 1 {
      assert DayNumber(c.today) - 1 !in days;
    }
  }

  lemma WriteOnFreshDay(s: State, c: Call, days: set<int>)
    requires RowIsRunLength(s.row, days) && AwardsAreExact(s.awards, days) && c.row == s.row
    requires forall d <- days :: d <= DayNumber(c.today)
    requires s.row.lastStudyDate != Some(c.today)
    ensures var after, more := Written(s, c), days + {DayNumber(c.today)};
            RowIsRunLength(after.row, more) && AwardsAreExact(after.awards, more)
  {
    var today := DayNumber(c.today);
    if s.row.lastStudyDate.Some? { SameDate(s.row.lastStudyDate.value, c.today); }
    NextStreakExtends(c, days);
    NoRunsInEmptySet(days);
    NewDayExtendsRuns(days, today, NextStreak(c));
    NewDayLongestRun(days, today, NextStreak(c), s.row.longestStreak);
    NewDayAwards(s.awards, days, c.today, NextStreak(c));
  }

  lemma NoRunsInEmptySet(days: set<int>)
    ensures days == {} ==> LongestRun(days, 0)
  {
    if days == {} {
      forall last: int, n: nat | MaximalRun(days, last, n) ensures n <= 0 { EndOfRunIsMember(days, last, n); }
      assert MaximalRun(days, 0, 0);
    }
  }

  lemma WriteKeepsInv(s: State, call: nat, days: set<int>)
    requires Inv(s, days) && call in s.calls && s.calls[call].today == s.clock
    ensures Inv(Step(s, Write(call)), days + {DayNumber(s.clock)})
  {
    if s.row.lastStudyDate == Some(s.clock) {
      assert days + {DayNumber(s.clock)} == days;
    } else {
      if s.row.lastStudyDate.Some? { SameDate(s.row.lastStudyDate.value, s.clock); }
      WriteOnFreshDay(s, s.calls[call], days);
    }
  }

  /**
    Whatever the interleaving of reads and guarded writes, the row holds the length of the run of
    consecutive study days ending on the last one and the longest run ever; the award call fires exactly
    once for every study day, and exactly once for a milestone of each maximal run that reaches it.
   */
  lemma {:induction false} StreaksAreRunLengths(start: Date, events: seq<Event>)
    requires AllAllowed(start, events)
    ensures Inv(Run(start, events), StudyDays(start, events))
  {
    if events == [] {
      var none: set<int> := {};
      forall a: Award ensures !Earned(a, none) {
        if a.Milestone? { EndOfRunIsMember(none, DayNumber(a.today), a.days); }
      }
    } else {
      var before, e := events[..|events| - 1], events[|events| - 1];
      var s, days := Run(start, before), StudyDays(start, before);
      StreaksAreRunLengths(start, before);
      if e.Write? && e.call in s.calls {
        WriteKeepsInv(s, e.call, days);
      } else {
        assert StudyDays(start, events) == days;
        if e.NextDay? { SameDate(s.clock, e.today); }
      }
    }
  }

  /** A read that finds today already recorded ends its call, and today is then a study day. */
  lemma {:induction false} EarlyReturnIsAStudyDay(start: Date, events: seq<Event>, call: nat)
    requires AllAllowed(start, events)
    requires Run(start, events).row.lastStudyDate == Some(Run(start, events).clock)
    ensures Step(Run(start, events), Read(call)) == Run(start, events)
    ensures DayNumber(Run(start, events).clock) in StudyDays(start, events)
  {
    StreaksAreRunLengths(start, events);
  }

  /** A write leaves a correct row exactly when the row does not yet carry a later date than the call's. */
  lemma WriteIsRightIff(s: State, call: nat, days: set<int>)
    requires Inv(s, days) && call in s.calls
    ensures var c := s.calls[call];
            RowIsRunLength(Written(s, c).row, days + {DayNumber(c.today)}) <==>
            (s.row.lastStudyDate.None? || DayNumber(s.row.lastStudyDate.value) <= DayNumber(c.today))
  {
    var c := s.calls[call];
    if s.row.lastStudyDate == Some(c.today) {
      assert days + {DayNumber(c.today)} == days;
    } else if s.row.lastStudyDate.None? || DayNumber(s.row.lastStudyDate.value) < DayNumber(c.today) {
      WriteOnFreshDay(s, c, days);
    } else {
      SameDate(s.row.lastStudyDate.value, c.today);
      assert DayNumber(s.row.lastStudyDate.value) in days + {DayNumber(c.today)};
    }
  }

  /**
    The same-day condition is needed: a call that reads on one day and writes on the next, after
    that next day was recorded, puts the older date back.
   */
  lemma StraddlingCallRegresses(d: Date) returns (events: seq<Event>)
    ensures Run(d, events).row.lastStudyDate == Some(d)
    ensures StudyDays(d, events) == {DayNumber(d), DayNumber(NextDate(d))}
  {
    SameDate(d, NextDate(d));
    NextDateIsNextDay(d);
    events := [];
    Appended(d, events, Read(0));
    events := events + [Read(0)];
    Appended(d, events, NextDay(NextDate(d)));
    events := events + [NextDay(NextDate(d))];
    WriteRemovesOthersOnly(Run(d, events), 0, 1);
    Appended(d, events, Read(1));
    events := events + [Read(1)];
    Appended(d, events, Write(1));
    events := events + [Write(1)];
    Appended(d, events, Write(0));
    events := events + [Write(0)];
  }

  lemma WriteRemovesOthersOnly(s: State, kept: nat, call: nat)
    requires kept != call && kept in s.calls && s.row.lastStudyDate == None
    ensures var after := Step(Step(s, Read(call)), Write(call));
            && kept in after.calls && after.calls[kept] == s.calls[kept]
            && after.row.lastStudyDate == Some(s.clock)
            && call in Step(s, Read(call)).calls && Step(s, Read(call)).calls[call].today == s.clock
  {
  }

  lemma {:induction false} Appended(start: Date, events: seq<Event>, e: Event)
    ensures var s := Run(start, events);
            && Run(start, events + [e]) == Step(s, e)
            && StudyDays(start, events + [e]) ==
               StudyDays(start, events) +
               (if e.Write? && e.call in s.calls then {DayNumber(s.calls[e.call].today)} else {})
  {
    assert (events + [e])[..|events|] == events;
  }

  // ----- The service ------------------------------------------------------------------------

  datatype RecordStudyDayResult = RecordStudyDayResult(streakDays: nat, longestStreak: nat, changed: bool,
          milestoneAwarded: Option<nat>)

  class StreakService {
    var user: Option<UserRow>
    var awards: seq<Award>

    constructor (user: Option<UserRow>)
      ensures this.user == user && awards == []
    {
      this.user, awards := user, [];
    }

    /** UPDATE users SET .. WHERE id = :id AND (last_study_date IS NULL OR last_study_date <> :today) */
    method UpdateUnlessStudied(row: UserRow, today: Date) returns (affected: nat)
      modifies this`user
      ensures affected == if old(user).Some? && old(user).value.lastStudyDate != Some(today) then 1 else 0
      ensures user == if affected == 1 then Some(row) else old(user)
    {
      affected := 0;
      if user.Some? && user.value.lastStudyDate != Some(today) {
        user := Some(row);
        affected := 1;
      }
    }

    /** A whole call with nothing in between; its effect is that of a read step and a write step. */
    method RecordStudyDay(today: Date) returns (r: RecordStudyDayResult)
      modifies this
      ensures old(user).None? ==> user.None? && awards == old(awards) && r == RecordStudyDayResult(0, 0, false, None)
      ensures old(user).Some? ==>
                var before := State(old(user).value, map[], old(awards), today);
                var after := Step(Step(before, Read(0)), Write(0));
                && user == Some(after.row) && awards == after.awards
                && r.streakDays == after.row.streakDays && r.longestStreak == after.row.longestStreak
                && (r.changed <==> before.row.lastStudyDate != Some(today))
                && (r.milestoneAwarded == if r.changed && IsMilestone(r.streakDays) then Some(r.streakDays) else None)
    {
      if user.None? { return RecordStudyDayResult(0, 0, false, None); }
      var found := user.value;
      if found.lastStudyDate == Some(today) {
        return RecordStudyDayResult(found.streakDays, found.longestStreak, false, None);
      }
      var nextStreak := if found.lastStudyDate.Some? && AccraDaysBetween(today, found.lastStudyDate.value) == 1
                        then found.streakDays + 1 else 1;
      var newLongest := if found.longestStreak > nextStreak then found.longestStreak else nextStreak;
      var affected := UpdateUnlessStudied(UserRow(nextStreak, newLongest, Some(today)), today);
      if affected == 0 {
        return RecordStudyDayResult(found.streakDays, found.longestStreak, false, None);
      }
      awards := awards + [StreakDay(today)];
      var milestone := IsMilestone(nextStreak);
      if milestone {
        awards := awards + [Milestone(nextStreak, today)];
      }
      r := RecordStudyDayResult(nextStreak, newLongest, true, if milestone then Some(nextStreak) else None);
    }
  }
}
