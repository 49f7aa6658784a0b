/**
  One-time codes: sends limited to 3 per phone and window, verifications to 5, and a stored code
  consumed by GETDEL. Every Redis command is one step, so any number of sends and verifications
  for any number of phones interleave. Hashing is taken to be injective, Redis to be up.
 */
module Otp {
  import opened Wrappers
  import opened RateLimit

  const SEND_LIMIT := 3
  const VERIFY_LIMIT := 5
  const RATE_TTL := 600

  function SendLimits(): Limits { Limits(SEND_LIMIT, RATE_TTL) }
  function VerifyLimits(): Limits { Limits(VERIFY_LIMIT, RATE_TTL) }
  const OTP_TTL := 600

  datatype Issue = Issue(code: string, at: int)

  /** The envelope under the code's key: which issued code it hashes, and when it expires. */
  datatype Stored = Stored(issue: nat, expiresAt: int)

  /** One comparison of a guess with a consumed envelope; issuedBefore counts the codes sent by then. */
  datatype Comparison = Comparison(issue: nat, guess: string, at: int, issuedBefore: nat, ok: bool)

  /** Everything that concerns one phone. The pending counts are calls between two commands. */
  datatype Phone = Phone(sends: RateLimit.State, verifies: RateLimit.State, clock: int,
                         storePending: nat, consumePending: nat, resetPending: nat,
                         issues: seq<Issue>, stored: Option<Stored>, comparisons: seq<Comparison>)

  datatype Event =
    | SendIncr(now: int) | SendExpire(now: int) | Store(code: string, now: int)
    | VerifyIncr(now: int) | VerifyExpire(now: int) | Consume(guess: string, now: int) | Reset(now: int)

  function Fresh(clock: int): Phone {
    Phone(RateLimit.Initial(clock), RateLimit.Initial(clock), clock, 0, 0, 0, [], None, [])
  }

  function Accepted(before: RateLimit.State, after: RateLimit.State): nat {
    if |after.log| > |before.log| then 1 else 0
  }

  /** GETDEL and the comparison with what it returned. */
  function Consumed(p: Phone, guess: string, now: int): Phone {
    var waiting := p.(consumePending := if p.consumePending > 0 then p.consumePending - 1 else 0, clock := now);
    if p.stored.None? || p.stored.value.expiresAt <= now || p.stored.value.issue >= |p.issues|
    then waiting.(stored := None)
    else
      var i := p.stored.value.issue;
      var ok := p.issues[i].code == guess;
      waiting.(stored := None, comparisons := p.comparisons + [Comparison(i, guess, now, |p.issues|, ok)],
               resetPending := p.resetPending + if ok then 1 else 0)
  }

  function Step(p: Phone, e: Event): Phone {
    match e
    case SendIncr(now) =>
      var sends := RateLimit.Step(SendLimits(), p.sends, Incr(now));
      p.(sends := sends, storePending := p.storePending + Accepted(p.sends, sends), clock := now)
    case SendExpire(now) => p.(sends := RateLimit.Step(SendLimits(), p.sends, Expire(now)), clock := now)
    case Store(code, now) =>
      p.(issues := p.issues + [Issue(code, now)], stored := Some(Stored(|p.issues|, now + OTP_TTL)),
         storePending := if p.storePending > 0 then p.storePending - 1 else 0, clock := now)
    case VerifyIncr(now) =>
      var verifies := RateLimit.Step(VerifyLimits(), p.verifies, Incr(now));
      p.(verifies := verifies, consumePending := p.consumePending + Accepted(p.verifies, verifies), clock := now)
    case VerifyExpire(now) => p.(verifies := RateLimit.Step(VerifyLimits(), p.verifies, Expire(now)), clock := now)
    case Consume(guess, now) => Consumed(p, guess, now)
    case Reset(now) =>
      p.(verifies := RateLimit.Step(VerifyLimits(), p.verifies, Del(now)),
         resetPending := if p.resetPending > 0 then p.resetPending - 1 else 0, clock := now)
  }

  predicate Allowed(p: Phone, e: Event) {
    && p.clock <= e.now
    && (e.SendExpire? ==> p.sends.expirePending > 0)
    && (e.VerifyExpire? ==> p.verifies.expirePending > 0)
    && (e.Store? ==> p.storePending > 0)
    && (e.Consume? ==> p.consumePending > 0)
    && (e.Reset? ==> p.resetPending > 0)
  }

  function Run(start: int, events: seq<Event>): Phone {
    if events == [] then Fresh(start) else Step(Run(start, events[..|events| - 1]), events[|events| - 1])
  }

  predicate AllAllowed(start: int, events: seq<Event>) {
    events == [] ||
    (AllAllowed(start, events[..|events| - 1]) && Allowed(Run(start, events[..|events| - 1]), events[|events| - 1]))
  }

  // ----- A code is compared at most once -----------------------------------------------------

  predicate SoundComparison(c: Comparison, issues: seq<Issue>) {
    && c.issuedBefore <= |issues| && c.issue + 1 == c.issuedBefore  // no later code had been sent
    && c.at < issues[c.issue].at + OTP_TTL
    && (c.ok <==> c.guess == issues[c.issue].code)
  }

  ghost predicate SingleUse(p: Phone) {
    && (forall c <- p.comparisons :: SoundComparison(c, p.issues))
    && (forall i, j | 0 <= i < j < |p.comparisons| :: p.comparisons[i].issue < p.comparisons[j].issue)
    // what is stored is the latest code, and it has not been compared
    && (p.stored.Some? ==>
          && p.stored.value.issue + 1 == |p.issues|
          && p.stored.value.expiresAt == p.issues[p.stored.value.issue].at + OTP_TTL
          && forall c <- p.comparisons :: c.issue < p.stored.value.issue)
    && |p.issues| + p.storePending == |p.sends.log|
    && |p.comparisons| + p.consumePending <= |p.verifies.log|
    && p.resetPending <= |p.comparisons|
  }

  lemma StepKeepsSingleUse(p: Phone, e: Event)
    requires SingleUse(p) && Allowed(p, e)
    ensures SingleUse(Step(p, e))
  {
    if e.Store? {
      forall c | c in p.comparisons ensures SoundComparison(c, Step(p, e).issues) {
        assert SoundComparison(c, p.issues);
      }
    }
  }

  lemma {:induction false} IncreasingIssuesFit(comparisons: seq<Comparison>, n: nat)
    requires forall c <- comparisons :: c.issue < n
    requires forall i, j | 0 <= i < j < |comparisons| :: comparisons[i].issue < comparisons[j].issue
    ensures |comparisons| <= n
  {
    if comparisons != [] {
      var last := |comparisons| - 1;
      IncreasingIssuesFit(comparisons[..last], comparisons[last].issue);
    }
  }

  lemma {:induction false} RunIsSingleUse(start: int, events: seq<Event>)
    requires AllAllowed(start, events)
    ensures SingleUse(Run(start, events))
  {
    if events != [] {
      RunIsSingleUse(start, events[..|events| - 1]);
      StepKeepsSingleUse(Run(start, events[..|events| - 1]), events[|events| - 1]);
    }
  }

  /**
    However sends and verifications interleave: no code is compared twice, there are no more
    comparisons than codes or accepted attempts, no more codes than accepted sends, and a comparison
    only ever involves the latest code sent, before its TTL has run out, succeeding exactly on that code.
   */
  lemma {:induction false} CodesAreSingleUse(start: int, events: seq<Event>)
    requires AllAllowed(start, events)
    ensures var p := Run(start, events);
            && |p.comparisons| <= |p.issues| <= |p.sends.log| && |p.comparisons| <= |p.verifies.log|
            && (forall i, j | 0 <= i < j < |p.comparisons| :: p.comparisons[i].issue != p.comparisons[j].issue)
            && (forall c <- p.comparisons ::
                  && c.issue + 1 == c.issuedBefore <= |p.issues| && c.at < p.issues[c.issue].at + 600
                  && (c.ok <==> c.guess == p.issues[c.issue].code))
  {
    RunIsSingleUse(start, events);
    IncreasingIssuesFit(Run(start, events).comparisons, |Run(start, events).issues|);
  }

  // ----- The send limiter inside the service --------------------------------------------------

  function SendEvents(events: seq<Event>): (r: seq<RateLimit.Event>)
    ensures forall e <- r :: !e.Del?
  {
    if events == [] then []
    else
      var before, e := SendEvents(events[..|events| - 1]), events[|events| - 1];
      match e
      case SendIncr(now) => before + [Incr(now)]
      case SendExpire(now) => before + [Expire(now)]
      case _ => before
  }

  lemma {:induction false} SendLimiterIsLimiter(start: int, events: seq<Event>)
    requires AllAllowed(start, events)
    ensures Run(start, events).sends == RateLimit.Run(SendLimits(), start, SendEvents(events))
    ensures RateLimit.AllAllowed(SendLimits(), start, SendEvents(events))
    ensures Run(start, events).sends.clock <= Run(start, events).clock
  {
    if events != [] {
      var before, e := events[..|events| - 1], events[|events| - 1];
      SendLimiterIsLimiter(start, before);
      if e.SendIncr? {
        RateLimit.Appended(SendLimits(), start, SendEvents(before), Incr(e.now));
      } else if e.SendExpire? {
        RateLimit.Appended(SendLimits(), start, SendEvents(before), Expire(e.now));
      } else {
        OtherStepsKeepSends(Run(start, before), e);
      }
    }
  }

  lemma OtherStepsKeepSends(p: Phone, e: Event)
    requires !e.SendIncr? && !e.SendExpire?
    ensures Step(p, e).sends == p.sends && Step(p, e).clock == e.now
  {
  }

  /** Per phone: at most 3 sends are accepted in a window, and at most 5 in any half-open 600 seconds. */
  lemma {:induction false} SendsAreLimited(start: int, events: seq<Event>, window: nat, from: int)
    requires AllAllowed(start, events)
    ensures InWindow(Run(start, events).sends.log, window) <= 3
    ensures InInterval(Run(start, events).sends.log, from, from + 600) <= 5
  {
    SendLimiterIsLimiter(start, events);
    AtMostMaxPerWindow(SendLimits(), start, SendEvents(events));
    SlidingBound(SendLimits(), start, SendEvents(events), from);
  }

  // ----- The verification limiter inside the service ------------------------------------------

  /** What an event does to the verification counter. */
  function VerifyCommand(e: Event): Option<RateLimit.Event> {
    match e
    case VerifyIncr(now) => Some(Incr(now))
    case VerifyExpire(now) => Some(Expire(now))
    case Reset(now) => Some(Del(now))
    case _ => None
  }

  function VerifyEvents(events: seq<Event>): seq<RateLimit.Event> {
    if events == [] then []
    else
      var before, command := VerifyEvents(events[..|events| - 1]), VerifyCommand(events[|events| - 1]);
      if command.Some? then before + [command.value] else before
  }

  lemma StepVerifies(p: Phone, e: Event)
    requires Allowed(p, e) && p.verifies.clock <= p.clock
    ensures var (t, command) := (Step(p, e), VerifyCommand(e));
            && t.clock == e.now
            && (command.None? ==> t.verifies == p.verifies)
            && (command.Some? ==> t.verifies == RateLimit.Step(VerifyLimits(), p.verifies, command.value)
                                  && RateLimit.Allowed(p.verifies, command.value) && t.verifies.clock == e.now)
  {
  }

  lemma {:induction false} VerifyLimiterIsLimiter(start: int, events: seq<Event>)
    requires AllAllowed(start, events)
    ensures Run(start, events).verifies == RateLimit.Run(VerifyLimits(), start, VerifyEvents(events))
    ensures RateLimit.AllAllowed(VerifyLimits(), start, VerifyEvents(events))
    ensures Run(start, events).verifies.clock <= Run(start, events).clock
  {
    if events != [] {
      var before, e := events[..|events| - 1], events[|events| - 1];
      VerifyLimiterIsLimiter(start, before);
      StepVerifies(Run(start, before), e);
      if VerifyCommand(e).Some? {
        RateLimit.Appended(VerifyLimits(), start, VerifyEvents(before), VerifyCommand(e).value);
      }
    }
  }

  /** No success deletes the verification counter in the 600 seconds from `from`. */
  ghost predicate NoResetWithin(events: seq<Event>, from: int) {
    forall e <- events :: e.Reset? ==> !(from <= e.now < from + 600)
  }

  lemma {:induction false} DelsAreResets(events: seq<Event>)
    ensures forall d <- VerifyEvents(events) :: d.Del? ==> Reset(d.now) in events
  {
    if events != [] { DelsAreResets(events[..|events| - 1]); }
  }

  /**
    Per phone: at most 5 attempts pass in a window of the verification counter, a success starting a new one, and
    at most 9 in any half-open 600 seconds in which no success deletes the counter.
   */
  lemma {:induction false} VerificationsAreLimited(start: int, events: seq<Event>, window: nat, from: int)
    requires AllAllowed(start, events)
    ensures InWindow(Run(start, events).verifies.log, window) <= 5
    ensures NoResetWithin(events, from) ==> InInterval(Run(start, events).verifies.log, from, from + 600) <= 9
  {
    VerifyLimiterIsLimiter(start, events);
    AtMostMaxPerWindow(VerifyLimits(), start, VerifyEvents(events));
    if NoResetWithin(events, from) {
      DelsAreResets(events);
      SlidingBound(VerifyLimits(), start, VerifyEvents(events), from);
    }
  }

  // ----- Many phones ----------------------------------------------------------------------------

  datatype PhoneEvent = On(phone: string, event: Event)

  function Get(phones: map<string, Phone>, phone: string, start: int): Phone {
    if phone in phones then phones[phone] else Fresh(start)
  }

  function RunAll(start: int, events: seq<PhoneEvent>): map<string, Phone> {
    if events == [] then map[]
    else
      var before, e := RunAll(start, events[..|events| - 1]), events[|events| - 1];
      before[e.phone := Step(Get(before, e.phone, start), e.event)]
  }

  function EventsOf(events: seq<PhoneEvent>, phone: string): seq<Event> {
    if events == [] then []
    else
      var before, e := EventsOf(events[..|events| - 1], phone), events[|events| - 1];
      if e.phone == phone then before + [e.event] else before
  }

  /** The keys of different phones are different, so each phone runs on its own commands alone. */
  lemma {:induction false} PhonesAreIndependent(start: int, events: seq<PhoneEvent>, phone: string)
    ensures Get(RunAll(start, events), phone, start) == Run(start, EventsOf(events, phone))
  {
    if events != [] {
      var before, e := events[..|events| - 1], events[|events| - 1];
      PhonesAreIndependent(start, before, phone);
      assert (EventsOf(before, phone) + [e.event])[..|EventsOf(before, phone)|] == EventsOf(before, phone);
    }
  }

  // ----- Calls on their own ------------------------------------------------------------------------

  /** A send: INCR, EXPIRE for a new key, and the code if the limiter lets it pass. */
  function SendCall(p: Phone, code: string, now: int): Phone {
    var counted := Step(p, SendIncr(now));
    var t := if counted.sends.cell.Some? && counted.sends.cell.value.count == 1 then Step(counted, SendExpire(now))
             else counted;
    if counted.storePending > p.storePending then Step(t, Store(code, now)) else t
  }

  /** An attempt: INCR, EXPIRE for a new key, GETDEL if the limiter lets it pass, DEL of the counter if it matched. */
  function VerifyCall(p: Phone, guess: string, now: int): Phone {
    var t := VerifyCounted(p, now);
    if t.consumePending == p.consumePending then t
    else
      var u := Step(t, Consume(guess, now));
      if u.resetPending > p.resetPending then Step(u, Reset(now)) else u
  }

  function VerifyCounted(p: Phone, now: int): Phone {
    var t := Step(p, VerifyIncr(now));
    if t.verifies.cell.Some? && t.verifies.cell.value.count == 1 then Step(t, VerifyExpire(now)) else t
  }

  lemma CountedAttempt(p: Phone, now: int)
    requires Counting(p.verifies)
    ensures VerifyCounted(p, now) ==
              p.(verifies := Called(VerifyLimits(), p.verifies, now), clock := now,
                 consumePending := p.consumePending + if NextCount(p.verifies.cell, now) <= 5 then 1 else 0)
  {
    UninterruptedCall(VerifyLimits(), p.verifies, now);
  }

  /** The count that a limiter's counter stands at after one more call. */
  function NextCount(cell: Option<Counter>, now: int): nat {
    if cell.Some? && (cell.value.expiresAt == None || now < cell.value.expiresAt.value) then cell.value.count + 1 else 1
  }

  ghost predicate Counting(s: RateLimit.State) { s.cell.Some? ==> s.starts != [] && s.cell.value.count >= 1 }

  /** Up to the third of a window a send stores its code for 600 s; a later one stores nothing. */
  lemma UninterruptedSend(p: Phone, code: string, now: int)
    requires Counting(p.sends)
    ensures var (t, count) := (SendCall(p, code, now), NextCount(p.sends.cell, now));
            && (count <= 3 ==>
                  && t.issues == p.issues + [Issue(code, now)]
                  && t.stored == Some(Stored(|p.issues|, now + 600)) && |t.sends.log| == |p.sends.log| + 1)
            && (count > 3 ==> t.issues == p.issues && t.stored == p.stored && t.sends.log == p.sends.log)
            && t.sends == Called(SendLimits(), p.sends, now)
            && t.verifies == p.verifies && t.comparisons == p.comparisons && t.storePending == p.storePending
  {
    UninterruptedCall(SendLimits(), p.sends, now);
  }

  /**
    Up to the fifth of a window an attempt uses up the code; a live one is compared, and matches exactly if it is the
    guess, which deletes the counter. A later attempt changes nothing but the counter.
   */
  lemma UninterruptedVerify(p: Phone, guess: string, now: int)
    requires Counting(p.verifies) && (p.stored.Some? ==> p.stored.value.issue < |p.issues|)
    ensures var (t, count) := (VerifyCall(p, guess, now), NextCount(p.verifies.cell, now));
            var live := p.stored.Some? && now < p.stored.value.expiresAt;
            var matched := live && p.issues[p.stored.value.issue].code == guess;
            && (count <= 5 ==>
                  && t.stored == None
                  && t.comparisons == (if live then p.comparisons +
                                         [Comparison(p.stored.value.issue, guess, now, |p.issues|, matched)]
                                       else p.comparisons)
                  && t.verifies.cell == (if matched then None else Called(VerifyLimits(), p.verifies, now).cell))
            && (count > 5 ==>
                  && t.stored == p.stored && t.comparisons == p.comparisons
                  && t.verifies == Called(VerifyLimits(), p.verifies, now))
            && t.sends == p.sends && t.issues == p.issues
            && t.consumePending == p.consumePending && t.resetPending == p.resetPending
  {
    CountedAttempt(p, now);
  }

  // ----- The services ---------------------------------------------------------------------------

  datatype Key = SendRate(phone: string) | VerifyRate(phone: string) | Code(phone: string)

  /** A value with the instant it expires; hashes are represented by what they hash. */
  datatype Entry = Entry(value: string, expiresAt: int)

  function Cell(counters: map<Key, Counter>, key: Key): Option<Counter> {
    if key in counters then Some(counters[key]) else None
  }

  function LiveEntry(values: map<Key, Entry>, key: Key, now: int): Option<string> {
    if key in values && now < values[key].expiresAt then Some(values[key].value) else None
  }

  /** RedisService.incr run without interruption: a new key also gets its TTL. */
  function IncrementedWithTtl(cell: Option<Counter>, ttl: int, now: int): Counter {
    var c := Incremented(cell, now);
    if c.count == 1 then c.(expiresAt := Some(now + ttl)) else c
  }

  /** That is the limiter's call: it counts on in a live key, and starts a new one for the TTL otherwise. */
  lemma IncrementedIsACall(l: Limits, s: RateLimit.State, now: int)
    requires Counting(s)
    ensures var c := IncrementedWithTtl(s.cell, l.ttl, now);
            && Called(l, s, now).cell == Some(c) && c.count == NextCount(s.cell, now)
            && c.expiresAt == (if c.count > 1 then s.cell.value.expiresAt else Some(now + l.ttl))
  {
    UninterruptedCall(l, s, now);
  }

  class RedisService {
    var counters: map<Key, Counter>
    var values: map<Key, Entry>

    constructor ()
      ensures counters == map[] && values == map[]
    {
      counters, values := map[], map[];
    }

    method Incr(key: Key, ttl: int, now: int) returns (count: nat)
      modifies this`counters
      ensures counters == old(counters)[key := IncrementedWithTtl(Cell(old(counters), key), ttl, now)]
      ensures count == counters[key].count
      ensures var were := old(counters);
              count == if key in were && (were[key].expiresAt == None || now < were[key].expiresAt.value)
                       then were[key].count + 1 else 1
    {
      var c := Incremented(Cell(counters, key), now);
      counters := counters[key := c];
      count := c.count;
      if count == 1 {
        counters := counters[key := c.(expiresAt := Some(now + ttl))];
      }
    }

    method SetJson(key: Key, value: string, ttl: int, now: int)
      modifies this`values
      ensures values == old(values)[key := Entry(value, now + ttl)]
    {
      values := values[key := Entry(value, now + ttl)];
    }

    method GetDel(key: Key, now: int) returns (value: Option<string>)
      modifies this`values
      ensures value == LiveEntry(old(values), key, now)
      ensures value.Some? <==> key in old(values) && now < old(values)[key].expiresAt
      ensures value.Some? ==> value.value == old(values)[key].value
      ensures values == old(values) - {key}
    {
      value := if key in values && now < values[key].expiresAt then Some(values[key].value) else None;
      values := values - {key};
    }

    method Del(key: Key)
      modifies this
      ensures counters == old(counters) - {key} && values == old(values) - {key}
    {
      counters := counters - {key};
      values := values - {key};
    }
  }

  datatype Outcome = Done | TooManyRequests | InvalidOrExpired

  class OtpService {
    const redis: RedisService

    constructor (redis: RedisService)
      ensures this.redis == redis
    {
      this.redis := redis;
    }

    method Send(phone: string, code: string, now: int) returns (r: Outcome)
      modifies redis
      ensures redis.counters == old(redis.counters)[SendRate(phone) :=
                IncrementedWithTtl(Cell(old(redis.counters), SendRate(phone)), RATE_TTL, now)]
      ensures r == if NextCount(Cell(old(redis.counters), SendRate(phone)), now) <= 3 then Done else TooManyRequests
      ensures redis.values ==
                if r.Done? then old(redis.values)[Code(phone) := Entry(code, now + 600)] else old(redis.values)
    {
      var attempts := redis.Incr(SendRate(phone), RATE_TTL, now);
      if attempts > SEND_LIMIT { return TooManyRequests; }
      redis.SetJson(Code(phone), code, OTP_TTL, now);
      r := Done;
    }

    /** Whatever the guess, an attempt that passes the limiter leaves no code behind. */
    method Verify(phone: string, guess: string, now: int) returns (r: Outcome)
      modifies redis
      ensures var (count, values) := (NextCount(Cell(old(redis.counters), VerifyRate(phone)), now), old(redis.values));
              var matched := Code(phone) in values && now < values[Code(phone)].expiresAt
                             && values[Code(phone)].value == guess;
              r == if count > 5 then TooManyRequests else if matched then Done else InvalidOrExpired
      ensures redis.counters ==
                if r.Done? then old(redis.counters) - {VerifyRate(phone)}
                else old(redis.counters)[VerifyRate(phone) :=
                       IncrementedWithTtl(Cell(old(redis.counters), VerifyRate(phone)), RATE_TTL, now)]
      ensures r.TooManyRequests? ==> redis.values == old(redis.values)
      ensures !r.TooManyRequests? ==> Code(phone) !in redis.values
      ensures forall k | k != Code(phone) && k != VerifyRate(phone) ::
                (k in redis.values <==> k in old(redis.values))
                && (k in redis.values ==> redis.values[k] == old(redis.values)[k])
    {
      var attempts := redis.Incr(VerifyRate(phone), RATE_TTL, now);
      if attempts > VERIFY_LIMIT { return TooManyRequests; }
      var stored := redis.GetDel(Code(phone), now);
      if stored.None? || stored.value != guess { return InvalidOrExpired; }
      redis.Del(VerifyRate(phone));
      assert redis.counters == old(redis.counters) - {VerifyRate(phone)};
      r := Done;
    }
  }
}
