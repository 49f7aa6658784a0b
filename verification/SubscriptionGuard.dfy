/**
  The entitlement guard: Redis cache, else database, else refusal. The cache read, the database
  read and the cache fill of one request are separate steps; requests interleave with each other,
  with invalidations, and with arbitrary changes to the subscriptions table. Times are seconds.
 */
module SubscriptionGuard {
  import opened Wrappers

  datatype Account = Free | Plus | Pro

  datatype Status = Active | Trial | XpCredited | PastDue | Cancelled | Expired | Refunded

  /** A subscription joined with its plan. */
  datatype Sub = Sub(id: nat, user: string, level: string, account: Account, status: Status, expiresAt: Option<int>)

  datatype Key = Key(user: string, level: string)

  datatype Payload = Payload(account: Account, expiresAt: Option<int>, subscriptionId: nat)

  datatype Entry = Entry(payload: Payload, until: int)

  predicate Eligible(s: Sub, k: Key, now: int) {
    && s.user == k.user && s.level == k.level
    && (s.status.Active? || s.status.Trial? || s.status.XpCredited?)
    && (s.expiresAt.None? || s.expiresAt.value > now)
  }

  /** Plus and Pro grant until they expire, and for ever without an expiry. */
  predicate Grants(account: Account, expiresAt: Option<int>, now: int) {
    !account.Free? && (expiresAt.None? || expiresAt.value > now)
  }

  function Rank(a: Account): nat { if a.Pro? then 2 else if a.Plus? then 1 else 0 }

  /** ORDER BY account rank DESC, expires_at DESC NULLS FIRST. */
  predicate NotAfter(a: Sub, b: Sub) {
    Rank(a.account) > Rank(b.account) ||
    (Rank(a.account) == Rank(b.account) &&
     (a.expiresAt.None? || (b.expiresAt.Some? && a.expiresAt.value >= b.expiresAt.value)))
  }

  /** The filtered, ordered query with LIMIT 1. */
  function Best(rows: seq<Sub>, k: Key, now: int): (best: Option<Sub>)
    ensures best.None? <==> forall s <- rows :: !Eligible(s, k, now)
    ensures best.Some? ==> best.value in rows && Eligible(best.value, k, now)
    ensures best.Some? ==> forall s <- rows :: Eligible(s, k, now) ==> NotAfter(best.value, s)
  {
    if rows == [] then None
    else
      var n := |rows| - 1;
      var before := Best(rows[..n], k, now);
      assert forall s <- rows :: s in rows[..n] || s == rows[n];
      if Eligible(rows[n], k, now) && (before.None? || !NotAfter(before.value, rows[n])) then Some(rows[n]) else before
  }

  function PayloadOf(s: Sub): Payload { Payload(s.account, s.expiresAt, s.id) }

  // ----- What the best row is ---------------------------------------------------------------------

  /** The row is of the user and level, in one of the three paying states, and unexpired. */
  ghost predicate Counts(s: Sub, k: Key, now: int) {
    && s.user == k.user && s.level == k.level && s.status in {Active, Trial, XpCredited}
    && (s.expiresAt == None || now < s.expiresAt.value)
  }

  /** No row that counts has a higher account, and none of the same account grants for longer. */
  ghost predicate IsBestOf(best: Sub, rows: seq<Sub>, k: Key, now: int) {
    && best in rows && Counts(best, k, now)
    && forall s <- rows :: Counts(s, k, now) ==>
         && (s.account == Pro ==> best.account == Pro)
         && (s.account == Plus ==> best.account != Free)
         && (s.account == best.account && best.expiresAt.Some? ==>
               s.expiresAt.Some? && s.expiresAt.value <= best.expiresAt.value)
  }

  lemma CountsIsEligible(s: Sub, k: Key, now: int)
    ensures Counts(s, k, now) <==> Eligible(s, k, now)
  {
  }

  /** The query returns such a row, or none exactly if no row counts. */
  lemma BestRow(rows: seq<Sub>, k: Key, now: int)
    ensures Best(rows, k, now).None? <==> forall s <- rows :: !Counts(s, k, now)
    ensures Best(rows, k, now).Some? ==> IsBestOf(Best(rows, k, now).value, rows, k, now)
  {
    forall s | s in rows ensures Counts(s, k, now) <==> Eligible(s, k, now) { CountsIsEligible(s, k, now); }
    if Best(rows, k, now).Some? {
      forall s | s in rows && Counts(s, k, now) ensures NotAfter(Best(rows, k, now).value, s) {}
    }
  }

  /**
    The row read at `now` grants at a later time exactly if some row that counted then is Plus or Pro, is of the
    highest account there was, and has not expired by that time.
   */
  lemma BestGrantsIff(best: Sub, rows: seq<Sub>, k: Key, now: int, later: int)
    requires IsBestOf(best, rows, k, now)
    ensures Grants(best.account, best.expiresAt, later) <==>
              exists s <- rows :: Counts(s, k, now) && s.account == best.account != Free
                                  && (s.expiresAt == None || later < s.expiresAt.value)
  {
    if Grants(best.account, best.expiresAt, later) { assert best in rows; }
  }

  /** At once, that is: some row of the user and level that counts is Plus or Pro. */
  lemma GrantedAtOnceIff(rows: seq<Sub>, k: Key, now: int)
    ensures Best(rows, k, now).Some?
            && Grants(Best(rows, k, now).value.account, Best(rows, k, now).value.expiresAt, now)
            <==> exists s <- rows :: Counts(s, k, now) && s.account in {Plus, Pro}
  {
    BestRow(rows, k, now);
    if Best(rows, k, now).Some? {
      var best := Best(rows, k, now).value;
      BestGrantsIff(best, rows, k, now, now);
      if best.account != Free { assert best in rows && best.account in {Plus, Pro}; }
    }
  }

  // ----- Steps and history --------------------------------------------------------------------

  /** A database read: who asked, when, the table at that moment and the row that came back. */
  datatype Query = Query(call: nat, key: Key, at: int, rows: seq<Sub>, sub: Sub)

  datatype Fill = Fill(query: Query, at: int)

  /** A database read that found nothing. */
  datatype Empty = Empty(call: nat, key: Key, at: int, rows: seq<Sub>)

  datatype Decision = Decision(call: nat, key: Key, at: int, granted: bool, cached: bool)

  datatype State = State(rows: seq<Sub>, cache: map<Key, Entry>, clock: int,
                         missed: map<nat, Key>, toFill: map<nat, Query>,
                         fills: seq<Fill>, empties: seq<Empty>, decisions: seq<Decision>)

  datatype Event =
    | SetRows(rows: seq<Sub>, now: int)
    | Invalidate(key: Key, now: int)
    | Check(call: nat, key: Key, now: int)
    | DbRead(call: nat, now: int)
    | CacheFill(call: nat, now: int)

  function Initial(start: int): State { State([], map[], start, map[], map[], [], [], []) }

  predicate Hit(s: State, k: Key, now: int) { k in s.cache && now < s.cache[k].until }

  function Checked(s: State, call: nat, k: Key, now: int): State {
    if Hit(s, k, now) then
      var p := s.cache[k].payload;
      s.(decisions := s.decisions + [Decision(call, k, now, Grants(p.account, p.expiresAt, now), true)])
    else s.(missed := s.missed[call := k])
  }

  function Queried(s: State, call: nat, now: int): State
    requires call in s.missed
  {
    var k := s.missed[call];
    var best := Best(s.rows, k, now);
    var t := s.(missed := s.missed - {call});
    if best.None? then
      t.(empties := s.empties + [Empty(call, k, now, s.rows)],
         decisions := s.decisions + [Decision(call, k, now, false, false)])
    else t.(toFill := s.toFill[call := Query(call, k, now, s.rows, best.value)])
  }

  function Filled(s: State, call: nat, now: int, ttl: int): State
    requires call in s.toFill
  {
    var q := s.toFill[call];
    s.(toFill := s.toFill - {call}, fills := s.fills + [Fill(q, now)],
       cache := s.cache[q.key := Entry(PayloadOf(q.sub), now + ttl)],
       decisions := s.decisions + [Decision(call, q.key, now, Grants(q.sub.account, q.sub.expiresAt, now), false)])
  }

  function Step(s: State, e: Event, ttl: int): State {
    var s := s.(clock := e.now);
    match e
    case SetRows(rows, now) => s.(rows := rows)
    case Invalidate(key, now) => s.(cache := s.cache - {key})
    case Check(call, key, now) => Checked(s, call, key, now)
    case DbRead(call, now) => if call in s.missed then Queried(s, call, now) else s
    case CacheFill(call, now) => if call in s.toFill then Filled(s, call, now, ttl) else s
  }

  function Run(start: int, events: seq<Event>, ttl: int): State {
    if events == [] then Initial(start)
    else Step(Run(start, events[..|events| - 1], ttl), events[|events| - 1], ttl)
  }

  predicate TimesOrdered(start: int, events: seq<Event>) {
    events == [] ||
    (TimesOrdered(start, events[..|events| - 1]) &&
     (if |events| == 1 then start else events[|events| - 2].now) <= events[|events| - 1].now)
  }

  // ----- What a decision rests on -----------------------------------------------------------------

  /** The row was the best eligible one when the database was read. */
  ghost predicate SoundQuery(q: Query) {
    IsBestOf(q.sub, q.rows, q.key, q.at)
  }

  /** The decision was taken on this fill: made by the same request, or less than one TTL earlier. */
  ghost predicate RestsOn(d: Decision, f: Fill, ttl: int) {
    && SoundQuery(f.query) && f.query.key == d.key
    && f.query.at <= f.at <= d.at
    && (if d.cached then d.at < f.at + ttl else f.query.call == d.call && f.at == d.at)
    && d.granted == Grants(f.query.sub.account, f.query.sub.expiresAt, d.at)
  }

  ghost predicate FromFill(e: Entry, k: Key, fills: seq<Fill>, ttl: int) {
    exists f <- fills :: f.query.key == k && e == Entry(PayloadOf(f.query.sub), f.at + ttl)
  }

  /** The request itself read the database then, and no row was eligible. */
  ghost predicate FoundNothing(d: Decision, e: Empty) {
    e.call == d.call && e.key == d.key && e.at == d.at && forall s <- e.rows :: !Counts(s, d.key, d.at)
  }

  ghost predicate RestsOnAFill(d: Decision, fills: seq<Fill>, ttl: int) { exists f <- fills :: RestsOn(d, f, ttl) }

  ghost predicate RestsOnNothing(d: Decision, empties: seq<Empty>) {
    !d.cached && !d.granted && exists e <- empties :: FoundNothing(d, e)
  }

  ghost predicate Backed(d: Decision, fills: seq<Fill>, empties: seq<Empty>, ttl: int) {
    RestsOnAFill(d, fills, ttl) || RestsOnNothing(d, empties)
  }

  ghost predicate Inv(s: State, ttl: int) {
    && (forall c <- s.toFill :: SoundQuery(s.toFill[c]) && s.toFill[c].at <= s.clock && s.toFill[c].call == c)
    && (forall f <- s.fills :: SoundQuery(f.query) && f.query.at <= f.at <= s.clock)
    && (forall k <- s.cache :: FromFill(s.cache[k], k, s.fills, ttl))
    && (forall d <- s.decisions :: Backed(d, s.fills, s.empties, ttl))
  }

  lemma StillBacked(d: Decision, fills: seq<Fill>, empties: seq<Empty>, moreFills: seq<Fill>, moreEmpties: seq<Empty>,
                    ttl: int)
    requires Backed(d, fills, empties, ttl) && fills <= moreFills && empties <= moreEmpties
    ensures Backed(d, moreFills, moreEmpties, ttl)
  {
    if RestsOnAFill(d, fills, ttl) {
      var g :| g in fills && RestsOn(d, g, ttl);
      assert g in moreFills;
    } else {
      var e :| e in empties && FoundNothing(d, e);
      assert e in moreEmpties;
    }
  }

  lemma QueryKeepsInv(s: State, call: nat, now: int, ttl: int)
    requires Inv(s, ttl) && s.clock == now && call in s.missed
    ensures Inv(Queried(s, call, now), ttl)
  {
    var t := Queried(s, call, now);
    BestRow(s.rows, s.missed[call], now);
    forall d | d in t.decisions ensures Backed(d, t.fills, t.empties, ttl) {
      if d in s.decisions {
        StillBacked(d, s.fills, s.empties, t.fills, t.empties, ttl);
      } else {
        var e := Empty(call, s.missed[call], now, s.rows);
        assert e in t.empties && FoundNothing(d, e);
      }
    }
  }

  lemma CheckKeepsInv(s: State, call: nat, k: Key, now: int, ttl: int)
    requires Inv(s, ttl) && s.clock == now
    ensures Inv(Checked(s, call, k, now), ttl)
  {
    if Hit(s, k, now) {
      var f :| f in s.fills && f.query.key == k && s.cache[k] == Entry(PayloadOf(f.query.sub), f.at + ttl);
      var p := s.cache[k].payload;
      assert RestsOn(Decision(call, k, now, Grants(p.account, p.expiresAt, now), true), f, ttl);
    }
  }

  lemma FillKeepsInv(s: State, call: nat, now: int, ttl: int)
    requires Inv(s, ttl) && s.clock == now && call in s.toFill
    ensures Inv(Filled(s, call, now, ttl), ttl)
  {
    var q, t := s.toFill[call], Filled(s, call, now, ttl);
    var f := Fill(q, now);
    assert f in t.fills;
    forall k | k in t.cache ensures FromFill(t.cache[k], k, t.fills, ttl) {
      if k != q.key {
        var g :| g in s.fills && g.query.key == k && s.cache[k] == Entry(PayloadOf(g.query.sub), g.at + ttl);
        assert g in t.fills;
      }
    }
    forall d | d in t.decisions ensures Backed(d, t.fills, t.empties, ttl) {
      if d in s.decisions {
        StillBacked(d, s.fills, s.empties, t.fills, t.empties, ttl);
      } else {
        assert RestsOn(d, f, ttl);
      }
    }
  }

  lemma StepKeepsInv(s: State, e: Event, ttl: int)
    requires Inv(s, ttl) && s.clock <= e.now
    ensures Inv(Step(s, e, ttl), ttl)
  {
    var s' := s.(clock := e.now);
    match e
    case SetRows(rows, now) =>
    case Invalidate(key, now) =>
    case Check(call, key, now) => CheckKeepsInv(s', call, key, now, ttl);
    case DbRead(call, now) => if call in s.missed { QueryKeepsInv(s', call, now, ttl); }
    case CacheFill(call, now) => if call in s.toFill { FillKeepsInv(s', call, now, ttl); }
  }

  lemma {:induction false} RunKeepsInv(start: int, events: seq<Event>, ttl: int)
    requires TimesOrdered(start, events)
    ensures Inv(Run(start, events, ttl), ttl)
    ensures Run(start, events, ttl).clock == if events == [] then start else events[|events| - 1].now
  {
    if events != [] {
      RunKeepsInv(start, events[..|events| - 1], ttl);
      StepKeepsInv(Run(start, events[..|events| - 1], ttl), events[|events| - 1], ttl);
    }
  }

  /**
    Bounded staleness: behind every grant is a database read of the best eligible row for that user
    and level, put into the cache by this request or less than one TTL ago, and unexpired now.
   */
  lemma {:induction false} GrantsAreBacked(start: int, events: seq<Event>, ttl: int, d: Decision) returns (f: Fill)
    requires TimesOrdered(start, events) && d in Run(start, events, ttl).decisions && d.granted && ttl > 0
    ensures f in Run(start, events, ttl).fills && SoundQuery(f.query) && f.query.key == d.key
    ensures f.query.at <= f.at <= d.at < f.at + ttl
    ensures var sub := f.query.sub;
            sub.account in {Plus, Pro} && (sub.expiresAt == None || d.at < sub.expiresAt.value)
  {
    RunKeepsInv(start, events, ttl);
    assert Backed(d, Run(start, events, ttl).fills, Run(start, events, ttl).empties, ttl);
    f :| f in Run(start, events, ttl).fills && RestsOn(d, f, ttl);
  }

  /**
    And the other way round: a decision that rests on a fill grants exactly if some row of the highest account that
    counted at the fill's read is Plus or Pro and still unexpired.
   */
  lemma {:induction false} DecidedByTheHighestAccount(start: int, events: seq<Event>, ttl: int, d: Decision)
    returns (f: Fill)
    requires TimesOrdered(start, events) && d in Run(start, events, ttl).decisions && (d.cached || d.granted)
    ensures f in Run(start, events, ttl).fills && RestsOn(d, f, ttl)
    ensures var (q, best) := (f.query, f.query.sub);
            d.granted <==> exists s <- q.rows :: Counts(s, q.key, q.at) && s.account == best.account != Free
                                                 && (s.expiresAt == None || d.at < s.expiresAt.value)
  {
    RunKeepsInv(start, events, ttl);
    assert Backed(d, Run(start, events, ttl).fills, Run(start, events, ttl).empties, ttl);
    f :| f in Run(start, events, ttl).fills && RestsOn(d, f, ttl);
    BestGrantsIff(f.query.sub, f.query.rows, f.query.key, f.query.at, d.at);
  }

  /**
    A refusal out of the cache means the cached best row is Free or lapsed since it was read, for less than one TTL.
   */
  lemma {:induction false} CachedRefusalsAreBrief(start: int, events: seq<Event>, ttl: int, d: Decision)
    returns (f: Fill)
    requires TimesOrdered(start, events) && d in Run(start, events, ttl).decisions && !d.granted && d.cached
    ensures f in Run(start, events, ttl).fills && SoundQuery(f.query) && f.query.key == d.key
            && f.at <= d.at < f.at + ttl
    ensures var sub := f.query.sub;
            sub.account.Free? || (sub.expiresAt.Some? && f.query.at < sub.expiresAt.value <= d.at)
  {
    RunKeepsInv(start, events, ttl);
    assert Backed(d, Run(start, events, ttl).fills, Run(start, events, ttl).empties, ttl);
    f :| f in Run(start, events, ttl).fills && RestsOn(d, f, ttl);
  }

  /** The row does not grant at this time, although it was eligible when read: it is Free, or it has lapsed since. */
  predicate FreeOrLapsed(q: Query, now: int) {
    q.sub.account.Free? || (q.sub.expiresAt.Some? && q.at < q.sub.expiresAt.value <= now)
  }

  /**
    A request not served from the cache is refused only if no row was eligible when it read the database, or the best
    one was Free, so that nothing better was eligible, or lapsed before the answer; and granted only if it was neither.
   */
  lemma {:induction false} UncachedDecisionsAreTheirOwn(start: int, events: seq<Event>, ttl: int, d: Decision)
    requires TimesOrdered(start, events) && d in Run(start, events, ttl).decisions && !d.cached
    ensures !d.granted ==>
              || (exists e <- Run(start, events, ttl).empties :: FoundNothing(d, e))
              || (exists f <- Run(start, events, ttl).fills :: RestsOn(d, f, ttl) && FreeOrLapsed(f.query, d.at))
    ensures d.granted ==>
              exists f <- Run(start, events, ttl).fills :: RestsOn(d, f, ttl) && !FreeOrLapsed(f.query, d.at)
  {
    RunKeepsInv(start, events, ttl);
    var s := Run(start, events, ttl);
    assert Backed(d, s.fills, s.empties, ttl);
    if RestsOnAFill(d, s.fills, ttl) {
      var f :| f in s.fills && RestsOn(d, f, ttl);
      assert d.granted <==> !FreeOrLapsed(f.query, d.at);
    }
  }

  /** If the best row is Free, so is every eligible one. */
  lemma FreeMeansNothingBetter(q: Query, s: Sub)
    requires SoundQuery(q) && q.sub.account.Free? && s in q.rows && Counts(s, q.key, q.at)
    ensures s.account.Free?
  {
  }

  /** The row grants for as long as the entry made from it can live. */
  predicate Outlasts(s: Sub, until: int) { !s.account.Free? && (s.expiresAt.None? || s.expiresAt.value >= until) }

  /** A check at this time is served from the cache and granted. */
  predicate GrantedFromCache(s: State, k: Key, now: int) {
    Hit(s, k, now) && Grants(s.cache[k].payload.account, s.cache[k].payload.expiresAt, now)
  }

  /**
    For every run: a cached entry never refuses in the rest of its life exactly if the row it was filled from was not
    Free and, at the fill, had no expiry before the entry's own. Whatever other rows the user has does not matter.
   */
  lemma {:induction false} EntryNeverRefusesIff(start: int, events: seq<Event>, ttl: int, k: Key) returns (f: Fill)
    requires TimesOrdered(start, events) && k in Run(start, events, ttl).cache
    requires Run(start, events, ttl).clock < Run(start, events, ttl).cache[k].until
    ensures f in Run(start, events, ttl).fills && SoundQuery(f.query) && f.query.key == k
    ensures Run(start, events, ttl).cache[k] == Entry(PayloadOf(f.query.sub), f.at + ttl)
    ensures var s := Run(start, events, ttl);
            (forall now | s.clock <= now < f.at + ttl :: GrantedFromCache(s, k, now)) <==>
              Outlasts(f.query.sub, f.at + ttl)
  {
    RunKeepsInv(start, events, ttl);
    var s := Run(start, events, ttl);
    f :| f in s.fills && f.query.key == k && s.cache[k] == Entry(PayloadOf(f.query.sub), f.at + ttl);
    if !Outlasts(f.query.sub, f.at + ttl) {
      var sub := f.query.sub;
      var now := if sub.account.Free? || sub.expiresAt.value < s.clock then s.clock else sub.expiresAt.value;
      assert !GrantedFromCache(s, k, now);
    }
  }

  /** And a check in its life is answered so, one way or the other. */
  lemma {:induction false} CheckedInItsLife(start: int, events: seq<Event>, ttl: int, call: nat, k: Key, now: int)
    requires Hit(Run(start, events, ttl), k, now)
    ensures var s := Run(start, events + [Check(call, k, now)], ttl);
            s.decisions != [] && s.decisions[|s.decisions| - 1] ==
                                 Decision(call, k, now, GrantedFromCache(Run(start, events, ttl), k, now), true)
  {
    Appended(start, events, Check(call, k, now), ttl);
  }

  lemma {:induction false} Appended(start: int, events: seq<Event>, e: Event, ttl: int)
    ensures Run(start, events + [e], ttl) == Step(Run(start, events, ttl), e, ttl)
    ensures TimesOrdered(start, events + [e]) <==>
            TimesOrdered(start, events) && (if events == [] then start else events[|events| - 1].now) <= e.now
  {
    assert (events + [e])[..|events|] == events;
  }

  function LifetimePlus(k: Key): Sub { Sub(1, k.user, k.level, Plus, Active, None) }
  function ShortPro(k: Key): Sub { Sub(2, k.user, k.level, Pro, Active, Some(30)) }

  lemma LifetimeRowAlwaysGrants(k: Key, now: int)
    ensures Counts(LifetimePlus(k), k, now) && Outlasts(LifetimePlus(k), now)
  {
  }

  function TwoRows(k: Key): seq<Sub> { [LifetimePlus(k), ShortPro(k)] }

  function Missing(k: Key): seq<Event> { [SetRows(TwoRows(k), 0)] + [Check(0, k, 0)] }

  function Warming(k: Key): seq<Event> { Missing(k) + [DbRead(0, 0)] + [CacheFill(0, 0)] }

  lemma MissingMisses(k: Key)
    ensures TimesOrdered(0, Missing(k))
    ensures Run(0, Missing(k), 60) == State(TwoRows(k), map[], 0, map[0 := k], map[], [], [], [])
  {
    Appended(0, [], SetRows(TwoRows(k), 0), 60);
    assert [] + [SetRows(TwoRows(k), 0)] == [SetRows(TwoRows(k), 0)];
    Appended(0, [SetRows(TwoRows(k), 0)], Check(0, k, 0), 60);
  }

  lemma BestOfTwo(k: Key)
    ensures Best(TwoRows(k), k, 0) == Some(ShortPro(k))
  {
    assert TwoRows(k)[1] == ShortPro(k);
  }

  /** The Pro row is cached, by a request that it grants. */
  lemma WarmingWarms(k: Key)
    ensures var q := Query(0, k, 0, TwoRows(k), ShortPro(k));
            Run(0, Warming(k), 60) == State(TwoRows(k), map[k := Entry(PayloadOf(ShortPro(k)), 60)], 0, map[], map[],
                                            [Fill(q, 0)], [], [Decision(0, k, 0, true, false)])
    ensures TimesOrdered(0, Warming(k))
  {
    MissingMisses(k);
    BestOfTwo(k);
    Appended(0, Missing(k), DbRead(0, 0), 60);
    Appended(0, Missing(k) + [DbRead(0, 0)], CacheFill(0, 0), 60);
  }

  /**
    Such a refusal can hit a paying user: while a Pro row shadows a lifetime Plus row in the cache,
    the lapse of the Pro row refuses requests although the Plus row is eligible throughout.
   */
  lemma LapsedBestRowShadowsLifetimeRow(k: Key)
    ensures var s := Run(0, Warming(k) + [Check(1, k, 30)], 60);
            LifetimePlus(k) in s.rows && Decision(1, k, 30, false, true) in s.decisions
    ensures forall now :: Counts(LifetimePlus(k), k, now) && Outlasts(LifetimePlus(k), now)
    ensures TimesOrdered(0, Warming(k) + [Check(1, k, 30)])
  {
    WarmingWarms(k);
    Appended(0, Warming(k), Check(1, k, 30), 60);
    assert TwoRows(k)[0] in TwoRows(k);
    forall now ensures Counts(LifetimePlus(k), k, now) && Outlasts(LifetimePlus(k), now) {
      LifetimeRowAlwaysGrants(k, now);
    }
  }

  // ----- One request on its own ---------------------------------------------------------------------

  /** What a cached payload answers at this time. */
  ghost predicate Pays(p: Payload, now: int) {
    p.account in {Plus, Pro} && (p.expiresAt == None || now < p.expiresAt.value)
  }

  /**
    The three steps of a request with nothing in between come to one decision: a live entry decides alone, and
    without one the request is granted exactly if some row that counts is Plus or Pro, and caches the best row.
   */
  lemma UninterruptedRequest(s: State, call: nat, k: Key, now: int, ttl: int)
    requires call !in s.missed && call !in s.toFill
    ensures var t := Step(Step(Step(s, Check(call, k, now), ttl), DbRead(call, now), ttl), CacheFill(call, now), ttl);
            var hit := k in s.cache && now < s.cache[k].until;
            var granted := if hit then Pays(s.cache[k].payload, now)
                           else exists r <- s.rows :: Counts(r, k, now) && r.account in {Plus, Pro};
            && t.decisions == s.decisions + [Decision(call, k, now, granted, hit)]
            && call !in t.missed && call !in t.toFill && t.rows == s.rows && t.clock == now
            && (hit || Best(s.rows, k, now) == None ==> t.cache == s.cache)
            && (!hit && Best(s.rows, k, now) != None ==>
                  t.cache == s.cache[k := Entry(PayloadOf(Best(s.rows, k, now).value), now + ttl)])
  {
    GrantedAtOnceIff(s.rows, k, now);
  }

  /** After an invalidation the next request of the user and level is decided by the database; other entries stay. */
  lemma InvalidatedRequest(s: State, call: nat, k: Key, at: int, now: int, ttl: int)
    requires call !in s.missed && call !in s.toFill
    ensures var u := Step(s, Invalidate(k, at), ttl);
            var t := Step(Step(Step(u, Check(call, k, now), ttl), DbRead(call, now), ttl), CacheFill(call, now), ttl);
            var granted := exists r <- s.rows :: Counts(r, k, now) && r.account in {Plus, Pro};
            && t.decisions == s.decisions + [Decision(call, k, now, granted, false)] && t.rows == s.rows
            && forall j | j != k :: (j in u.cache <==> j in s.cache) && (j in u.cache ==> u.cache[j] == s.cache[j])
  {
    UninterruptedRequest(Step(s, Invalidate(k, at), ttl), call, k, now, ttl);
  }

  // ----- The guard ------------------------------------------------------------------------------

  datatype Result = Granted | AuthenticationRequired | OnboardingRequired | SubscriptionRequired

  class Guard {
    var rows: seq<Sub>
    var cache: map<Key, Entry>
    const ttl: int

    constructor (ttl: int)
      ensures this.ttl == ttl && rows == [] && cache == map[]
    {
      this.ttl := ttl;
      rows, cache := [], map[];
    }

    /** A request served without interruption; `required` is the route's decoration. */
    method CanActivate(required: bool, user: Option<string>, examType: Option<string>, now: int) returns (r: Result)
      modifies this`cache
      ensures !required ==> r.Granted?
      ensures required && user.None? ==> r.AuthenticationRequired?
      ensures required && user.Some? && examType.None? ==> r.OnboardingRequired?
      ensures !(required && user.Some? && examType.Some?) ==> cache == old(cache)
      ensures required && user.Some? && examType.Some? ==>
                var k := Key(user.value, examType.value);
                var hit := k in old(cache) && now < old(cache)[k].until;
                var best := Best(rows, k, now);
                var row := if hit then Some(old(cache)[k].payload)
                           else if best.Some? then Some(PayloadOf(best.value)) else None;
                && (r.Granted? <==> row.Some? && Grants(row.value.account, row.value.expiresAt, now))
                && (r.Granted? || r.SubscriptionRequired?)
                && (!hit ==> (r.Granted? <==> exists s <- rows :: Counts(s, k, now) && s.account in {Plus, Pro}))
                && (hit ==> (r.Granted? <==> Pays(old(cache)[k].payload, now)))
                && cache == if hit || best.None? then old(cache)
                            else old(cache)[k := Entry(PayloadOf(best.value), now + ttl)]
    {
      if !required { return Granted; }
      if user.None? { return AuthenticationRequired; }
      if examType.None? { return OnboardingRequired; }
      var k := Key(user.value, examType.value);
      if k in cache && now < cache[k].until {
        var cached := cache[k].payload;
        return if Grants(cached.account, cached.expiresAt, now) then Granted else SubscriptionRequired;
      }
      var sub := Best(rows, k, now);
      GrantedAtOnceIff(rows, k, now);
      if sub.None? { return SubscriptionRequired; }
      cache := cache[k := Entry(PayloadOf(sub.value), now + ttl)];
      r := if Grants(sub.value.account, sub.value.expiresAt, now) then Granted else SubscriptionRequired;
    }
  }
}
