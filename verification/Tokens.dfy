/**
  Refresh tokens: one session row per user holds the current refresh id and, for 60 s, the one it
  replaced; the bound device is cached for the access-token check. A rotation reads and upserts the row
  in one step; every other statement is a step of its own, so the cache writes of logins, rotations,
  logouts and checks interleave with other calls. A token names its user, so one account is considered
  at a time.
 */
module Tokens {
  import opened Wrappers

  const GRACE_SECONDS := 60
  const REWARM_TTL := 900

  datatype Grace = Grace(jti: string, until: int)

  datatype Session = Session(device: string, current: string, previous: Option<Grace>)

  /** The cache entry. */
  datatype Entry = Entry(device: string, until: int)

  /** The entry as written at `at`, by the event `written`; its device was taken from the row after `origin` events. */
  datatype Cached = Cached(entry: Entry, at: int, origin: nat, written: nat)

  /** What was issued, in order. */
  datatype Issue = Issue(jti: string, device: string, at: int)

  /** An accepted refresh: under which of the two ids, and how much had been issued by then. */
  datatype Acceptance = Acceptance(jti: string, asPrevious: bool, at: int, issuedBefore: nat)

  /** A call between two of its statements. */
  datatype Pending = ToSet(device: string, origin: nat) | ToDrop | Missed | ToFill(device: string, origin: nat)

  /** `issued`, `life` (where the present session's issues begin), `accepted` and `steps` are history. */
  datatype Account = Account(session: Option<Session>, cached: Option<Cached>, clock: int, pending: map<nat, Pending>,
                             issued: seq<Issue>, life: nat, accepted: seq<Acceptance>, steps: nat)

  datatype Event =
    | Upsert(call: nat, device: string, minted: string, now: int)
    | Rotate(call: nat, jti: string, active: bool, minted: string, now: int)
    | SetCache(call: nat, now: int)
    | DeleteRow(call: nat, now: int)
    | DropCache(call: nat, now: int)
    | ReadCache(call: nat, now: int)
    | ReadRow(call: nat, now: int)
    | Fill(call: nat, now: int)

  // ----- The statements ----------------------------------------------------------------------

  predicate MatchesCurrent(s: Session, jti: string) { s.current == jti }

  predicate WithinGrace(s: Session, jti: string, now: int) {
    s.previous.Some? && s.previous.value.jti == jti && s.previous.value.until > now
  }

  predicate Accepts(session: Option<Session>, jti: string, now: int) {
    session.Some? && (MatchesCurrent(session.value, jti) || WithinGrace(session.value, jti, now))
  }

  /** The upsert: on conflict the row's own current id moves into the grace slot. */
  function Upserted(session: Option<Session>, device: string, minted: string, now: int): Session {
    Session(device, minted, if session.None? then None else Some(Grace(session.value.current, now + GRACE_SECONDS)))
  }

  function Issued(a: Account, call: nat, device: string, minted: string, now: int): Account {
    a.(session := Some(Upserted(a.session, device, minted, now)), issued := a.issued + [Issue(minted, device, now)],
       pending := a.pending[call := ToSet(device, a.steps + 1)])
  }

  /** An entry with an empty device counts as no entry. */
  predicate Live(entry: Entry, now: int) { entry.until > now && |entry.device| > 0 }

  predicate Hit(a: Account, now: int) { a.cached.Some? && Live(a.cached.value.entry, now) }

  function RowDevice(a: Account): Option<string> { if a.session.Some? then Some(a.session.value.device) else None }

  /** The device the access-token check goes by: the live cached one, else the row's. */
  function BoundDevice(a: Account, now: int): Option<string> {
    if Hit(a, now) then Some(a.cached.value.entry.device) else RowDevice(a)
  }

  function Finished(a: Account, call: nat): Account { a.(pending := a.pending - {call}) }

  function Written(a: Account, device: string, now: int, ttl: int, origin: nat): Account {
    a.(cached := Some(Cached(Entry(device, now + ttl), now, origin, a.steps)))
  }

  function After(a: Account, e: Event, accessTtl: int): Account {
    match e
    case Upsert(call, device, minted, now) => Issued(a, call, device, minted, now)
    case Rotate(call, jti, active, minted, now) =>
      if Accepts(a.session, jti, now) && active then
        var logged := Acceptance(jti, !MatchesCurrent(a.session.value, jti), now, |a.issued|);
        Issued(a, call, a.session.value.device, minted, now).(accepted := a.accepted + [logged])
      else a
    case SetCache(call, now) =>
      if call in a.pending && a.pending[call].ToSet? then
        Written(Finished(a, call), a.pending[call].device, now, accessTtl, a.pending[call].origin)
      else a
    case DeleteRow(call, now) => a.(session := None, life := |a.issued|, pending := a.pending[call := ToDrop])
    case DropCache(call, now) =>
      if call in a.pending && a.pending[call].ToDrop? then Finished(a, call).(cached := None) else a
    case ReadCache(call, now) => if Hit(a, now) then a else a.(pending := a.pending[call := Missed])
    case ReadRow(call, now) =>
      if !(call in a.pending && a.pending[call].Missed?) then a
      else if a.session.None? then Finished(a, call)
      else a.(pending := a.pending[call := ToFill(a.session.value.device, a.steps + 1)])
    case Fill(call, now) =>
      if call in a.pending && a.pending[call].ToFill? then
        Written(Finished(a, call), a.pending[call].device, now, REWARM_TTL, a.pending[call].origin)
      else a
  }

  function Step(a: Account, e: Event, accessTtl: int): Account {
    After(a, e, accessTtl).(clock := e.now, steps := a.steps + 1)
  }

  predicate Starts(e: Event) { e.Upsert? || e.Rotate? || e.DeleteRow? || e.ReadCache? }

  /** Ids are random and never repeat; a call in progress is not begun again; time does not run backwards. */
  ghost predicate Allowed(a: Account, e: Event) {
    && a.clock <= e.now
    && (Starts(e) ==> e.call !in a.pending)
    && (e.Upsert? || e.Rotate? ==> forall i <- a.issued :: i.jti != e.minted)
  }

  function Run(start: int, events: seq<Event>, accessTtl: int): Account {
    if events == [] then Account(None, None, start, map[], [], 0, [], 0)
    else Step(Run(start, events[..|events| - 1], accessTtl), events[|events| - 1], accessTtl)
  }

  ghost predicate AllAllowed(start: int, events: seq<Event>, accessTtl: int) {
    events == [] ||
    (AllAllowed(start, events[..|events| - 1], accessTtl) &&
     Allowed(Run(start, events[..|events| - 1], accessTtl), events[|events| - 1]))
  }

  // ----- The row against the history ---------------------------------------------

  ghost predicate Distinct(issued: seq<Issue>) {
    forall i, j | 0 <= i < j < |issued| :: issued[i].jti != issued[j].jti
  }

  predicate RowMatches(session: Option<Session>, issued: seq<Issue>, life: nat) {
    && life <= |issued|
    && (session.Some? <==> life < |issued|)
    && (session.Some? ==>
        var last := |issued| - 1;
        && session.value.device == issued[last].device
        && session.value.current == issued[last].jti
        && session.value.previous ==
           (if last == life then None else Some(Grace(issued[last - 1].jti, issued[last].at + GRACE_SECONDS))))
  }

  /** The k-th issue is the latest of the present session, or the one before it within its grace. */
  predicate Usable(a: Account, k: nat, now: int) {
    && a.life <= k < |a.issued|
    && (k == |a.issued| - 1 || (k == |a.issued| - 2 && now < a.issued[k + 1].at + 60))
  }

  predicate UsableAs(a: Account, k: nat, jti: string, now: int) { Usable(a, k, now) && a.issued[k].jti == jti }

  /** An acceptance names the last issue before it, or the one before that, replaced less than 60 s ago. */
  predicate SoundAcceptance(c: Acceptance, issued: seq<Issue>) {
    var back := if c.asPrevious then 2 else 1;
    && back <= c.issuedBefore < |issued|
    && c.jti == issued[c.issuedBefore - back].jti
    && issued[c.issuedBefore].at == c.at
    && (c.asPrevious ==> c.at < issued[c.issuedBefore - 1].at + 60)
    // the pair issued in exchange stays on the session's device
    && issued[c.issuedBefore].device == issued[c.issuedBefore - 1].device
  }

  ghost predicate Inv(a: Account) {
    && Distinct(a.issued)
    && RowMatches(a.session, a.issued, a.life)
    && (forall c <- a.accepted :: SoundAcceptance(c, a.issued))
    && (forall i, j | 0 <= i < j < |a.accepted| :: a.accepted[i].issuedBefore < a.accepted[j].issuedBefore)
  }

  lemma IssueKeepsInv(a: Account, call: nat, device: string, minted: string, now: int)
    requires Inv(a) && forall i <- a.issued :: i.jti != minted
    ensures Inv(Issued(a, call, device, minted, now))
  {
    var b := Issued(a, call, device, minted, now);
    forall c | c in b.accepted ensures SoundAcceptance(c, b.issued) { assert SoundAcceptance(c, a.issued); }
  }

  lemma RotateKeepsInv(a: Account, call: nat, jti: string, minted: string, now: int, accessTtl: int)
    requires Inv(a) && Accepts(a.session, jti, now) && forall i <- a.issued :: i.jti != minted
    ensures Inv(Step(a, Rotate(call, jti, true, minted, now), accessTtl))
  {
    var b := Step(a, Rotate(call, jti, true, minted, now), accessTtl);
    var logged := Acceptance(jti, !MatchesCurrent(a.session.value, jti), now, |a.issued|);
    IssueKeepsInv(a, call, a.session.value.device, minted, now);
    assert b.accepted == a.accepted + [logged];
    assert SoundAcceptance(logged, b.issued);
    forall c | c in a.accepted ensures SoundAcceptance(c, b.issued) && c.issuedBefore < |a.issued| {
      assert SoundAcceptance(c, a.issued);
    }
  }

  lemma StepKeepsInv(a: Account, e: Event, accessTtl: int)
    requires Inv(a) && Allowed(a, e)
    ensures Inv(Step(a, e, accessTtl))
  {
    if e.Upsert? {
      IssueKeepsInv(a, e.call, e.device, e.minted, e.now);
    } else if e.Rotate? && e.active && Accepts(a.session, e.jti, e.now) {
      RotateKeepsInv(a, e.call, e.jti, e.minted, e.now, accessTtl);
    }
  }

  lemma {:induction false} ReachableInv(start: int, events: seq<Event>, accessTtl: int)
    requires AllAllowed(start, events, accessTtl)
    ensures Inv(Run(start, events, accessTtl))
  {
    if events != [] {
      var before := events[..|events| - 1];
      ReachableInv(start, before, accessTtl);
      StepKeepsInv(Run(start, before, accessTtl), events[|events| - 1], accessTtl);
    }
  }

  // ----- What follows for every run ----------------------------------------------------------

  /** A refresh is accepted exactly for the newest id of the session, and for 60 s for the one it replaced. */
  lemma {:induction false} AcceptedIffUsable(start: int, events: seq<Event>, accessTtl: int, jti: string, now: int)
    requires AllAllowed(start, events, accessTtl)
    ensures var a := Run(start, events, accessTtl);
            Accepts(a.session, jti, now) <==> exists k: nat :: UsableAs(a, k, jti, now)
  {
    ReachableInv(start, events, accessTtl);
    AcceptsIffUsable(Run(start, events, accessTtl), jti, now);
  }

  lemma AcceptsIffUsable(a: Account, jti: string, now: int)
    requires Distinct(a.issued) && RowMatches(a.session, a.issued, a.life)
    ensures Accepts(a.session, jti, now) <==> exists k: nat :: UsableAs(a, k, jti, now)
  {
    if Accepts(a.session, jti, now) {
      var last := |a.issued| - 1;
      var k: nat := if MatchesCurrent(a.session.value, jti) then last else last - 1;
      assert UsableAs(a, k, jti, now);
    }
  }

  /**
    Each id is accepted at most once as the current one and at most once as the previous one, within 60 s of being
    replaced.
   */
  lemma {:induction false} EachIdIsAcceptedAtMostTwice(start: int, events: seq<Event>, accessTtl: int, i: nat, j: nat)
    requires AllAllowed(start, events, accessTtl)
    requires i < j < |Run(start, events, accessTtl).accepted|
    ensures var accepted := Run(start, events, accessTtl).accepted;
            accepted[i].jti == accepted[j].jti ==> !accepted[i].asPrevious && accepted[j].asPrevious
    ensures SoundAcceptance(Run(start, events, accessTtl).accepted[j], Run(start, events, accessTtl).issued)
  {
    ReachableInv(start, events, accessTtl);
    var a := Run(start, events, accessTtl);
    assert SoundAcceptance(a.accepted[i], a.issued) && SoundAcceptance(a.accepted[j], a.issued);
  }

  // ----- An id that is out stays out -----------------------------------------------------------

  /** Replaced twice, or issued before a logout. */
  predicate Spent(a: Account, k: nat) { k < |a.issued| && (k < a.life || k + 2 < |a.issued|) }

  lemma StepKeepsSpent(a: Account, e: Event, accessTtl: int, k: nat)
    requires Spent(a, k)
    ensures Spent(Step(a, e, accessTtl), k) && Step(a, e, accessTtl).issued[k] == a.issued[k]
  {
  }

  lemma {:induction false} SpentForGood(start: int, events: seq<Event>, later: seq<Event>, accessTtl: int, k: nat,
                                        now: int)
    requires AllAllowed(start, events + later, accessTtl)
    requires Spent(Run(start, events, accessTtl), k)
    ensures var jti := Run(start, events, accessTtl).issued[k].jti;
            !Accepts(Run(start, events + later, accessTtl).session, jti, now)
  {
    KeepsSpent(start, events, later, accessTtl, k);
    ReachableInv(start, events + later, accessTtl);
    var a := Run(start, events + later, accessTtl);
    AcceptsIffUsable(a, a.issued[k].jti, now);
  }

  lemma {:induction false} KeepsSpent(start: int, events: seq<Event>, later: seq<Event>, accessTtl: int, k: nat)
    requires Spent(Run(start, events, accessTtl), k)
    ensures Spent(Run(start, events + later, accessTtl), k)
    ensures Run(start, events + later, accessTtl).issued[k] == Run(start, events, accessTtl).issued[k]
  {
    if later == [] {
      assert events + later == events;
    } else {
      var before := later[..|later| - 1];
      KeepsSpent(start, events, before, accessTtl, k);
      assert (events + later)[..|events + later| - 1] == events + before;
      StepKeepsSpent(Run(start, events + before, accessTtl), later[|later| - 1], accessTtl, k);
    }
  }

  // ----- Calls on their own ------------------------------------------------------------------------

  /** The account after these events. */
  function Then(a: Account, events: seq<Event>, accessTtl: int): Account
    decreases |events|
  {
    if events == [] then a else Then(Step(a, events[0], accessTtl), events[1..], accessTtl)
  }

  lemma ThenTwo(a: Account, e: Event, f: Event, accessTtl: int)
    ensures Then(a, [e, f], accessTtl) == Step(Step(a, e, accessTtl), f, accessTtl)
  {
    assert [e, f][1..] == [f] && [f][1..] == [];
    assert Then(a, [e, f], accessTtl) == Then(Step(a, e, accessTtl), [f], accessTtl);
  }

  lemma ThenThree(a: Account, e: Event, f: Event, g: Event, accessTtl: int)
    ensures Then(a, [e, f, g], accessTtl) == Step(Step(Step(a, e, accessTtl), f, accessTtl), g, accessTtl)
  {
    assert [e, f, g][1..] == [f, g];
    ThenTwo(Step(a, e, accessTtl), f, g, accessTtl);
  }

  /** The row has moved on to a new id of this device, and keeps the old one for 60 s. */
  ghost predicate MovedOn(a: Account, b: Account, device: string, minted: string, now: int, accessTtl: int) {
    && b.session == Some(Session(device, minted,
                                 if a.session.None? then None else Some(Grace(a.session.value.current, now + 60))))
    && b.cached.Some? && b.cached.value.entry == Entry(device, now + accessTtl)
    && b.issued == a.issued + [Issue(minted, device, now)]
  }

  /** A login binds its device in the row and in the cache. */
  lemma UninterruptedLogin(a: Account, call: nat, device: string, minted: string, now: int, accessTtl: int)
    requires call !in a.pending
    ensures var b := Then(a, [Upsert(call, device, minted, now), SetCache(call, now)], accessTtl);
            && MovedOn(a, b, device, minted, now, accessTtl)
            && b.accepted == a.accepted && b.life == a.life && b.pending == a.pending && b.clock == now
  {
    ThenTwo(a, Upsert(call, device, minted, now), SetCache(call, now), accessTtl);
  }

  /**
    A refresh of an active user issues a pair on the session's device for the current id, or the last one in its
    grace.
   */
  lemma UninterruptedRefresh(a: Account, call: nat, jti: string, active: bool, minted: string, now: int, accessTtl: int)
    requires call !in a.pending
    ensures var b := Then(a, [Rotate(call, jti, active, minted, now), SetCache(call, now)], accessTtl);
            var current := a.session.Some? && a.session.value.current == jti;
            var last := a.session.Some? && a.session.value.previous.Some? && a.session.value.previous.value.jti == jti
                        && now < a.session.value.previous.value.until;
            && ((current || last) && active ==>
                  && MovedOn(a, b, a.session.value.device, minted, now, accessTtl)
                  && b.accepted == a.accepted + [Acceptance(jti, !current, now, |a.issued|)])
            && (!((current || last) && active) ==>
                  b.session == a.session && b.cached == a.cached && b.issued == a.issued && b.accepted == a.accepted)
            && b.life == a.life && b.pending == a.pending && b.clock == now
  {
    ThenTwo(a, Rotate(call, jti, active, minted, now), SetCache(call, now), accessTtl);
  }

  /** A logout leaves neither row nor cached device. */
  lemma UninterruptedLogout(a: Account, call: nat, now: int, accessTtl: int)
    requires call !in a.pending
    ensures var b := Then(a, [DeleteRow(call, now), DropCache(call, now)], accessTtl);
            && b.session == None && b.cached == None && b.life == |a.issued| && b.pending == a.pending
            && b.issued == a.issued && b.accepted == a.accepted && b.clock == now
  {
    ThenTwo(a, DeleteRow(call, now), DropCache(call, now), accessTtl);
  }

  /** A check goes by a live cached device; without one it goes by the row, and caches the row's device for 900 s. */
  lemma UninterruptedCheck(a: Account, call: nat, now: int, accessTtl: int)
    requires call !in a.pending
    ensures var b := Then(a, [ReadCache(call, now), ReadRow(call, now), Fill(call, now)], accessTtl);
            var hit := a.cached.Some? && now < a.cached.value.entry.until && a.cached.value.entry.device != "";
            && BoundDevice(a, now) == (if hit then Some(a.cached.value.entry.device)
                                       else if a.session.Some? then Some(a.session.value.device) else None)
            && (hit || a.session.None? ==> b.cached == a.cached)
            && (!hit && a.session.Some? ==>
                  b.cached.Some? && b.cached.value.entry == Entry(a.session.value.device, now + 900))
            && b.session == a.session && b.pending == a.pending && b.issued == a.issued && b.accepted == a.accepted
  {
    ThenThree(a, ReadCache(call, now), ReadRow(call, now), Fill(call, now), accessTtl);
  }

  /** A call goes on only from where it stands: a later statement without the ones before it does nothing. */
  lemma NothingOutOfTurn(a: Account, call: nat, now: int, accessTtl: int)
    ensures (call in a.pending ==> !a.pending[call].ToSet?) ==> After(a, SetCache(call, now), accessTtl) == a
    ensures (call in a.pending ==> !a.pending[call].ToDrop?) ==> After(a, DropCache(call, now), accessTtl) == a
    ensures (call in a.pending ==> !a.pending[call].Missed?) ==> After(a, ReadRow(call, now), accessTtl) == a
    ensures (call in a.pending ==> !a.pending[call].ToFill?) ==> After(a, Fill(call, now), accessTtl) == a
  {
  }

  // ----- The service -----------------------------------------------------------------------------

  datatype Rotated = Pair(refreshJti: string) | InvalidToken | DeviceKicked | UserInactive

  class TokensService {
    var sessions: map<string, Session>
    var activeDevice: map<string, Entry>
    const accessTtl: int

    constructor (accessTtl: int)
      ensures sessions == map[] && activeDevice == map[] && this.accessTtl == accessTtl
    {
      sessions, activeDevice := map[], map[];
      this.accessTtl := accessTtl;
    }

    function SessionOf(user: string): Option<Session> reads this {
      if user in sessions then Some(sessions[user]) else None
    }

    /** The upsert and the cache write of one user; other users are untouched. */
    method IssuePair(user: string, device: string, minted: string, now: int)
      modifies this
      ensures var previous := if user in old(sessions) then Some(Grace(old(sessions)[user].current, now + 60))
                              else None;
              sessions == old(sessions)[user := Session(device, minted, previous)]
      ensures activeDevice == old(activeDevice)[user := Entry(device, now + accessTtl)]
    {
      if user in sessions {
        var row := sessions[user];
        sessions := sessions[user := Session(device, minted, Some(Grace(row.current, now + GRACE_SECONDS)))];
      } else {
        sessions := sessions[user := Session(device, minted, None)];
      }
      activeDevice := activeDevice[user := Entry(device, now + accessTtl)];
    }

    /** `verified` is the outcome of checking the token's signature and expiry, `active` the user row's flag. */
    method RotateToken(verified: bool, user: string, jti: string, active: bool, minted: string, now: int)
      returns (r: Rotated)
      modifies this
      ensures r.InvalidToken? <==> !verified
      ensures var (rows, row) := (old(sessions), old(SessionOf(user)));
              var accepted := user in rows &&
                              (rows[user].current == jti ||
                               (rows[user].previous.Some? && rows[user].previous.value.jti == jti
                                && now < rows[user].previous.value.until));
              && accepted == Accepts(row, jti, now)
              && (r.DeviceKicked? <==> verified && !accepted)
              && (r.UserInactive? <==> verified && accepted && !active)
              && (r.Pair? <==> verified && accepted && active)
      ensures !r.Pair? ==> sessions == old(sessions) && activeDevice == old(activeDevice)
      ensures r.Pair? ==> r.refreshJti == minted && user in old(sessions)
      ensures r.Pair? ==>
                var device := old(sessions)[user].device;
                && sessions == old(sessions)[user :=
                                 Session(device, minted, Some(Grace(old(sessions)[user].current, now + 60)))]
                && activeDevice == old(activeDevice)[user := Entry(device, now + accessTtl)]
    {
      if !verified { return InvalidToken; }
      if user !in sessions { return DeviceKicked; }
      var session := sessions[user];
      var matchesCurrent := session.current == jti;
      var withinGrace := session.previous.Some? && session.previous.value.jti == jti
                         && session.previous.value.until > now;
      if !matchesCurrent && !withinGrace { return DeviceKicked; }
      if !active { return UserInactive; }
      IssuePair(user, session.device, minted, now);
      r := Pair(minted);
    }

    method LogoutUser(user: string)
      modifies this
      ensures sessions == old(sessions) - {user} && activeDevice == old(activeDevice) - {user}
    {
      sessions := sessions - {user};
      activeDevice := activeDevice - {user};
    }

    /** The access-token strategy's check, with its cache fill. */
    method IsDeviceBindingValid(user: string, claimed: string, now: int) returns (ok: bool)
      modifies this`activeDevice
      ensures var cached := old(activeDevice);
              var live := user in cached && now < cached[user].until && cached[user].device != "";
              && (live ==> ok == (cached[user].device == claimed) && activeDevice == cached)
              && (!live ==> ok == (user in sessions && sessions[user].device == claimed))
              && (!live && user !in sessions ==> activeDevice == cached)
              && (!live && user in sessions ==>
                    activeDevice == cached[user := Entry(sessions[user].device, now + 900)])
    {
      if user in activeDevice && activeDevice[user].until > now && |activeDevice[user].device| > 0 {
        return activeDevice[user].device == claimed;
      }
      if user !in sessions { return false; }
      activeDevice := activeDevice[user := Entry(sessions[user].device, now + REWARM_TTL)];
      ok := sessions[user].device == claimed;
    }
  }
}
