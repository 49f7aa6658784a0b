/**
  Daily quotas: one upsert increments the counter and returns it; a caller over its cap is refused
  and later takes its increment back, clamped at zero. The two statements of a refused call are
  separate steps and may interleave with anything.
 */
module Quota {
  import opened Wrappers

  datatype Key = Key(user: string, service: string, day: int)

  /** `used` is the table; `pending` counts refused calls that have not compensated; `granted` is history. */
  datatype State = State(used: map<Key, int>, pending: map<Key, nat>, granted: map<Key, nat>)

  datatype Event = Consume(key: Key, cap: Option<int>) | Compensate(key: Key)

  function Used(s: State, k: Key): int { if k in s.used then s.used[k] else 0 }
  function Pending(s: State, k: Key): nat { if k in s.pending then s.pending[k] else 0 }
  function Granted(s: State, k: Key): nat { if k in s.granted then s.granted[k] else 0 }

  predicate Refuses(s: State, k: Key, cap: Option<int>) { cap.Some? && Used(s, k) + 1 > cap.value }

  function Step(s: State, e: Event): State {
    match e
    case Consume(k, cap) =>
      var counted := s.(used := s.used[k := Used(s, k) + 1]);
      if Refuses(s, k, cap) then counted.(pending := s.pending[k := Pending(s, k) + 1])
      else counted.(granted := s.granted[k := Granted(s, k) + 1])
    case Compensate(k) =>
      if Pending(s, k) == 0 then s
      else s.(used := s.used[k := if Used(s, k) - 1 > 0 then Used(s, k) - 1 else 0],
              pending := s.pending[k := Pending(s, k) - 1])
  }

  function Run(events: seq<Event>): State {
    if events == [] then State(map[], map[], map[]) else Step(Run(events[..|events| - 1]), events[|events| - 1])
  }

  // ----- For any caps, even changing ones ---------------------------------------------------

  /** The counter is always grants plus outstanding compensations, so the clamp at zero never bites. */
  lemma {:induction false} CounterBalances(events: seq<Event>, k: Key)
    ensures Used(Run(events), k) == Granted(Run(events), k) + Pending(Run(events), k)
  {
    if events != [] { CounterBalances(events[..|events| - 1], k); }
  }

  /** A compensation takes back exactly its own increment. */
  lemma {:induction false} CompensationUndoesIncrement(events: seq<Event>, k: Key, cap: Option<int>)
    requires Refuses(Run(events), k, cap)
    ensures var s := Run(events);
            var t := Step(Step(s, Consume(k, cap)), Compensate(k));
            forall j :: Used(t, j) == Used(s, j) && Pending(t, j) == Pending(s, j) && Granted(t, j) == Granted(s, j)
  {
    CounterBalances(events, k);
  }

  /** A granted call is never more than its own cap allows, whatever caps other calls were checked against. */
  lemma {:induction false} GrantsStayWithinCap(events: seq<Event>, k: Key, cap: int)
    requires !Refuses(Run(events), k, Some(cap))
    ensures Granted(Step(Run(events), Consume(k, Some(cap))), k) <= cap
  {
    CounterBalances(events, k);
  }

  /** For any caps: a call is refused below its cap exactly if outstanding compensations make up the difference. */
  lemma {:induction false} RefusedBelowCapIff(events: seq<Event>, k: Key, cap: int)
    ensures var s := Run(events);
            Refuses(s, k, Some(cap)) && Granted(s, k) < cap <==> Granted(s, k) < cap <= Granted(s, k) + Pending(s, k)
  {
    CounterBalances(events, k);
  }

  /** When caps change, an outstanding compensation can make a call be refused below its cap. */
  lemma RaisedCapMayStillRefuse(k: Key) returns (events: seq<Event>)
    ensures Granted(Run(events), k) == 1 && Refuses(Run(events), k, Some(2))
  {
    events := [];
    Appended(events, Consume(k, Some(1)));
    events := events + [Consume(k, Some(1))];
    Appended(events, Consume(k, Some(1)));
    events := events + [Consume(k, Some(1))];
  }

  lemma {:induction false} Appended(events: seq<Event>, e: Event)
    ensures Run(events + [e]) == Step(Run(events), e)
  {
    assert (events + [e])[..|events|] == events;
  }

  // ----- Under one cap per key -----------------------------------------------------------------

  ghost predicate FixedCaps(events: seq<Event>, k: Key, cap: Option<int>) {
    forall e <- events :: e.Consume? && e.key == k ==> e.cap == cap
  }

  function Ceiling(cap: int): nat { if cap > 0 then cap else 0 }

  /** Nobody is waiting to compensate unless the quota is used up. */
  lemma {:induction false} PendingOnlyAtCap(events: seq<Event>, k: Key, cap: int)
    requires FixedCaps(events, k, Some(cap))
    ensures Granted(Run(events), k) <= Ceiling(cap)
    ensures Pending(Run(events), k) > 0 ==> Granted(Run(events), k) == Ceiling(cap)
  {
    if events != [] {
      PendingOnlyAtCap(events[..|events| - 1], k, cap);
      CounterBalances(events[..|events| - 1], k);
    }
  }

  lemma {:induction false} UncappedNeverRefuses(events: seq<Event>, k: Key)
    requires FixedCaps(events, k, None)
    ensures Pending(Run(events), k) == 0
  {
    if events != [] { UncappedNeverRefuses(events[..|events| - 1], k); }
  }

  /** For every interleaving: a call is refused exactly when as many calls as the cap have been granted. */
  lemma {:induction false} RefusedIffCapReached(events: seq<Event>, k: Key, cap: int)
    requires FixedCaps(events, k, Some(cap))
    ensures Refuses(Run(events), k, Some(cap)) <==> Granted(Run(events), k) == Ceiling(cap)
    ensures Granted(Run(events), k) <= Ceiling(cap)
  {
    PendingOnlyAtCap(events, k, cap);
    CounterBalances(events, k);
  }

  function Remaining(used: int, cap: int): nat { Ceiling(cap - used) }

  /** The snapshot's `remaining` is the exact number of grants left, even while compensations are outstanding. */
  lemma {:induction false} RemainingIsExact(events: seq<Event>, k: Key, cap: int)
    requires FixedCaps(events, k, Some(cap))
    ensures Remaining(Used(Run(events), k), cap) == Ceiling(cap) - Granted(Run(events), k)
  {
    PendingOnlyAtCap(events, k, cap);
    CounterBalances(events, k);
  }

  /** The calls for the key. */
  function Calls(events: seq<Event>, k: Key): nat {
    if events == [] then 0
    else
      var e := events[|events| - 1];
      Calls(events[..|events| - 1], k) + if e.Consume? && e.key == k then 1 else 0
  }

  /** Of the later calls that many are granted, and no more, however compensations and other calls interleave. */
  lemma {:induction false} RemainingCallsAreGranted(events: seq<Event>, later: seq<Event>, k: Key, cap: int)
    requires FixedCaps(events + later, k, Some(cap))
    ensures var (left, calls) := (Remaining(Used(Run(events), k), cap), Calls(later, k));
            Granted(Run(events + later), k) == Granted(Run(events), k) + if calls <= left then calls else left
  {
    assert forall e <- events :: e in events + later;
    RemainingIsExact(events, k, cap);
    if later == [] {
      assert events + later == events;
    } else {
      var before, e := later[..|later| - 1], later[|later| - 1];
      assert (events + later)[..|events + later| - 1] == events + before;
      assert e in events + later && forall x <- events + before :: x in events + later;
      RemainingCallsAreGranted(events, before, k, cap);
      NextCallIsGranted(events + before, k, cap, e);
    }
  }

  lemma {:induction false} NextCallIsGranted(events: seq<Event>, k: Key, cap: int, e: Event)
    requires FixedCaps(events, k, Some(cap)) && FixedCaps([e], k, Some(cap))
    ensures var (s, called) := (Run(events), e.Consume? && e.key == k);
            Granted(Step(s, e), k) == Granted(s, k) + if called && Granted(s, k) < Ceiling(cap) then 1 else 0
  {
    assert e in [e];
    RefusedIffCapReached(events, k, cap);
  }

  // ----- The service -----------------------------------------------------------------------------

  datatype Policy = Policy(enabled: bool, dailyCap: Option<int>, requiresFormLevel: bool)

  datatype User = User(examType: string, formLevel: Option<int>)

  datatype Outcome =
    | Ok(usedCount: int)
    | NotFound
    | ServiceUnavailable
    | Forbidden
    | TooManyRequests

  datatype ServiceSnapshot = ServiceSnapshot(service: string, enabled: bool, dailyCap: Option<int>, used: int,
                                             remaining: Option<int>)

  class EntitlementsService {
    var users: map<string, User>
    var policies: map<(string, string), Policy>
    var used: map<Key, int>

    constructor (users: map<string, User>, policies: map<(string, string), Policy>)
      ensures this.users == users && this.policies == policies && used == map[]
    {
      this.users, this.policies, used := users, policies, map[];
    }

    function UsedToday(k: Key): int reads this { if k in used then used[k] else 0 }

    /** insert .. on conflict do update set used_count = used_count + 1 returning used_count */
    method Increment(k: Key) returns (usedCount: int)
      modifies this`used
      ensures used == old(used)[k := usedCount]
      ensures usedCount == if k in old(used) then old(used)[k] + 1 else 1
    {
      usedCount := UsedToday(k) + 1;
      used := used[k := usedCount];
    }

    /** update .. set used_count = greatest(used_count - 1, 0) */
    method Decrement(k: Key)
      modifies this`used
      ensures used ==
                if k in old(used) then old(used)[k := if old(used)[k] - 1 > 0 then old(used)[k] - 1 else 0]
                else old(used)
    {
      if k in used {
        used := used[k := if used[k] - 1 > 0 then used[k] - 1 else 0];
      }
    }

    /** A whole call for a user of the given tier; only a granted call changes anybody's count. */
    method AssertAndConsume(user: string, tier: string, service: string, today: int) returns (r: Outcome)
      requires forall k <- used :: used[k] >= 0
      modifies this`used
      ensures forall k <- used :: used[k] >= 0
      ensures r.NotFound? <==> user !in users
      ensures r.ServiceUnavailable? <==> user in users && (tier, service) !in policies
      ensures r.Forbidden? <==>
                user in users && (tier, service) in policies &&
                (!policies[(tier, service)].enabled ||
                 (policies[(tier, service)].requiresFormLevel && users[user].formLevel.None?))
      ensures var k := Key(user, service, today);
              var count := if k in old(used) then old(used)[k] else 0;
              && (r.TooManyRequests? ==>
                    policies[(tier, service)].dailyCap.Some? && policies[(tier, service)].dailyCap.value <= count)
              && (r.Ok? ==> r.usedCount == count + 1 && used == old(used)[k := count + 1])
              && (r.Ok? && policies[(tier, service)].dailyCap.Some? ==>
                    r.usedCount <= policies[(tier, service)].dailyCap.value)
      ensures !r.Ok? ==> (forall k <- old(used) :: k in used && used[k] == old(used)[k])
                         && forall k <- used :: k !in old(used) ==> used[k] == 0
    {
      if user !in users { return NotFound; }
      if (tier, service) !in policies { return ServiceUnavailable; }
      var policy := policies[(tier, service)];
      if !policy.enabled { return Forbidden; }
      if policy.requiresFormLevel && users[user].formLevel.None? { return Forbidden; }
      var k := Key(user, service, today);
      var usedCount := Increment(k);
      if policy.dailyCap.Some? && usedCount > policy.dailyCap.value {
        Decrement(k);
        return TooManyRequests;
      }
      r := Ok(usedCount);
    }

    /** One service of the client-facing snapshot. */
    function SnapshotService(user: string, service: string, policy: Policy, today: int): (r: ServiceSnapshot)
      reads this
      ensures r.remaining.Some? <==> policy.enabled && policy.dailyCap.Some?
      ensures var k := Key(user, service, today);
              var count := if k in used then used[k] else 0;
              && r.used == count
              && (r.remaining.Some? ==>
                    && r.remaining.value == Remaining(count, policy.dailyCap.value)
                    && (if count <= policy.dailyCap.value then count + r.remaining.value == policy.dailyCap.value
                        else r.remaining.value == 0))
    {
      var usedCount := UsedToday(Key(user, service, today));
      var remaining := if !policy.enabled || policy.dailyCap.None? then None
                       else Some(Ceiling(policy.dailyCap.value - usedCount));
      ServiceSnapshot(service, policy.enabled, policy.dailyCap, usedCount, remaining)
    }
  }
}
