/**
  The cached device against the session row: what a live entry says, where it comes from, and exactly when the
  access-token check that goes by it agrees with the row.
 */
module DeviceCache {
  import opened Wrappers
  import opened Tokens

  /** The device bound by a run of events: that of the last login unless a logout followed. Rotations keep it. */
  function Binding(events: seq<Event>): Option<string> {
    if events == [] then None
    else
      match events[|events| - 1]
      case Upsert(_, device, _, _) => Some(device)
      case DeleteRow(_, _) => None
      case _ => Binding(events[..|events| - 1])
  }

  lemma {:induction false} RowIsBinding(start: int, events: seq<Event>, accessTtl: int)
    ensures RowDevice(Run(start, events, accessTtl)) == Binding(events)
    ensures Run(start, events, accessTtl).steps == |events|
  {
    if events != [] { RowIsBinding(start, events[..|events| - 1], accessTtl); }
  }

  /** The row access at position origin - 1: a login, an accepted rotation, or the check's row read. */
  predicate Accesses(e: Event, call: nat) { (e.Upsert? || e.Rotate? || e.ReadRow?) && e.call == call }

  ghost predicate TakenFrom(events: seq<Event>, call: nat, device: string, origin: nat) {
    0 < origin <= |events| && Accesses(events[origin - 1], call) && Binding(events[..origin]) == Some(device)
  }

  predicate WritesCache(e: Event, call: nat) { (e.SetCache? || e.Fill?) && e.call == call }

  ghost predicate SoundEntry(events: seq<Event>, c: Cached, accessTtl: int) {
    && c.written < |events| && c.origin <= c.written && WritesCache(events[c.written], events[c.written].call)
    && TakenFrom(events, events[c.written].call, c.entry.device, c.origin)
    && c.at == events[c.written].now
    && c.entry.until == c.at + if events[c.written].SetCache? then accessTtl else REWARM_TTL
  }

  predicate TakesDevice(p: Pending) { p.ToSet? || p.ToFill? }

  ghost predicate CacheInv(a: Account, events: seq<Event>, accessTtl: int) {
    && (a.cached.Some? ==> SoundEntry(events, a.cached.value, accessTtl))
    && forall k <- a.pending :: TakesDevice(a.pending[k]) ==>
         TakenFrom(events, k, a.pending[k].device, a.pending[k].origin)
  }

  lemma {:induction false} TakenStays(events: seq<Event>, e: Event, call: nat, device: string, origin: nat)
    requires TakenFrom(events, call, device, origin)
    ensures TakenFrom(events + [e], call, device, origin)
  {
    assert (events + [e])[..origin] == events[..origin];
  }

  lemma {:induction false} TakenNow(start: int, events: seq<Event>, e: Event, accessTtl: int)
    requires Accesses(e, e.call)
    requires var b := Run(start, events + [e], accessTtl);
             e.call in b.pending && TakesDevice(b.pending[e.call]) && b.pending[e.call].origin == |events| + 1
             && RowDevice(b) == Some(b.pending[e.call].device)
    ensures var p := Run(start, events + [e], accessTtl).pending[e.call];
            TakenFrom(events + [e], e.call, p.device, p.origin)
  {
    RowIsBinding(start, events + [e], accessTtl);
    assert (events + [e])[..|events| + 1] == events + [e];
  }

  lemma {:induction false} StepKeepsPending(start: int, events: seq<Event>, e: Event, accessTtl: int, k: nat)
    requires CacheInv(Run(start, events, accessTtl), events, accessTtl)
    requires var b := Run(start, events + [e], accessTtl); k in b.pending && TakesDevice(b.pending[k])
    ensures var p := Run(start, events + [e], accessTtl).pending[k]; TakenFrom(events + [e], k, p.device, p.origin)
  {
    var (a, b) := (Run(start, events, accessTtl), Run(start, events + [e], accessTtl));
    assert (events + [e])[..|events|] == events;
    RowIsBinding(start, events, accessTtl);
    if k in a.pending && b.pending[k] == a.pending[k] {
      TakenStays(events, e, k, a.pending[k].device, a.pending[k].origin);
    } else {
      TakenNow(start, events, e, accessTtl);
    }
  }

  lemma {:induction false} StepKeepsEntry(start: int, events: seq<Event>, e: Event, accessTtl: int)
    requires CacheInv(Run(start, events, accessTtl), events, accessTtl)
    requires Run(start, events + [e], accessTtl).cached.Some?
    ensures SoundEntry(events + [e], Run(start, events + [e], accessTtl).cached.value, accessTtl)
  {
    var (a, b) := (Run(start, events, accessTtl), Run(start, events + [e], accessTtl));
    assert (events + [e])[..|events|] == events;
    RowIsBinding(start, events, accessTtl);
    if a.cached.Some? && b.cached == a.cached {
      var c := a.cached.value;
      TakenStays(events, e, events[c.written].call, c.entry.device, c.origin);
    } else {
      var p := a.pending[e.call];
      TakenStays(events, e, e.call, p.device, p.origin);
    }
  }

  lemma {:induction false} RunKeepsCache(start: int, events: seq<Event>, accessTtl: int)
    ensures CacheInv(Run(start, events, accessTtl), events, accessTtl)
  {
    if events != [] {
      var (before, e) := (events[..|events| - 1], events[|events| - 1]);
      assert events == before + [e];
      RunKeepsCache(start, before, accessTtl);
      var b := Run(start, events, accessTtl);
      forall k | k in b.pending && TakesDevice(b.pending[k])
        ensures TakenFrom(events, k, b.pending[k].device, b.pending[k].origin)
      {
        StepKeepsPending(start, before, e, accessTtl, k);
      }
      if b.cached.Some? { StepKeepsEntry(start, before, e, accessTtl); }
    }
  }

  /**
    For every interleaving the check agrees with the row exactly if no live entry is cached, or the logins and
    logouts since the row access that the entry comes from have ended with the same device bound.
   */
  lemma {:induction false} CheckAgreesIff(start: int, events: seq<Event>, accessTtl: int, now: int)
    ensures var a := Run(start, events, accessTtl);
            && (a.cached.Some? ==> SoundEntry(events, a.cached.value, accessTtl))
            && (BoundDevice(a, now) == RowDevice(a) <==>
                !Hit(a, now) || Binding(events) == Binding(events[..a.cached.value.origin]))
  {
    RunKeepsCache(start, events, accessTtl);
    RowIsBinding(start, events, accessTtl);
  }

  function OriginOf(a: Account): nat { if a.cached.Some? then a.cached.value.origin else 0 }

  /** In particular the check is exact until the next login or logout after that access. */
  lemma {:induction false} ExactUntilTheNextLoginOrLogout(start: int, events: seq<Event>, accessTtl: int, now: int)
    requires forall i | OriginOf(Run(start, events, accessTtl)) <= i < |events| :: !events[i].Upsert?
               && !events[i].DeleteRow?
    ensures BoundDevice(Run(start, events, accessTtl), now) == RowDevice(Run(start, events, accessTtl))
  {
    CheckAgreesIff(start, events, accessTtl, now);
    var a := Run(start, events, accessTtl);
    if a.cached.Some? { SameBinding(events, a.cached.value.origin); }
  }

  lemma {:induction false} SameBinding(events: seq<Event>, m: nat)
    requires m <= |events| && forall i | m <= i < |events| :: !events[i].Upsert? && !events[i].DeleteRow?
    ensures Binding(events) == Binding(events[..m])
  {
    if m == |events| {
      assert events[..m] == events;
    } else {
      var last := |events| - 1;
      assert events[..last][..m] == events[..m];
      SameBinding(events[..last], m);
    }
  }

  /**
    Bounded staleness: an answer that differs from the row comes from an entry that was written less than its
    TTL ago, by a call that found its device bound at an earlier access to the row.
   */
  lemma {:induction false} StaleAnswersAreBrief(start: int, events: seq<Event>, accessTtl: int, now: int)
    requires BoundDevice(Run(start, events, accessTtl), now) != RowDevice(Run(start, events, accessTtl))
    ensures var a := Run(start, events, accessTtl);
            && Hit(a, now) && SoundEntry(events, a.cached.value, accessTtl)
            && now < a.cached.value.at + (if accessTtl > REWARM_TTL then accessTtl else REWARM_TTL)
            && Binding(events[..a.cached.value.origin]) == Some(a.cached.value.entry.device) == BoundDevice(a, now)
  {
    RunKeepsCache(start, events, accessTtl);
  }

  lemma {:induction false} Appended(start: int, events: seq<Event>, e: Event, accessTtl: int)
    requires AllAllowed(start, events, accessTtl) && Allowed(Run(start, events, accessTtl), e)
    ensures AllAllowed(start, events + [e], accessTtl)
    ensures Run(start, events + [e], accessTtl) == Step(Run(start, events, accessTtl), e, accessTtl)
  {
    assert (events + [e])[..|events|] == events;
  }

  /**
    Two logins that cross: the row is bound to the second device, and the check goes by the first for an access
    token's life.
   */
  lemma CrossingLoginsLeaveAStaleEntry(first: string, second: string, accessTtl: int, now: int)
    returns (events: seq<Event>)
    requires |first| > 0 && first != second && 0 <= now < accessTtl
    ensures AllAllowed(0, events, accessTtl)
    ensures var a := Run(0, events, accessTtl);
            RowDevice(a) == Some(second) && BoundDevice(a, now) == Some(first) && a.pending == map[]
  {
    events := [];
    Appended(0, events, Upsert(0, first, "a", 0), accessTtl);
    events := events + [Upsert(0, first, "a", 0)];
    Appended(0, events, Upsert(1, second, "b", 0), accessTtl);
    events := events + [Upsert(1, second, "b", 0)];
    Appended(0, events, SetCache(1, 0), accessTtl);
    events := events + [SetCache(1, 0)];
    Appended(0, events, SetCache(0, 0), accessTtl);
    events := events + [SetCache(0, 0)];
  }
}
