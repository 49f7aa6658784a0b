/**
  Sending mail: each send decides whether to skip, claims its dedup key by inserting the audit row,
  builds, delivers, and records the outcome by an update that falls back to an insert. Every statement
  is a step of its own, so sends, retries and failures interleave.
 */
module Mail {
  import opened Wrappers

  // ----- Whether to skip ---------------------------------------------------------------------------

  datatype MailEvent = Transactional | WeeklyDigest | StreakAtRisk | LevelUp | ReferralQualified | OtherEvent

  datatype User = User(bounced: bool, weeklyDigest: bool, streakNudges: bool, levelUp: bool, marketing: bool)

  datatype Skip = RecipientBounced | PrefDisabled

  function ShouldSkip(event: MailEvent, user: Option<User>): Option<Skip> {
    match user
    case None => None
    case Some(u) =>
      if u.bounced then Some(RecipientBounced)
      else
        match event
        case WeeklyDigest => if u.weeklyDigest then None else Some(PrefDisabled)
        case StreakAtRisk => if u.streakNudges then None else Some(PrefDisabled)
        case LevelUp => if u.levelUp then None else Some(PrefDisabled)
        case ReferralQualified => if u.marketing then None else Some(PrefDisabled)
        case _ => None
  }

  /** Preferences never hold back a transactional mail, a bounce holds back every one. */
  lemma OnlyABounceStopsTransactionalMail(event: MailEvent, u: User)
    ensures ShouldSkip(event, Some(u)) == Some(RecipientBounced) <==> u.bounced
    ensures event.Transactional? && !u.bounced ==> ShouldSkip(event, Some(u)).None?
  {
  }

  /** Otherwise a mail is held back exactly if its own preference is off; without a user none is. */
  lemma SkippedIffBouncedOrSwitchedOff(event: MailEvent, user: Option<User>)
    ensures user.None? ==> ShouldSkip(event, user) == None
    ensures user.Some? ==>
              var (u, skip) := (user.value, ShouldSkip(event, user));
              var off := (event == WeeklyDigest && !u.weeklyDigest) || (event == StreakAtRisk && !u.streakNudges) ||
                         (event == LevelUp && !u.levelUp) || (event == ReferralQualified && !u.marketing);
              && (skip == Some(RecipientBounced) <==> u.bounced)
              && (skip == Some(PrefDisabled) <==> !u.bounced && off)
              && (skip == None <==> !u.bounced && !off)
  {
  }

  // ----- The audit table ---------------------------------------------------------------------------

  /** Pending is the claim's own mark, stored as 'skipped' with error 'pending'. */
  datatype Status = Sent | DryRun | Failed | Skipped | Pending

  datatype Row = Row(key: Option<string>, status: Status)

  predicate HasKey(table: seq<Row>, key: string) { exists r <- table :: r.key == Some(key) }

  ghost predicate UniqueKeys(table: seq<Row>) {
    forall i, j | 0 <= i < j < |table| && table[i].key.Some? :: table[i].key != table[j].key
  }

  function Update(table: seq<Row>, key: string, status: Status): (updated: seq<Row>)
    ensures |updated| == |table|
    ensures forall i | 0 <= i < |table| ::
              updated[i] == if table[i].key == Some(key) then Row(Some(key), status) else table[i]
  {
    seq(|table|, i requires 0 <= i < |table| => if table[i].key == Some(key) then Row(Some(key), status) else table[i])
  }

  // ----- Sends in progress -------------------------------------------------------------------------

  /** Where a send is; `caught` says that it is already in the handler of an earlier failure. */
  datatype Pc =
    | Deciding
    | Claiming
    | Building
    | Delivering
    | Updating(status: Status, caught: bool)
    | Inserting(status: Status)
    | Done

  datatype Call = Call(key: Option<string>, pc: Pc)

  /**
    `claimedBy`, `deliveries` and `accepted` are history: who claimed a key, and the provider calls made and accepted.
   */
  datatype State = State(calls: map<nat, Call>, table: seq<Row>, claimedBy: map<string, nat>,
                         deliveries: seq<nat>, accepted: seq<nat>)

  datatype Provider = Accepts | Rejects | Throws

  datatype Event =
    | Begin(call: nat, key: Option<string>)
    | Decide(call: nat, skip: bool, fault: bool)
    | Claim(call: nat, fault: bool)
    | Build(call: nat, ok: bool, live: bool)
    | Deliver(call: nat, provider: Provider)
    | RecordUpdate(call: nat, fault: bool)
    | RecordInsert(call: nat, fault: bool)

  function At(s: State, call: nat, pc: Pc): State
    requires call in s.calls
  {
    s.(calls := s.calls[call := s.calls[call].(pc := pc)])
  }

  function Claimed(s: State, call: nat): State
    requires call in s.calls
  {
    match s.calls[call].key
    case None => At(s, call, Building)
    case Some(k) =>
      if HasKey(s.table, k) then At(s, call, Done)
      else At(s, call, Building).(table := s.table + [Row(Some(k), Pending)], claimedBy := s.claimedBy[k := call])
  }

  function Delivered(s: State, call: nat, provider: Provider): State
    requires call in s.calls
  {
    var tried := At(s, call, Updating(if provider.Accepts? then Sent else Failed, provider.Throws?));
    tried.(deliveries := s.deliveries + [call],
           accepted := if provider.Accepts? then s.accepted + [call] else s.accepted)
  }

  function Updated(s: State, call: nat, fault: bool): State
    requires call in s.calls && s.calls[call].pc.Updating?
  {
    var c := s.calls[call];
    if c.key.None? then At(s, call, Inserting(c.pc.status))
    else if fault then if c.pc.caught then At(s, call, Done) else At(s, call, Updating(Failed, true))
    else if HasKey(s.table, c.key.value) then At(s, call, Done).(table := Update(s.table, c.key.value, c.pc.status))
    else At(s, call, Inserting(c.pc.status))
  }

  /** A duplicate key, like any other failure of the insert, is swallowed. */
  function InsertedRow(s: State, call: nat, fault: bool): State
    requires call in s.calls && s.calls[call].pc.Inserting?
  {
    var c := s.calls[call];
    if fault || (c.key.Some? && HasKey(s.table, c.key.value)) then At(s, call, Done)
    else At(s, call, Done).(table := s.table + [Row(c.key, c.pc.status)])
  }

  predicate Enabled(s: State, e: Event) {
    if e.Begin? then e.call !in s.calls
    else
      e.call in s.calls &&
      match e
      case Decide(_, _, _) => s.calls[e.call].pc.Deciding?
      case Claim(_, _) => s.calls[e.call].pc.Claiming?
      case Build(_, _, _) => s.calls[e.call].pc.Building?
      case Deliver(_, _) => s.calls[e.call].pc.Delivering?
      case RecordUpdate(_, _) => s.calls[e.call].pc.Updating?
      case RecordInsert(_, _) => s.calls[e.call].pc.Inserting?
      case _ => false
  }

  function Step(s: State, e: Event): State {
    if !Enabled(s, e) then s
    else
      match e
      case Begin(call, key) => s.(calls := s.calls[call := Call(key, Deciding)])
      case Decide(call, skip, fault) =>
        At(s, call, if fault then Updating(Failed, true) else if skip then Updating(Skipped, false) else Claiming)
      case Claim(call, fault) => if fault then At(s, call, Updating(Failed, true)) else Claimed(s, call)
      case Build(call, ok, live) =>
        At(s, call, if !ok then Updating(Failed, true) else if live then Delivering else Updating(DryRun, false))
      case Deliver(call, provider) => Delivered(s, call, provider)
      case RecordUpdate(call, fault) => Updated(s, call, fault)
      case RecordInsert(call, fault) => InsertedRow(s, call, fault)
  }

  function Run(events: seq<Event>): State {
    if events == [] then State(map[], [], map[], [], [])
    else Step(Run(events[..|events| - 1]), events[|events| - 1])
  }

  // ----- The invariant -----------------------------------------------------------------------------

  predicate BeforeClaim(pc: Pc) { pc.Deciding? || pc.Claiming? }

  predicate BeforeDelivery(pc: Pc) { BeforeClaim(pc) || pc.Building? || pc.Delivering? }

  predicate SoundClaim(s: State, k: string)
    requires k in s.claimedBy
  {
    var c := s.claimedBy[k];
    HasKey(s.table, k) && c in s.calls && s.calls[c].key == Some(k) && !BeforeClaim(s.calls[c].pc)
  }

  predicate SoundCall(s: State, c: nat)
    requires c in s.calls
  {
    var call := s.calls[c];
    && ((call.pc.Building? || call.pc.Delivering?) && call.key.Some? ==>
          call.key.value in s.claimedBy && s.claimedBy[call.key.value] == c)
    && (c in s.deliveries ==> !BeforeDelivery(call.pc))
    && (c in s.deliveries && call.key.Some? ==> call.key.value in s.claimedBy && s.claimedBy[call.key.value] == c)
    && ((call.pc.Updating? || call.pc.Inserting?) && call.pc.status.Sent? ==> c in s.accepted)
  }

  ghost predicate ClaimsInv(s: State) { forall k <- s.claimedBy :: SoundClaim(s, k) }

  ghost predicate CallsInv(s: State) { forall c <- s.calls :: SoundCall(s, c) }

  ghost predicate DeliveriesInv(s: State) {
    && (forall c <- s.deliveries :: c in s.calls)
    && (forall i, j | 0 <= i < j < |s.deliveries| :: s.deliveries[i] != s.deliveries[j])
    && (forall c <- s.accepted :: c in s.deliveries)
  }

  /** A provider call for this key was accepted. */
  predicate WasAccepted(s: State, key: Option<string>) {
    exists c <- s.accepted :: c in s.calls && s.calls[c].key == key
  }

  ghost predicate SentInv(s: State) { forall r <- s.table :: r.status.Sent? ==> WasAccepted(s, r.key) }

  ghost predicate Inv(s: State) {
    UniqueKeys(s.table) && ClaimsInv(s) && CallsInv(s) && DeliveriesInv(s) && SentInv(s)
  }

  /** Rows are never removed, and calls keep their keys. */
  predicate Grows(s: State, t: State) {
    && |s.table| <= |t.table| && (forall i | 0 <= i < |s.table| :: t.table[i].key == s.table[i].key)
    && (forall c <- s.calls :: c in t.calls && t.calls[c].key == s.calls[c].key)
    && s.deliveries <= t.deliveries && s.accepted <= t.accepted
  }

  lemma StepGrows(s: State, e: Event)
    ensures Grows(s, Step(s, e))
  {
  }

  lemma KeepsKey(s: State, t: State, k: string)
    requires Grows(s, t) && HasKey(s.table, k)
    ensures HasKey(t.table, k)
  {
    var r :| r in s.table && r.key == Some(k);
    var i :| 0 <= i < |s.table| && s.table[i] == r;
    assert t.table[i] in t.table;
  }

  lemma KeepsAccepted(s: State, t: State, key: Option<string>)
    requires Grows(s, t) && WasAccepted(s, key)
    ensures WasAccepted(t, key)
  {
    var c :| c in s.accepted && c in s.calls && s.calls[c].key == key;
    assert c in t.accepted;
  }

  lemma StepKeepsUniqueKeys(s: State, e: Event)
    requires UniqueKeys(s.table)
    ensures UniqueKeys(Step(s, e).table)
  {
    var t := Step(s, e);
    if |t.table| > |s.table| {
      forall i | 0 <= i < |s.table| && s.table[i].key.Some? ensures s.table[i].key != t.table[|s.table|].key {
        assert s.table[i] in s.table;
      }
    }
  }

  lemma StepKeepsClaim(s: State, e: Event, k: string)
    requires k in s.claimedBy ==> SoundClaim(s, k)
    requires k in Step(s, e).claimedBy
    ensures SoundClaim(Step(s, e), k)
    ensures k in s.claimedBy ==> Step(s, e).claimedBy[k] == s.claimedBy[k]
  {
    var t := Step(s, e);
    StepGrows(s, e);
    if k in s.claimedBy {
      KeepsKey(s, t, k);
    } else {
      assert t.table[|s.table|] in t.table;
    }
  }

  /** A claimed key cannot be claimed again. */
  lemma StepKeepsClaimant(s: State, e: Event, k: string)
    requires k in s.claimedBy && HasKey(s.table, k)
    ensures k in Step(s, e).claimedBy && Step(s, e).claimedBy[k] == s.claimedBy[k]
  {
  }

  lemma StepKeepsOtherCall(s: State, e: Event, c: nat)
    requires c in s.calls && c != e.call && SoundCall(s, c)
    requires s.calls[c].key.Some? && s.calls[c].key.value in s.claimedBy ==> HasKey(s.table, s.calls[c].key.value)
    ensures SoundCall(Step(s, e), c)
  {
    var key := s.calls[c].key;
    if key.Some? && key.value in s.claimedBy { StepKeepsClaimant(s, e, key.value); }
    assert Step(s, e).calls[c] == s.calls[c];
    assert c in Step(s, e).deliveries <==> c in s.deliveries;
  }

  lemma StepKeepsOwnCall(s: State, e: Event)
    requires e.call in s.calls && SoundCall(s, e.call)
    ensures SoundCall(Step(s, e), e.call)
  {
  }

  lemma StepKeepsCall(s: State, e: Event, c: nat)
    requires ClaimsInv(s) && DeliveriesInv(s) && c in Step(s, e).calls
    requires c in s.calls ==> SoundCall(s, c)
    ensures SoundCall(Step(s, e), c)
  {
    if c !in s.calls {
      assert c !in s.deliveries;
    } else if c == e.call {
      StepKeepsOwnCall(s, e);
    } else {
      var key := s.calls[c].key;
      if key.Some? && key.value in s.claimedBy { assert SoundClaim(s, key.value); }
      StepKeepsOtherCall(s, e, c);
    }
  }

  lemma StepKeepsDeliveries(s: State, e: Event)
    requires CallsInv(s) && DeliveriesInv(s)
    ensures DeliveriesInv(Step(s, e))
  {
    if e.Deliver? && Enabled(s, e) {
      assert SoundCall(s, e.call);
      assert e.call !in s.deliveries;
    }
  }

  lemma StepKeepsSent(s: State, e: Event)
    requires CallsInv(s) && SentInv(s)
    ensures SentInv(Step(s, e))
  {
    var t := Step(s, e);
    StepGrows(s, e);
    if e.RecordUpdate? || e.RecordInsert? { assert e.call in s.calls ==> SoundCall(s, e.call); }
    forall r | r in t.table && r.status.Sent? ensures WasAccepted(t, r.key) {
      if r in s.table {
        KeepsAccepted(s, t, r.key);
      } else {
        assert e.call in s.accepted && t.calls[e.call].key == r.key;
      }
    }
  }

  lemma {:induction false} ReachableInv(events: seq<Event>)
    ensures Inv(Run(events))
  {
    if events != [] {
      var s := Run(events[..|events| - 1]);
      var e := events[|events| - 1];
      ReachableInv(events[..|events| - 1]);
      StepKeepsUniqueKeys(s, e);
      forall k | k in Step(s, e).claimedBy ensures SoundClaim(Step(s, e), k) { StepKeepsClaim(s, e, k); }
      forall c | c in Step(s, e).calls ensures SoundCall(Step(s, e), c) { StepKeepsCall(s, e, c); }
      StepKeepsDeliveries(s, e);
      StepKeepsSent(s, e);
    }
  }

  // ----- At most once ------------------------------------------------------------------------------

  /** Two different provider calls never share a dedup key, nor a send. */
  lemma {:induction false} AtMostOneDeliveryPerKey(events: seq<Event>, i: nat, j: nat)
    requires i < j < |Run(events).deliveries|
    ensures var s := Run(events);
            && s.deliveries[i] in s.calls && s.deliveries[j] in s.calls && s.deliveries[i] != s.deliveries[j]
            && (s.calls[s.deliveries[i]].key.Some? ==> s.calls[s.deliveries[i]].key != s.calls[s.deliveries[j]].key)
  {
    ReachableInv(events);
    var s := Run(events);
    var (c, d) := (s.deliveries[i], s.deliveries[j]);
    assert c in s.deliveries && d in s.deliveries;
    assert SoundCall(s, c) && SoundCall(s, d);
  }

  function RowsOf(table: seq<Row>, key: string): nat {
    if table == [] then 0 else RowsOf(table[..|table| - 1], key) + if table[|table| - 1].key == Some(key) then 1 else 0
  }

  lemma {:induction false} UniqueMeansOne(table: seq<Row>, key: string)
    requires UniqueKeys(table)
    ensures RowsOf(table, key) == if HasKey(table, key) then 1 else 0
  {
    if table != [] {
      var last := |table| - 1;
      UniqueMeansOne(table[..last], key);
      assert forall r :: r in table <==> r in table[..last] || r == table[last];
      if HasKey(table[..last], key) {
        var r :| r in table[..last] && r.key == Some(key);
        var i :| 0 <= i < last && table[..last][i] == r;
        assert table[i].key == Some(key);
      }
    }
  }

  /** There is at most one audit row for a key; if it says sent, the provider accepted a mail for that key. */
  lemma {:induction false} OneRowPerKey(events: seq<Event>, key: string)
    ensures RowsOf(Run(events).table, key) <= 1
    ensures forall r <- Run(events).table :: r.status.Sent? ==> WasAccepted(Run(events), r.key)
  {
    ReachableInv(events);
    UniqueMeansOne(Run(events).table, key);
  }

  /** A key whose row was not made by a claim is used up: nothing is ever delivered for it. */
  lemma {:induction false} UnclaimedRowBlocksItsKey(events: seq<Event>, later: seq<Event>, key: string)
    requires HasKey(Run(events).table, key) && key !in Run(events).claimedBy
    ensures var s := Run(events + later);
            && HasKey(s.table, key) && key !in s.claimedBy
            && forall c <- s.deliveries :: c in s.calls && s.calls[c].key != Some(key)
  {
    BlockedStays(events, later, key);
    ReachableInv(events + later);
    var s := Run(events + later);
    forall c | c in s.deliveries ensures c in s.calls && s.calls[c].key != Some(key) { assert SoundCall(s, c); }
  }

  lemma StepKeepsBlocked(s: State, e: Event, key: string)
    requires HasKey(s.table, key) && key !in s.claimedBy
    ensures HasKey(Step(s, e).table, key) && key !in Step(s, e).claimedBy
  {
    StepGrows(s, e);
    KeepsKey(s, Step(s, e), key);
  }

  lemma {:induction false} BlockedStays(events: seq<Event>, later: seq<Event>, key: string)
    requires HasKey(Run(events).table, key) && key !in Run(events).claimedBy
    ensures HasKey(Run(events + later).table, key) && key !in Run(events + later).claimedBy
  {
    if later == [] {
      assert events + later == events;
    } else {
      var before := later[..|later| - 1];
      assert (events + later)[..|events + later| - 1] == events + before;
      BlockedStays(events, before, key);
      StepKeepsBlocked(Run(events + before), later[|later| - 1], key);
    }
  }

  /** The key's claimant has yet to build or deliver. */
  predicate ClaimIsOpen(s: State, key: string) {
    && key in s.claimedBy && s.claimedBy[key] in s.calls
    && (s.calls[s.claimedBy[key]].pc.Building? || s.calls[s.claimedBy[key]].pc.Delivering?)
  }

  predicate CallsProvider(s: State, e: Event, key: string) {
    e.Deliver? && Enabled(s, e) && s.calls[e.call].key == Some(key)
  }

  lemma StepStaysPastDelivery(s: State, e: Event, c: nat)
    requires c in s.calls && !BeforeDelivery(s.calls[c].pc)
    ensures c in Step(s, e).calls && !BeforeDelivery(Step(s, e).calls[c].pc)
  {
  }

  lemma StepKeepsClosed(s: State, e: Event, key: string)
    requires HasKey(s.table, key) && !ClaimIsOpen(s, key) && (key in s.claimedBy ==> SoundClaim(s, key))
    ensures !ClaimIsOpen(Step(s, e), key)
  {
    if key in s.claimedBy {
      StepStaysPastDelivery(s, e, s.claimedBy[key]);
      StepKeepsClaimant(s, e, key);
    } else {
      StepKeepsBlocked(s, e, key);
    }
  }

  lemma {:induction false} ClosedStays(events: seq<Event>, later: seq<Event>, key: string)
    requires HasKey(Run(events).table, key) && !ClaimIsOpen(Run(events), key)
    ensures HasKey(Run(events + later).table, key) && !ClaimIsOpen(Run(events + later), key)
  {
    if later == [] {
      assert events + later == events;
    } else {
      var before := later[..|later| - 1];
      assert (events + later)[..|events + later| - 1] == events + before;
      ClosedStays(events, before, key);
      ReachableInv(events + before);
      StepKeepsClosed(Run(events + before), later[|later| - 1], key);
      StepGrows(Run(events + before), later[|later| - 1]);
      KeepsKey(Run(events + before), Run(events + later), key);
    }
  }

  lemma ClosedIsNotDelivered(s: State, e: Event, key: string)
    requires Inv(s) && !ClaimIsOpen(s, key)
    ensures !CallsProvider(s, e, key)
  {
    if e.Deliver? && Enabled(s, e) { assert SoundCall(s, e.call); }
  }

  predicate DeliveredNext(events: seq<Event>, later: seq<Event>, e: Event, key: string) {
    CallsProvider(Run(events + later), e, key)
  }

  lemma {:induction false} OpenIsDeliverable(events: seq<Event>, key: string) returns (later: seq<Event>, e: Event)
    requires ClaimIsOpen(Run(events), key)
    ensures DeliveredNext(events, later, e, key)
  {
    ReachableInv(events);
    var c := Run(events).claimedBy[key];
    assert SoundClaim(Run(events), key);
    e := Deliver(c, Accepts);
    if Run(events).calls[c].pc.Delivering? {
      later := [];
      assert events + later == events;
    } else {
      later := [Build(c, true, true)];
      Appended(events, Build(c, true, true));
    }
  }

  /** A key that has a row can still be delivered, in some continuation, exactly if its claimant is before delivery. */
  lemma {:induction false} DeliverableIffClaimIsOpen(events: seq<Event>, key: string)
    requires HasKey(Run(events).table, key)
    ensures (exists later: seq<Event>, e: Event :: DeliveredNext(events, later, e, key)) <==>
              ClaimIsOpen(Run(events), key)
  {
    if ClaimIsOpen(Run(events), key) {
      var later, e := OpenIsDeliverable(events, key);
    } else {
      forall later: seq<Event>, e: Event ensures !DeliveredNext(events, later, e, key) {
        ClosedStays(events, later, key);
        ReachableInv(events + later);
        ClosedIsNotDelivered(Run(events + later), e, key);
      }
    }
  }

  // ----- What the row does not say -----------------------------------------------------------------

  lemma {:induction false} Appended(events: seq<Event>, e: Event)
    ensures Run(events + [e]) == Step(Run(events), e)
  {
    assert (events + [e])[..|events|] == events;
  }

  /** A delivered mail's row can later read skipped: a second send under the key that is skipped overwrites it. */
  lemma SkipOverwritesSent(key: string) returns (events: seq<Event>)
    ensures var s := Run(events);
            && s.table == [Row(Some(key), Skipped)]
            && |s.accepted| == 1 && s.accepted[0] in s.calls && s.calls[s.accepted[0]].key == Some(key)
  {
    events := DeliverOnce(key);
    var s := Run(events);
    Appended(events, Begin(1, Some(key)));
    events := events + [Begin(1, Some(key))];
    Appended(events, Decide(1, true, false));
    events := events + [Decide(1, true, false)];
    assert s.table[0] in s.table;
    Appended(events, RecordUpdate(1, false));
    events := events + [RecordUpdate(1, false)];
    assert Update(s.table, key, Skipped) == [Row(Some(key), Skipped)];
  }

  lemma DeliverOnce(key: string) returns (events: seq<Event>)
    ensures var s := Run(events);
            s.calls == map[0 := Call(Some(key), Done)] && s.table == [Row(Some(key), Sent)] && s.accepted == [0]
  {
    events := ClaimOnce(key);
    var claimed := Run(events);
    Appended(events, Build(0, true, true));
    events := events + [Build(0, true, true)];
    Appended(events, Deliver(0, Accepts));
    events := events + [Deliver(0, Accepts)];
    assert claimed.table[0] in claimed.table;
    Appended(events, RecordUpdate(0, false));
    events := events + [RecordUpdate(0, false)];
    assert Update(claimed.table, key, Sent) == [Row(Some(key), Sent)];
  }

  lemma ClaimOnce(key: string) returns (events: seq<Event>)
    ensures Run(events) == State(map[0 := Call(Some(key), Building)], [Row(Some(key), Pending)], map[key := 0], [], [])
  {
    events := [];
    Appended(events, Begin(0, Some(key)));
    events := events + [Begin(0, Some(key))];
    Appended(events, Decide(0, false, false));
    events := events + [Decide(0, false, false)];
    Appended(events, Claim(0, false));
    events := events + [Claim(0, false)];
  }

  // ----- What a send leaves in the table ---------------------------------------------------------------

  /** The rows of the key, if it has one, say this, and the other rows are as they were. */
  ghost predicate Says(before: seq<Row>, after: seq<Row>, key: Option<string>, status: Status) {
    && (key.Some? ==> Row(key, status) in after && forall r <- after :: r.key == key ==> r.status == status)
    && (key.None? ==> after == before + [Row(None, status)])
    && (forall r: Row :: r.key != key ==> (r in after <==> r in before))
  }

  lemma RecordedSays(table: seq<Row>, key: Option<string>, status: Status)
    ensures Says(table, Recorded(table, key, status), key, status)
  {
    var after := Recorded(table, key, status);
    if key.Some? && HasKey(table, key.value) {
      var r :| r in table && r.key == key;
      var i: nat :| i < |table| && table[i] == r;
      assert after[i] == Row(key, status);
      forall x: Row | x.key != key ensures x in after <==> x in table {
        if x in table {
          var j: nat :| j < |table| && table[j] == x;
          assert after[j] == x;
        }
      }
    } else if key.Some? {
      assert after[|table|] == Row(key, status);
    }
  }

  /** The steps of a send with nothing in between; each of deciding and claiming may fail. */
  function SendCall(s: State, call: nat, key: Option<string>, decideFails: bool, skip: bool, claimFails: bool,
                    built: bool, live: bool, provider: Provider): State {
    var claimed := Step(Step(Step(s, Begin(call, key)), Decide(call, skip, decideFails)), Claim(call, claimFails));
    var sent := Step(Step(claimed, Build(call, built, live)), Deliver(call, provider));
    Step(Step(sent, RecordUpdate(call, false)), RecordInsert(call, false))
  }

  /**
    The table says failed after a fault or a refusal by the provider, skipped, dry run or sent as it went, and is left
    alone exactly if the key had a row and the send got as far as claiming it.
   */
  lemma SendLeavesItsRow(s: State, call: nat, key: Option<string>, decideFails: bool, skip: bool, claimFails: bool,
                         built: bool, live: bool, provider: Provider)
    requires call !in s.calls
    ensures var t := SendCall(s, call, key, decideFails, skip, claimFails, built, live, provider);
            var known := key.Some? && exists r <- s.table :: r.key == key;
            var claims := !decideFails && !skip && !claimFails;
            var tried := claims && !known && built && live;
            && t.deliveries == (if tried then s.deliveries + [call] else s.deliveries)
            && t.accepted == (if tried && provider == Accepts then s.accepted + [call] else s.accepted)
            && (claims && known ==> t.table == s.table)
            && (!(claims && known) ==>
                  Says(s.table, t.table, key,
                       if decideFails then Failed else if skip then Skipped else if claimFails || !built then Failed
                       else if !live then DryRun else if provider == Accepts then Sent else Failed))
  {
    var s3 := Step(Step(Step(s, Begin(call, key)), Decide(call, skip, decideFails)), Claim(call, claimFails));
    var s5 := Step(Step(s3, Build(call, built, live)), Deliver(call, provider));
    if decideFails || (!skip && claimFails) {
      RecordedInTwo(s5, call, Failed, true);
      RecordedSays(s.table, key, Failed);
    } else {
      SkippedIsNotClaimed(s, call, key, skip, claimFails);
      UninterruptedSend(s, call, key, skip, built, live, provider);
      SentTableSays(s.table, key, skip, built, live, provider);
    }
  }

  lemma SkippedIsNotClaimed(s: State, call: nat, key: Option<string>, skip: bool, claimFails: bool)
    requires call !in s.calls && (claimFails ==> skip)
    ensures var decided := Step(Step(s, Begin(call, key)), Decide(call, skip, false));
            Step(decided, Claim(call, claimFails)) == Step(decided, Claim(call, false))
  {
  }

  /** What the rest of a claimed or skipped send makes of the table. */
  lemma SentTableSays(table: seq<Row>, key: Option<string>, skip: bool, built: bool, live: bool, provider: Provider)
    ensures !skip && Taken(table, key) ==> SentTable(table, key, skip, built, live, provider) == table
    ensures skip || !Taken(table, key) ==>
              Says(table, SentTable(table, key, skip, built, live, provider), key,
                   if skip then Skipped else FinalStatus(built, live, provider))
  {
    RecordedSays(table, key, Skipped);
    RecordedSays(ClaimedTable(table, key), key, FinalStatus(built, live, provider));
  }

  /** A fault while recording an outcome makes it a failure; one while recording that is swallowed. */
  lemma RecordingFaults(s: State, call: nat, status: Status, caught: bool)
    requires call in s.calls && s.calls[call].pc == Updating(status, caught) && s.calls[call].key.Some?
    ensures var (t, key) := (Step(s, RecordUpdate(call, true)), s.calls[call].key);
            && t.table == s.table
            && (caught ==> t.calls[call].pc == Done)
            && (!caught ==> Says(s.table, Step(Step(t, RecordUpdate(call, false)), RecordInsert(call, false)).table,
                                 key, Failed))
  {
    var t := Step(s, RecordUpdate(call, true));
    if !caught {
      RecordedInTwo(t, call, Failed, true);
      RecordedSays(s.table, s.calls[call].key, Failed);
    }
  }

  // ----- One send on its own -------------------------------------------------------------------------

  /** The update that falls back to an insert. */
  function Recorded(table: seq<Row>, key: Option<string>, status: Status): seq<Row> {
    if key.Some? && HasKey(table, key.value) then Update(table, key.value, status) else table + [Row(key, status)]
  }

  /** What the rest of a send comes to once its key is claimed. */
  function FinalStatus(built: bool, live: bool, provider: Provider): Status {
    if !built then Failed else if !live then DryRun else if provider.Accepts? then Sent else Failed
  }

  function ClaimedTable(table: seq<Row>, key: Option<string>): seq<Row> {
    if key.None? then table else table + [Row(key, Pending)]
  }

  predicate Taken(table: seq<Row>, key: Option<string>) { key.Some? && HasKey(table, key.value) }

  function SentTable(table: seq<Row>, key: Option<string>, skip: bool, built: bool, live: bool,
                     provider: Provider): seq<Row> {
    if skip then Recorded(table, key, Skipped)
    else if Taken(table, key) then table
    else Recorded(ClaimedTable(table, key), key, FinalStatus(built, live, provider))
  }

  predicate Delivers(table: seq<Row>, key: Option<string>, skip: bool, built: bool, live: bool) {
    !skip && !Taken(table, key) && built && live
  }

  lemma RecordedInTwo(s: State, call: nat, status: Status, caught: bool)
    requires call in s.calls && s.calls[call].pc == Updating(status, caught)
    ensures var t := Step(Step(s, RecordUpdate(call, false)), RecordInsert(call, false));
            && t.table == Recorded(s.table, s.calls[call].key, status)
            && t.deliveries == s.deliveries && t.accepted == s.accepted
  {
  }

  lemma DoneIsDone(s: State, call: nat)
    requires call in s.calls && s.calls[call].pc.Done?
    ensures Step(Step(s, RecordUpdate(call, false)), RecordInsert(call, false)) == s
  {
  }

  /**
    Nothing in between: the seven steps, those off its path having no effect, are the send's effect on the table and
    its provider call.
   */
  lemma UninterruptedSend(s: State, call: nat, key: Option<string>, skip: bool, built: bool, live: bool,
                          provider: Provider)
    requires call !in s.calls
    ensures var t := Step(Step(Step(Step(Step(s, Begin(call, key)), Decide(call, skip, false)), Claim(call, false)),
                               Build(call, built, live)), Deliver(call, provider));
            var u := Step(Step(t, RecordUpdate(call, false)), RecordInsert(call, false));
            && u.table == SentTable(s.table, key, skip, built, live, provider)
            && u.deliveries ==
                 (if Delivers(s.table, key, skip, built, live) then s.deliveries + [call] else s.deliveries)
            && u.accepted == (if Delivers(s.table, key, skip, built, live) && provider.Accepts? then s.accepted + [call]
                              else s.accepted)
  {
    var s2 := Step(Step(s, Begin(call, key)), Decide(call, skip, false));
    var s3 := Step(s2, Claim(call, false));
    var s5 := Step(Step(s3, Build(call, built, live)), Deliver(call, provider));
    if skip {
      assert s5.calls[call] == Call(key, Updating(Skipped, false)) && s5.table == s.table;
      RecordedInTwo(s5, call, Skipped, false);
    } else if Taken(s.table, key) {
      assert s5.calls[call] == Call(key, Done) && s5.table == s.table;
      DoneIsDone(s5, call);
    } else {
      assert s3.calls[call] == Call(key, Building) && s3.table == ClaimedTable(s.table, key);
      var status := FinalStatus(built, live, provider);
      assert s5.calls[call].key == key && s5.table == s3.table;
      RecordedInTwo(s5, call, status, !built || (live && provider.Throws?));
    }
  }

  class EmailAuditService {
    var table: seq<Row>

    constructor ()
      ensures table == []
    {
      table := [];
    }

    /** The insert that claims a dedup key, or the unique violation. */
    method TryClaimDedup(key: string) returns (claimed: bool)
      modifies this
      ensures claimed <==> !HasKey(old(table), key)
      ensures table == if claimed then old(table) + [Row(Some(key), Pending)] else old(table)
      ensures old(UniqueKeys(table)) ==> UniqueKeys(table)
    {
      claimed := !HasKey(table, key);
      if claimed {
        ghost var was := table;
        table := table + [Row(Some(key), Pending)];
        forall i | 0 <= i < |was| ensures was[i].key != Some(key) { assert was[i] in was; }
      }
    }

    method Record(key: Option<string>, status: Status)
      modifies this
      ensures table == Recorded(old(table), key, status)
    {
      if key.Some? {
        var affected := HasKey(table, key.value);
        table := Update(table, key.value, status);
        if affected { return; }
        assert table == old(table) by {
          forall i | 0 <= i < |table| ensures old(table)[i].key != key { assert old(table)[i] in old(table); }
        }
      }
      table := table + [Row(key, status)];
    }
  }

  class MailService {
    const audit: EmailAuditService
    const live: bool

    constructor (audit: EmailAuditService, live: bool)
      ensures this.audit == audit && this.live == live
    {
      this.audit, this.live := audit, live;
    }

    /** `built` and `provider` are the outcomes of the template and of the provider call, if they are reached. */
    method Send(event: MailEvent, user: Option<User>, key: Option<string>, built: bool, provider: Provider)
      returns (delivered: bool)
      modifies audit
      ensures delivered <==> Delivers(old(audit.table), key, ShouldSkip(event, user).Some?, built, live)
      ensures audit.table == SentTable(old(audit.table), key, ShouldSkip(event, user).Some?, built, live, provider)
      ensures var (skip, known) := (ShouldSkip(event, user).Some?,
                                    key.Some? && exists r <- old(audit.table) :: r.key == key);
              && (delivered <==> !skip && !known && built && live)
              && (!skip && known ==> audit.table == old(audit.table))
              && (skip || !known ==>
                    Says(old(audit.table), audit.table, key,
                         if skip then Skipped else if !built then Failed else if !live then DryRun
                         else if provider == Accepts then Sent else Failed))
    {
      delivered := false;
      var skip := ShouldSkip(event, user);
      ghost var table := audit.table;
      RecordedSays(table, key, Skipped);
      RecordedSays(ClaimedTable(table, key), key, FinalStatus(built, live, provider));
      if skip.Some? {
        audit.Record(key, Skipped);
        return;
      }
      if key.Some? {
        var claimed := audit.TryClaimDedup(key.value);
        if !claimed { return; }
      }
      if !built {
        audit.Record(key, Failed);
        return;
      }
      if !live {
        audit.Record(key, DryRun);
        return;
      }
      delivered := true;
      audit.Record(key, if provider.Accepts? then Sent else Failed);
    }
  }
}
