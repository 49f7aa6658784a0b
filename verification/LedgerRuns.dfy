/**
  Runs of awards, redemptions and changes of user rows. A call that changes the exam type, or any other column,
  reads the user row and later saves all of it: totals and level go back to what they were at its read. A change
  of exam type deletes the entries on the old board after its save. The three steps of such calls, and
  transactions, interleave.
 */
module LedgerRuns {
  import opened Levels
  import opened Ledger
  import opened Wrappers

  datatype Stage = Loaded | Stored | Wiped

  /** A call that has read a user row, to change its exam type to `to` or, with None, only other columns. */
  datatype Change = Change(user: string, to: Option<string>, row: User, kept: set<nat>, stage: Stage) {
    function ExamType(): string { if to.Some? then to.value else row.examType }

    predicate Switches() { ExamType() != row.examType }
  }

  /** `kept` is history: the positions in the ledger of the rows that a user's totals reflect. */
  datatype Sys = Sys(db: Db, changes: map<nat, Change>, kept: map<string, set<nat>>)

  datatype Event =
    | Award(user: string, eventKey: string, day: int)
    | AwardAmount(user: string, amount: int, eventKey: string, day: int)
    | Redeem(user: string, cost: int, day: int)
    | SetRate(eventKey: string, rate: int)
    | LoadRow(call: nat, user: string, to: Option<string>)
    | StoreRow(call: nat)
    | WipeBoard(call: nat)

  function KeptOf(s: Sys, user: string): set<nat> { if user in s.kept then s.kept[user] else {} }

  function Committed(s: Sys, user: string, after: Db): Sys {
    s.(db := after,
       kept := if |after.ledger| > |s.db.ledger| then s.kept[user := KeptOf(s, user) + {|s.db.ledger|}] else s.kept)
  }

  predicate CanStore(s: Sys, call: nat) { call in s.changes && s.changes[call].stage.Loaded? }

  /** The save: every column is as the call read it, but for the exam type. */
  function RowStored(s: Sys, call: nat): Sys {
    if !CanStore(s, call) then s
    else
      var c := s.changes[call];
      Sys(s.db.(users := s.db.users[c.user := c.row.(examType := c.ExamType())]),
          s.changes[call := c.(stage := Stored)], s.kept[c.user := c.kept])
  }

  predicate CanWipe(s: Sys, call: nat) {
    call in s.changes && s.changes[call].stage.Stored? && s.changes[call].Switches()
  }

  function OldBoardWiped(s: Sys, call: nat): Sys {
    if !CanWipe(s, call) then s
    else
      var c := s.changes[call];
      s.(db := s.db.(board := BoardWiped(s.db.board, c.user, c.row.examType)),
         changes := s.changes[call := c.(stage := Wiped)])
  }

  function Step(s: Sys, e: Event): Sys {
    match e
    case Award(user, eventKey, day) => Committed(s, user, XpAwarded(s.db, user, eventKey, day))
    case AwardAmount(user, amount, eventKey, day) =>
      Committed(s, user, XpAmountAwarded(s.db, user, amount, eventKey, day))
    case Redeem(user, cost, day) => Committed(s, user, XpRedeemed(s.db, user, cost, day))
    case SetRate(eventKey, rate) => s.(db := s.db.(rates := s.db.rates[eventKey := rate]))
    case LoadRow(call, user, to) =>
      if user !in s.db.users then s
      else s.(changes := s.changes[call := Change(user, to, s.db.users[user], KeptOf(s, user), Loaded)])
    case StoreRow(call) => RowStored(s, call)
    case WipeBoard(call) => OldBoardWiped(s, call)
  }

  /** A call that reads is a new one. */
  predicate Allowed(s: Sys, e: Event) { e.LoadRow? ==> e.call !in s.changes }

  function Initial(examTypes: map<string, string>): Sys {
    Sys(InitialDb(examTypes), map[], map u | u in examTypes :: {})
  }

  function Run(examTypes: map<string, string>, events: seq<Event>): Sys {
    if events == [] then Initial(examTypes) else Step(Run(examTypes, events[..|events| - 1]), events[|events| - 1])
  }

  predicate AllAllowed(examTypes: map<string, string>, events: seq<Event>) {
    events == [] ||
    (AllAllowed(examTypes, events[..|events| - 1]) &&
     Allowed(Run(examTypes, events[..|events| - 1]), events[|events| - 1]))
  }

  // ----- Totals reflect the kept rows ----------------------------------------------------------------

  /** The rows at the positions in `kept`, in order. */
  function Part(rows: seq<Row>, kept: set<nat>): seq<Row> {
    if rows == [] then []
    else
      var before := Part(rows[..|rows| - 1], kept);
      if |rows| - 1 in kept then before + [rows[|rows| - 1]] else before
  }

  /** The other rows of the user. */
  function Lost(rows: seq<Row>, kept: set<nat>, user: string): seq<Row> {
    if rows == [] then []
    else
      var before := Lost(rows[..|rows| - 1], kept, user);
      if rows[|rows| - 1].user == user && |rows| - 1 !in kept then before + [rows[|rows| - 1]] else before
  }

  ghost predicate Reflects(row: User, rows: seq<Row>, kept: set<nat>, user: string) {
    TotalsOf(row, Part(rows, kept), user) && (forall j <- kept :: j < |rows| && rows[j].user == user)
  }

  ghost predicate UsersInv(s: Sys) {
    s.kept.Keys == s.db.users.Keys && (forall u <- s.kept :: Reflects(s.db.users[u], s.db.ledger, s.kept[u], u))
  }

  ghost predicate ChangesInv(s: Sys) {
    forall k <- s.changes ::
      s.changes[k].user in s.db.users && Reflects(s.changes[k].row, s.db.ledger, s.changes[k].kept, s.changes[k].user)
  }

  ghost predicate Inv(s: Sys) { UsersInv(s) && ChangesInv(s) }

  lemma {:induction false} PartIgnoresLater(rows: seq<Row>, kept: set<nat>, n: nat)
    requires |rows| <= n
    ensures Part(rows, kept + {n}) == Part(rows, kept)
  {
    if rows != [] { PartIgnoresLater(rows[..|rows| - 1], kept, n); }
  }

  lemma PartAfterRow(rows: seq<Row>, row: Row, kept: set<nat>)
    ensures Part(rows + [row], kept) == if |rows| in kept then Part(rows, kept) + [row] else Part(rows, kept)
  {
    assert (rows + [row])[..|rows|] == rows;
  }

  lemma ReflectsLonger(u: User, rows: seq<Row>, row: Row, kept: set<nat>, user: string)
    requires Reflects(u, rows, kept, user)
    ensures Reflects(u, rows + [row], kept, user)
  {
    PartAfterRow(rows, row, kept);
    forall j | j in kept ensures j < |rows + [row]| && (rows + [row])[j].user == user { assert rows[j].user == user; }
  }

  lemma ReflectsNew(u: User, rows: seq<Row>, row: Row, now: User, kept: set<nat>)
    requires Reflects(u, rows, kept, row.user) && Adds(u, row, now)
    ensures Reflects(now, rows + [row], kept + {|rows|}, row.user)
  {
    PartAfterRow(rows, row, kept + {|rows|});
    PartIgnoresLater(rows, kept, |rows|);
    TotalsAfterRow(u, Part(rows, kept), row, now);
    KeptOfUser(rows, row, kept);
  }

  lemma KeptOfUser(rows: seq<Row>, row: Row, kept: set<nat>)
    requires forall j <- kept :: j < |rows| && rows[j].user == row.user
    ensures forall j <- kept + {|rows|} :: j < |rows + [row]| && (rows + [row])[j].user == row.user
  {
    forall j | j in kept + {|rows|} ensures j < |rows + [row]| && (rows + [row])[j].user == row.user {
      if j in kept { assert rows[j].user == row.user; }
    }
  }

  lemma CommittedKeepsUsers(s: Sys, user: string, after: Db)
    requires UsersInv(s) && Commits(s.db, user, after)
    ensures UsersInv(Committed(s, user, after))
  {
    var t := Committed(s, user, after);
    if |after.ledger| > |s.db.ledger| {
      var row := after.ledger[|s.db.ledger|];
      assert after.ledger == s.db.ledger + [row];
      forall u | u in t.kept ensures Reflects(t.db.users[u], t.db.ledger, t.kept[u], u) {
        assert Reflects(s.db.users[u], s.db.ledger, s.kept[u], u);
        if u == user { ReflectsNew(s.db.users[u], s.db.ledger, row, t.db.users[u], s.kept[u]); }
        else { ReflectsLonger(s.db.users[u], s.db.ledger, row, s.kept[u], u); }
      }
    }
  }

  lemma CommittedKeepsChanges(s: Sys, user: string, after: Db)
    requires ChangesInv(s) && Commits(s.db, user, after)
    ensures ChangesInv(Committed(s, user, after))
  {
    if |after.ledger| > |s.db.ledger| {
      var row := after.ledger[|s.db.ledger|];
      assert after.ledger == s.db.ledger + [row];
      forall k | k in s.changes
        ensures Reflects(s.changes[k].row, after.ledger, s.changes[k].kept, s.changes[k].user)
      {
        ReflectsLonger(s.changes[k].row, s.db.ledger, row, s.changes[k].kept, s.changes[k].user);
      }
    }
  }

  predicate IsTransaction(e: Event) { e.Award? || e.AwardAmount? || e.Redeem? }

  lemma TransactionCommits(s: Sys, e: Event)
    requires IsTransaction(e)
    ensures Commits(s.db, e.user, Step(s, e).db) && Step(s, e) == Committed(s, e.user, Step(s, e).db)
  {
    match e
    case Award(user, eventKey, day) => AwardCommits(s.db, user, eventKey, day);
    case AwardAmount(user, amount, eventKey, day) =>
      if amount <= 0 {
        AwardCommits(s.db, user, eventKey, day);
      } else {
        ApplyCommits(s.db, user, eventKey, amount, day);
      }
    case Redeem(user, cost, day) => RedeemCommits(s.db, user, cost, day);
  }

  lemma StepKeepsLedger(s: Sys, e: Event)
    ensures s.db.ledger <= Step(s, e).db.ledger
  {
    if IsTransaction(e) { TransactionCommits(s, e); }
  }

  lemma StoreKeepsInv(s: Sys, call: nat)
    requires Inv(s)
    ensures Inv(RowStored(s, call))
  {
    if CanStore(s, call) {
      assert Reflects(s.changes[call].row, s.db.ledger, s.changes[call].kept, s.changes[call].user);
    }
  }

  lemma StepKeepsInv(s: Sys, e: Event)
    requires Inv(s)
    ensures Inv(Step(s, e))
  {
    if IsTransaction(e) {
      TransactionCommits(s, e);
      CommittedKeepsUsers(s, e.user, Step(s, e).db);
      CommittedKeepsChanges(s, e.user, Step(s, e).db);
    } else if e.StoreRow? {
      StoreKeepsInv(s, e.call);
    }
  }

  lemma {:induction false} ReachableInv(examTypes: map<string, string>, events: seq<Event>)
    ensures Inv(Run(examTypes, events))
  {
    if events == [] {
      LevelIsZeroAtStart();
    } else {
      ReachableInv(examTypes, events[..|events| - 1]);
      StepKeepsInv(Run(examTypes, events[..|events| - 1]), events[|events| - 1]);
    }
  }

  /** The three steps of an exam-type change with nothing in between: the totals stay, and only the left board goes. */
  lemma UninterruptedChange(s: Sys, call: nat, user: string, to: string)
    requires call !in s.changes && user in s.db.users
    ensures var t := Step(Step(Step(s, LoadRow(call, user, Some(to))), StoreRow(call)), WipeBoard(call));
            var from := s.db.users[user].examType;
            && t.db.users == s.db.users[user := s.db.users[user].(examType := to)]
            && t.db.board == (if from == to then s.db.board else BoardWiped(s.db.board, user, from))
            && t.db.ledger == s.db.ledger && KeptOf(t, user) == KeptOf(s, user)
            && call in t.changes && t.changes[call].stage == (if from == to then Stored else Wiped)
  {
  }

  /** A new rate is what the next call for its event pays, if that is paid at all. */
  lemma NewRateIsPaid(s: Sys, eventKey: string, rate: int, user: string, day: int)
    requires rate != 0 && user in s.db.users && !CappedOut(s.db, CapKey(user, eventKey, day))
    ensures var t := Step(Step(s, SetRate(eventKey, rate)), Award(user, eventKey, day));
            && t.db.ledger == s.db.ledger + [Row(user, eventKey, rate, rate, day)]
            && user in t.db.users && Gains(s.db.users, t.db.users, user, rate, rate)
            && KeptOf(t, user) == KeptOf(s, user) + {|s.db.ledger|} && t.changes == s.changes
  {
    AwardPays(Step(s, SetRate(eventKey, rate)).db, user, eventKey, day);
  }

  /** A redemption that is covered is reflected in the totals at once; any other changes nothing. */
  lemma RedemptionIsReflected(s: Sys, user: string, cost: int, day: int)
    ensures var t := Step(s, Redeem(user, cost, day));
            var covered := user in s.db.users && cost <= s.db.users[user].spendableXp;
            && (covered ==>
                  && t.db.ledger == s.db.ledger + [Row(user, "redemption", 0, -cost, day)]
                  && user in t.db.users && Gains(s.db.users, t.db.users, user, 0, -cost)
                  && KeptOf(t, user) == KeptOf(s, user) + {|s.db.ledger|} && t.changes == s.changes)
            && (!covered ==> t == s)
  {
    RedemptionIsPaidFor(s.db, user, cost, day);
  }

  // ----- Levels ------------------------------------------------------------------------------------

  lemma {:induction false} PartMembers(rows: seq<Row>, kept: set<nat>)
    ensures forall row <- Part(rows, kept) :: row in rows
  {
    if rows != [] { PartMembers(rows[..|rows| - 1], kept); }
  }

  /** With no negative row the level is the level of the total, whatever saves overlap awards. */
  lemma {:induction false} LevelMatchesTotal(examTypes: map<string, string>, events: seq<Event>, user: string)
    requires user in Run(examTypes, events).db.users
    requires forall row <- Run(examTypes, events).db.ledger :: row.levelXp >= 0
    ensures var u := Run(examTypes, events).db.users[user];
            u.currentLevel == LevelForXp(u.levelXp) && 0 <= XpIntoLevel(u.levelXp) < XpToNextLevel(u.currentLevel)
  {
    var s := Run(examTypes, events);
    ReachableInv(examTypes, events);
    assert Reflects(s.db.users[user], s.db.ledger, s.kept[user], user);
    PartMembers(s.db.ledger, s.kept[user]);
    HighWaterIsTotal(Part(s.db.ledger, s.kept[user]), user);
    ProgressWithinLevel(s.db.users[user].levelXp);
  }

  /**
    After any run the two progress figures belong to one level exactly if the total has not fallen below the
    threshold of the level once reached; then the bar is neither negative nor full.
   */
  lemma {:induction false} SnapshotBelongsToOneLevelIff(examTypes: map<string, string>, events: seq<Event>,
          user: string)
    requires user in Run(examTypes, events).db.users
    ensures var x := SnapshotOf(Run(examTypes, events).db.users[user]);
            && (OneLevel(x) <==> x.currentLevel == 1 || Threshold(x.currentLevel) <= x.levelXp)
            && LevelForXp(x.levelXp) <= x.currentLevel
            && (OneLevel(x) && x.levelXp >= 0 ==> 0 <= x.xpIntoLevel < x.xpToNextLevel)
  {
    var s := Run(examTypes, events);
    ReachableInv(examTypes, events);
    assert Reflects(s.db.users[user], s.db.ledger, s.kept[user], user);
    var rows := Part(s.db.ledger, s.kept[user]);
    LevelIsMonotone(LevelSum(rows, user), HighWater(rows, user));
    var (level, xp) := (s.db.users[user].currentLevel, s.db.users[user].levelXp);
    if xp >= 0 { ProgressWithinLevel(xp); }
    if LevelForXp(xp) < level { ThresholdsIncrease(LevelForXp(xp) + 1, level); }
  }

  // ----- The daily cap -------------------------------------------------------------------------------

  /** Did this event put an awardXp row for the key into the ledger? */
  predicate CappedAward(s: Sys, e: Event, k: CapKey) {
    && (e.Award? || (e.AwardAmount? && e.amount <= 0))
    && CapKey(e.user, e.eventKey, e.day) == k
    && |Step(s, e).db.ledger| > |s.db.ledger|
  }

  function CappedAwards(examTypes: map<string, string>, events: seq<Event>, k: CapKey): nat {
    if events == [] then 0
    else
      var before := events[..|events| - 1];
      var e := events[|events| - 1];
      CappedAwards(examTypes, before, k) + if CappedAward(Run(examTypes, before), e, k) then 1 else 0
  }

  lemma StepCountsCappedAwards(s: Sys, e: Event, k: CapKey)
    ensures CapCount(Step(s, e).db, k) >= CapCount(s.db, k)
    ensures CappedAward(s, e, k) ==> CapCount(s.db, k) < CapCount(Step(s, e).db, k) <= EVENT_KEY_DAILY_CAP
  {
  }

  /** With each award one step, awardXp pays a user for one event at most 500 times a day. */
  lemma {:induction false} DailyCapHolds(examTypes: map<string, string>, events: seq<Event>, k: CapKey)
    ensures CappedAwards(examTypes, events, k) <= CapCount(Run(examTypes, events).db, k)
    ensures CappedAwards(examTypes, events, k) <= EVENT_KEY_DAILY_CAP
  {
    if events != [] {
      var before := events[..|events| - 1];
      DailyCapHolds(examTypes, before, k);
      StepCountsCappedAwards(Run(examTypes, before), events[|events| - 1], k);
    }
  }

  /** An awardXp call for the key that finds a rate. */
  ghost predicate CountsCall(s: Sys, e: Event, k: CapKey) {
    && (e.Award? || (e.AwardAmount? && e.amount <= 0))
    && CapKey(e.user, e.eventKey, e.day) == k && Rated(s.db, e.eventKey)
  }

  ghost function CountedCalls(examTypes: map<string, string>, events: seq<Event>, k: CapKey): nat {
    if events == [] then 0
    else
      var before := events[..|events| - 1];
      var e := events[|events| - 1];
      CountedCalls(examTypes, before, k) + if CountsCall(Run(examTypes, before), e, k) then 1 else 0
  }

  lemma StepCounts(s: Sys, e: Event, k: CapKey)
    ensures CapCount(Step(s, e).db, k) == CapCount(s.db, k) + if CountsCall(s, e, k) then 1 else 0
  {
  }

  lemma StepPaysBelowTheCap(s: Sys, e: Event, k: CapKey)
    requires k.user in s.db.users
    ensures CappedAward(s, e, k) <==> CountsCall(s, e, k) && CapCount(s.db, k) < 500
  {
    if (e.Award? || (e.AwardAmount? && e.amount <= 0)) && CapKey(e.user, e.eventKey, e.day) == k {
      AwardPaysNothingIff(s.db, e.user, e.eventKey, e.day);
      AwardCommits(s.db, e.user, e.eventKey, e.day);
    }
  }

  lemma StepKeepsUsers(s: Sys, e: Event)
    requires ChangesInv(s)
    ensures Step(s, e).db.users.Keys == s.db.users.Keys
  {
    if IsTransaction(e) { TransactionCommits(s, e); }
  }

  lemma {:induction false} UsersStay(examTypes: map<string, string>, events: seq<Event>)
    ensures Run(examTypes, events).db.users.Keys == examTypes.Keys
  {
    if events != [] {
      var (before, e) := (events[..|events| - 1], events[|events| - 1]);
      UsersStay(examTypes, before);
      ReachableInv(examTypes, before);
      StepKeepsUsers(Run(examTypes, before), e);
    }
  }

  /** For every run: of the calls for a user, event and date that find a rate exactly the first 500 are paid. */
  lemma {:induction false} FirstFiveHundredArePaid(examTypes: map<string, string>, events: seq<Event>, k: CapKey)
    requires k.user in examTypes
    ensures var calls := CountedCalls(examTypes, events, k);
            && CapCount(Run(examTypes, events).db, k) == calls
            && CappedAwards(examTypes, events, k) == if calls <= 500 then calls else 500
  {
    if events != [] {
      var (before, e) := (events[..|events| - 1], events[|events| - 1]);
      FirstFiveHundredArePaid(examTypes, before, k);
      UsersStay(examTypes, before);
      StepCounts(Run(examTypes, before), e, k);
      StepPaysBelowTheCap(Run(examTypes, before), e, k);
    }
  }
}
