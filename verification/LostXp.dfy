/**
  Which ledger rows a user's totals miss, said of the events of a run: the awards and redemptions committed
  between the read and the save of a call that writes the whole user row, and not restored since.
 */
module LostXp {
  import opened Ledger
  import opened LedgerRuns
  import opened Wrappers

  ghost predicate StepsTo(events: seq<Event>, states: seq<Sys>, i: nat)
    requires i < |events| && |states| == |events| + 1
  {
    Allowed(states[i], events[i]) && states[i + 1] == Step(states[i], events[i])
  }

  /** The states a run goes through: states[i] is the one before the i-th event. */
  ghost predicate Trace(examTypes: map<string, string>, events: seq<Event>, states: seq<Sys>) {
    && |states| == |events| + 1 && states[0] == Initial(examTypes)
    && forall i: nat | i < |events| :: StepsTo(events, states, i)
  }

  lemma {:induction false} TraceIsRun(examTypes: map<string, string>, events: seq<Event>, states: seq<Sys>, i: nat)
    requires Trace(examTypes, events, states) && i <= |events|
    ensures AllAllowed(examTypes, events[..i]) && Run(examTypes, events[..i]) == states[i] && Inv(states[i])
  {
    if i > 0 {
      TraceIsRun(examTypes, events, states, i - 1);
      assert StepsTo(events, states, i - 1);
      assert events[..i][..i - 1] == events[..i - 1];
    }
    ReachableInv(examTypes, events[..i]);
  }

  /** Every run has its trace, which ends in the run's state. */
  lemma {:induction false} RunHasATrace(examTypes: map<string, string>, events: seq<Event>) returns (states: seq<Sys>)
    requires AllAllowed(examTypes, events)
    ensures Trace(examTypes, events, states) && states[|events|] == Run(examTypes, events)
  {
    if events == [] {
      states := [Initial(examTypes)];
    } else {
      var n := |events| - 1;
      var before := RunHasATrace(examTypes, events[..n]);
      states := before + [Run(examTypes, events)];
      forall i: nat | i < |events| ensures StepsTo(events, states, i) {
        if i < n { assert StepsTo(events[..n], before, i); }
      }
    }
  }

  // ----- Events that take effect -------------------------------------------------------------------

  predicate Loads(s: Sys, e: Event, user: string) { e.LoadRow? && e.user == user && user in s.db.users }

  predicate Stores(s: Sys, e: Event, user: string) {
    e.StoreRow? && CanStore(s, e.call) && s.changes[e.call].user == user
  }

  /** An award or a redemption of the user writes its ledger row. */
  predicate Pays(s: Sys, e: Event, user: string) {
    IsTransaction(e) && e.user == user && |Step(s, e).db.ledger| > |s.db.ledger|
  }

  predicate LoadAt(events: seq<Event>, states: seq<Sys>, i: nat, user: string) {
    i < |states| && i < |events| && Loads(states[i], events[i], user)
  }

  predicate StoreAt(events: seq<Event>, states: seq<Sys>, i: nat, user: string) {
    i < |states| && i < |events| && Stores(states[i], events[i], user)
  }

  predicate PaidAt(events: seq<Event>, states: seq<Sys>, i: nat, user: string) {
    i < |states| && i < |events| && Pays(states[i], events[i], user)
  }

  /** The last read of the user's row before n by the call. */
  ghost function LoadOf(events: seq<Event>, states: seq<Sys>, n: nat, call: nat, user: string): (r: nat)
    ensures r <= n
  {
    if n == 0 then 0
    else if LoadAt(events, states, n - 1, user) && events[n - 1].call == call then n - 1
    else LoadOf(events, states, n - 1, call, user)
  }

  /** The row paid at i is in the user's totals after n events: a save that came later had read the row after i too. */
  ghost predicate Reflected(events: seq<Event>, states: seq<Sys>, i: nat, n: nat, user: string)
    decreases n
  {
    if n <= i then false
    else if StoreAt(events, states, n - 1, user)
    then Reflected(events, states, i, LoadOf(events, states, n - 1, events[n - 1].call, user), user)
    else n - 1 == i || Reflected(events, states, i, n - 1, user)
  }

  /** The ledger row written at i. */
  function RowPaid(events: seq<Event>, states: seq<Sys>, i: nat, user: string): Row
    requires PaidAt(events, states, i, user)
  {
    var ledger := Step(states[i], events[i]).db.ledger;
    ledger[|ledger| - 1]
  }

  /** The ledger rows of the user among the first k events that its totals after n events miss. */
  ghost function LostRows(events: seq<Event>, states: seq<Sys>, k: nat, n: nat, user: string): seq<Row>
  {
    if k == 0 then []
    else
      var before := LostRows(events, states, k - 1, n, user);
      if PaidAt(events, states, k - 1, user) && !Reflected(events, states, k - 1, n, user)
      then before + [RowPaid(events, states, k - 1, user)] else before
  }

  // ----- What a step does to the ledger and to what is kept ------------------------------------------

  lemma StepOfOthers(s: Sys, e: Event, user: string)
    requires Inv(s) && !Stores(s, e, user) && !Pays(s, e, user)
    ensures KeptOf(Step(s, e), user) == KeptOf(s, user)
    ensures s.db.ledger <= Step(s, e).db.ledger && |Step(s, e).db.ledger| <= |s.db.ledger| + 1
    ensures |Step(s, e).db.ledger| > |s.db.ledger| ==> Step(s, e).db.ledger[|s.db.ledger|].user != user
  {
    if IsTransaction(e) {
      TransactionCommits(s, e);
      OthersTransaction(s, e.user, Step(s, e).db, user);
    }
  }

  lemma OthersTransaction(s: Sys, payee: string, after: Db, user: string)
    requires Commits(s.db, payee, after) && (payee == user ==> |after.ledger| == |s.db.ledger|)
    ensures KeptOf(Committed(s, payee, after), user) == KeptOf(s, user)
    ensures s.db.ledger <= after.ledger && |after.ledger| <= |s.db.ledger| + 1
    ensures |after.ledger| > |s.db.ledger| ==> after.ledger[|s.db.ledger|].user != user
  {
  }

  lemma StepPays(s: Sys, e: Event, user: string)
    requires Inv(s) && Pays(s, e, user)
    ensures var t := Step(s, e);
            && KeptOf(t, user) == KeptOf(s, user) + {|s.db.ledger|}
            && |t.db.ledger| == |s.db.ledger| + 1 && t.db.ledger[..|s.db.ledger|] == s.db.ledger
            && t.db.ledger[|s.db.ledger|].user == user
  {
    TransactionCommits(s, e);
  }

  lemma StepStores(s: Sys, e: Event, user: string)
    requires Stores(s, e, user)
    ensures KeptOf(Step(s, e), user) == s.changes[e.call].kept && Step(s, e).db.ledger == s.db.ledger
  {
  }

  lemma StepKeepsChange(s: Sys, e: Event, call: nat)
    requires Allowed(s, e) && call in s.changes
    ensures var t := Step(s, e);
            call in t.changes && t.changes[call].user == s.changes[call].user
            && t.changes[call].kept == s.changes[call].kept
  {
  }

  lemma {:induction false} ChangeWasLoaded(examTypes: map<string, string>, events: seq<Event>, states: seq<Sys>,
                                           n: nat, call: nat)
    requires Trace(examTypes, events, states) && n <= |events| && call in states[n].changes
    ensures var c := states[n].changes[call];
            var r := LoadOf(events, states, n, call, c.user);
            r < n && LoadAt(events, states, r, c.user) && events[r].call == call && c.kept == KeptOf(states[r], c.user)
  {
    assert n > 0;
    assert StepsTo(events, states, n - 1);
    if call in states[n - 1].changes {
      ChangeWasLoaded(examTypes, events, states, n - 1, call);
      StepKeepsChange(states[n - 1], events[n - 1], call);
    }
  }

  function Height(states: seq<Sys>, i: nat): nat
    requires i < |states|
  {
    |states[i].db.ledger|
  }

  lemma LedgerGrows(examTypes: map<string, string>, events: seq<Event>, states: seq<Sys>, i: nat, user: string)
    requires Trace(examTypes, events, states) && i < |events|
    ensures Height(states, i) <= Height(states, i + 1)
    ensures PaidAt(events, states, i, user) ==> Height(states, i) < Height(states, i + 1)
  {
    assert StepsTo(events, states, i);
    TraceIsRun(examTypes, events, states, i);
    if Pays(states[i], events[i], user) {
      StepPays(states[i], events[i], user);
    } else if Stores(states[i], events[i], user) {
      StepStores(states[i], events[i], user);
    } else {
      StepOfOthers(states[i], events[i], user);
    }
  }

  lemma {:induction false} LedgerIsHigher(examTypes: map<string, string>, events: seq<Event>, states: seq<Sys>, i: nat,
                                          n: nat, user: string)
    requires Trace(examTypes, events, states) && i <= n <= |events|
    ensures Height(states, i) <= Height(states, n)
    ensures i < n && PaidAt(events, states, i, user) ==> Height(states, i) < Height(states, n)
  {
    if i < n {
      LedgerIsHigher(examTypes, events, states, i, n - 1, user);
      LedgerGrows(examTypes, events, states, n - 1, user);
    }
  }

  lemma KeptIsBelow(examTypes: map<string, string>, events: seq<Event>, states: seq<Sys>, n: nat, user: string)
    requires Trace(examTypes, events, states) && n <= |events|
    ensures forall j <- KeptOf(states[n], user) :: j < Height(states, n)
  {
    TraceIsRun(examTypes, events, states, n);
    var s := states[n];
    if user in s.kept { assert Reflects(s.db.users[user], s.db.ledger, s.kept[user], user); }
  }

  lemma StoredKept(examTypes: map<string, string>, events: seq<Event>, states: seq<Sys>, t: nat, user: string)
    requires Trace(examTypes, events, states) && StoreAt(events, states, t, user)
    ensures var r := LoadOf(events, states, t, events[t].call, user);
            r < t && KeptOf(states[t + 1], user) == KeptOf(states[r], user)
  {
    assert StepsTo(events, states, t);
    ChangeWasLoaded(examTypes, events, states, t, events[t].call);
    StepStores(states[t], events[t], user);
  }

  lemma NextKept(examTypes: map<string, string>, events: seq<Event>, states: seq<Sys>, i: nat, user: string)
    requires Trace(examTypes, events, states) && i < |events| && !StoreAt(events, states, i, user)
    ensures KeptOf(states[i + 1], user) ==
            KeptOf(states[i], user) + if PaidAt(events, states, i, user) then {Height(states, i)} else {}
  {
    assert StepsTo(events, states, i);
    TraceIsRun(examTypes, events, states, i);
    if PaidAt(events, states, i, user) {
      StepPays(states[i], events[i], user);
    } else {
      StepOfOthers(states[i], events[i], user);
    }
  }

  /** The totals reflect a row exactly if following the saves back to what they had read leads past its payment. */
  lemma {:induction false} KeptIffReflected(examTypes: map<string, string>, events: seq<Event>, states: seq<Sys>,
                                            i: nat, n: nat, user: string)
    requires Trace(examTypes, events, states) && n <= |events| && PaidAt(events, states, i, user)
    ensures Height(states, i) in KeptOf(states[n], user) <==> Reflected(events, states, i, n, user)
    decreases n
  {
    if n <= i {
      LedgerIsHigher(examTypes, events, states, n, i, user);
      KeptIsBelow(examTypes, events, states, n, user);
    } else {
      if StoreAt(events, states, n - 1, user) {
        StoredKept(examTypes, events, states, n - 1, user);
        KeptIffReflected(examTypes, events, states, i, LoadOf(events, states, n - 1, events[n - 1].call, user), user);
      } else {
        KeptIffReflected(examTypes, events, states, i, n - 1, user);
        NextKept(examTypes, events, states, n - 1, user);
        LedgerIsHigher(examTypes, events, states, i, n - 1, user);
      }
    }
  }

  lemma LostAfterRow(rows: seq<Row>, row: Row, kept: set<nat>, user: string)
    ensures Lost(rows + [row], kept, user) ==
            if row.user == user && |rows| !in kept then Lost(rows, kept, user) + [row] else Lost(rows, kept, user)
  {
    assert (rows + [row])[..|rows|] == rows;
  }

  lemma {:induction false} LostRowsAreLost(examTypes: map<string, string>, events: seq<Event>, states: seq<Sys>,
                                           k: nat, n: nat, user: string)
    requires Trace(examTypes, events, states) && k <= |events| && n <= |events|
    ensures LostRows(events, states, k, n, user) == Lost(states[k].db.ledger, KeptOf(states[n], user), user)
  {
    if k > 0 {
      LostRowsAreLost(examTypes, events, states, k - 1, n, user);
      assert StepsTo(events, states, k - 1);
      TraceIsRun(examTypes, events, states, k - 1);
      var (s, e, kept) := (states[k - 1], events[k - 1], KeptOf(states[n], user));
      if PaidAt(events, states, k - 1, user) {
        StepPays(s, e, user);
        KeptIffReflected(examTypes, events, states, k - 1, n, user);
        NextLost(s.db.ledger, states[k].db.ledger, kept, user);
      } else {
        if Stores(s, e, user) { StepStores(s, e, user); } else { StepOfOthers(s, e, user); }
        NextLost(s.db.ledger, states[k].db.ledger, kept, user);
      }
    }
  }

  lemma NextLost(rows: seq<Row>, more: seq<Row>, kept: set<nat>, user: string)
    requires rows <= more && |more| <= |rows| + 1
    ensures Lost(more, kept, user) ==
            if |more| > |rows| && more[|rows|].user == user && |rows| !in kept
            then Lost(rows, kept, user) + [more[|rows|]] else Lost(rows, kept, user)
  {
    if |more| > |rows| {
      LostAfterRow(rows, more[|rows|], kept, user);
      assert more == rows + [more[|rows|]];
    } else {
      assert more == rows;
    }
  }

  // ----- The totals ------------------------------------------------------------------------------------

  lemma SumsAfterRow(rows: seq<Row>, row: Row, user: string)
    ensures var mine := row.user == user;
            && LevelSum(rows + [row], user) == LevelSum(rows, user) + (if mine then row.levelXp else 0)
            && SpendableSum(rows + [row], user) == SpendableSum(rows, user) + (if mine then row.spendableXp else 0)
  {
    assert (rows + [row])[..|rows|] == rows;
  }

  lemma {:induction false} SumsSplit(rows: seq<Row>, kept: set<nat>, user: string)
    ensures LevelSum(rows, user) == LevelSum(Part(rows, kept), user) + LevelSum(Lost(rows, kept, user), user)
    ensures SpendableSum(rows, user) ==
              SpendableSum(Part(rows, kept), user) + SpendableSum(Lost(rows, kept, user), user)
  {
    if rows != [] {
      var (before, row) := (rows[..|rows| - 1], rows[|rows| - 1]);
      SumsSplit(before, kept, user);
      SumsAfterRow(Part(before, kept), row, user);
      SumsAfterRow(Lost(before, kept, user), row, user);
    }
  }

  /**
    After any run a user's totals are the sums of its ledger rows less those of the lost rows: each is the sum
    exactly if the lost rows come to nothing in it.
   */
  lemma {:induction false} TotalsMissTheLostRows(examTypes: map<string, string>, events: seq<Event>, states: seq<Sys>,
          user: string)
    requires Trace(examTypes, events, states) && user in states[|events|].db.users
    ensures var (n, db) := (|events|, states[|events|].db);
            var lost := LostRows(events, states, n, n, user);
            && db.users[user].levelXp == LevelSum(db.ledger, user) - LevelSum(lost, user)
            && db.users[user].spendableXp == SpendableSum(db.ledger, user) - SpendableSum(lost, user)
  {
    var (n, s) := (|events|, states[|events|]);
    TraceIsRun(examTypes, events, states, n);
    LostRowsAreLost(examTypes, events, states, n, n, user);
    assert Reflects(s.db.users[user], s.db.ledger, s.kept[user], user);
    SumsSplit(s.db.ledger, s.kept[user], user);
  }

  lemma {:induction false} LostMembers(rows: seq<Row>, kept: set<nat>, user: string)
    ensures forall row <- Lost(rows, kept, user) :: row in rows && row.user == user
  {
    if rows != [] { LostMembers(rows[..|rows| - 1], kept, user); }
  }

  lemma {:induction false} SumOfNonNegatives(rows: seq<Row>, user: string)
    requires forall row <- rows :: row.user == user && row.levelXp >= 0
    ensures LevelSum(rows, user) >= 0
    ensures LevelSum(rows, user) == 0 <==> forall row <- rows :: row.levelXp == 0
  {
    if rows != [] { SumOfNonNegatives(rows[..|rows| - 1], user); }
  }

  /**
    With no negative row the level total never exceeds the ledger sum, and is it exactly if no lost row earned
    anything.
   */
  lemma {:induction false} LevelTotalIsExactIff(examTypes: map<string, string>, events: seq<Event>, states: seq<Sys>,
          user: string)
    requires Trace(examTypes, events, states) && user in states[|events|].db.users
    requires forall row <- states[|events|].db.ledger :: row.levelXp >= 0
    ensures var (n, db) := (|events|, states[|events|].db);
            && db.users[user].levelXp <= LevelSum(db.ledger, user)
            && (db.users[user].levelXp == LevelSum(db.ledger, user) <==>
                forall row <- LostRows(events, states, n, n, user) :: row.levelXp == 0)
  {
    var n := |events|;
    TotalsMissTheLostRows(examTypes, events, states, user);
    LostRowsAreLost(examTypes, events, states, n, n, user);
    LostMembers(states[n].db.ledger, KeptOf(states[n], user), user);
    SumOfNonNegatives(LostRows(events, states, n, n, user), user);
  }

  /** A call has read the user's row before the payment and saves it after. */
  predicate Straddles(events: seq<Event>, states: seq<Sys>, user: string, r: nat, i: nat, t: nat) {
    && r < i < t && LoadAt(events, states, r, user) && PaidAt(events, states, i, user)
    && StoreAt(events, states, t, user)
    && events[r].call == events[t].call
  }

  lemma {:induction false} ReflectedUnlessStraddled(examTypes: map<string, string>, events: seq<Event>,
          states: seq<Sys>, i: nat, n: nat, user: string)
    requires Trace(examTypes, events, states) && i < n <= |events| && PaidAt(events, states, i, user)
    requires forall r: nat, t: nat :: !Straddles(events, states, user, r, i, t)
    ensures Reflected(events, states, i, n, user)
    decreases n
  {
    if StoreAt(events, states, n - 1, user) {
      ChangeWasLoaded(examTypes, events, states, n - 1, events[n - 1].call);
      var r := LoadOf(events, states, n - 1, events[n - 1].call, user);
      assert !Straddles(events, states, user, r, i, n - 1);
      ReflectedUnlessStraddled(examTypes, events, states, i, r, user);
    } else if n - 1 > i {
      ReflectedUnlessStraddled(examTypes, events, states, i, n - 1, user);
    }
  }

  lemma {:induction false} NothingIsLost(examTypes: map<string, string>, events: seq<Event>, states: seq<Sys>, k: nat,
                                         user: string)
    requires Trace(examTypes, events, states) && k <= |events|
    requires forall r: nat, i: nat, t: nat :: !Straddles(events, states, user, r, i, t)
    ensures LostRows(events, states, k, |events|, user) == []
  {
    if k > 0 {
      NothingIsLost(examTypes, events, states, k - 1, user);
      if PaidAt(events, states, k - 1, user) {
        ReflectedUnlessStraddled(examTypes, events, states, k - 1, |events|, user);
      }
    }
  }

  /**
    With no award or redemption of the user between the read and the save of its row, the totals are the ledger sums.
   */
  lemma {:induction false} TotalsAreLedgerSums(examTypes: map<string, string>, events: seq<Event>, states: seq<Sys>,
          user: string)
    requires Trace(examTypes, events, states) && user in states[|events|].db.users
    requires forall r: nat, i: nat, t: nat :: !Straddles(events, states, user, r, i, t)
    ensures TotalsOf(states[|events|].db.users[user], states[|events|].db.ledger, user)
  {
    var (n, s) := (|events|, states[|events|]);
    TraceIsRun(examTypes, events, states, n);
    LostRowsAreLost(examTypes, events, states, n, n, user);
    NothingIsLost(examTypes, events, states, n, user);
    assert Reflects(s.db.users[user], s.db.ledger, s.kept[user], user);
    SumsSplit(s.db.ledger, s.kept[user], user);
    HighWaterWithoutLost(s.db.ledger, s.kept[user], user);
  }

  lemma {:induction false} HighWaterWithoutLost(rows: seq<Row>, kept: set<nat>, user: string)
    requires Lost(rows, kept, user) == []
    ensures HighWater(rows, user) == HighWater(Part(rows, kept), user)
  {
    if rows != [] {
      var (before, row) := (rows[..|rows| - 1], rows[|rows| - 1]);
      HighWaterWithoutLost(before, kept, user);
      SumsSplit(rows, kept, user);
      if |before| in kept { TotalsOfExtended(Part(before, kept), row, user); }
    }
  }

  // ----- A run that loses XP -----------------------------------------------------------------------

  /** Whatever an award pays between the read and the save of an exam-type change is gone from the row. */
  lemma ChangeUndoesAward(s: Sys, call: nat, user: string, to: string, amount: int, eventKey: string, day: int)
    requires user in s.db.users && call !in s.changes && amount > 0
    ensures var paid := Step(Step(s, LoadRow(call, user, Some(to))), AwardAmount(user, amount, eventKey, day));
            var t := Step(paid, StoreRow(call));
            && t.db.users == s.db.users[user := s.db.users[user].(examType := to)]
            && t.db.ledger == s.db.ledger + [Row(user, eventKey, amount, amount, day)]
  {
    var loaded := Step(s, LoadRow(call, user, Some(to)));
    var paid := Step(loaded, AwardAmount(user, amount, eventKey, day));
    assert paid.db.ledger == s.db.ledger + [Row(user, eventKey, amount, amount, day)];
    assert paid.changes[call].row == s.db.users[user];
  }

  /** An award between the read and the save of an exam-type change: the ledger has its row, the total does not. */
  lemma OverlappingChangeLosesXp(user: string, examType: string, to: string, eventKey: string, day: int)
    returns (events: seq<Event>, states: seq<Sys>)
    ensures events == [LoadRow(0, user, Some(to)), AwardAmount(user, 100, eventKey, day), StoreRow(0)]
    ensures Trace(map[user := examType], events, states)
    ensures var db := states[3].db;
            user in db.users && db.users[user].levelXp == 0 && LevelSum(db.ledger, user) == 100
  {
    events := [LoadRow(0, user, Some(to)), AwardAmount(user, 100, eventKey, day), StoreRow(0)];
    states := ThreeSteps(Initial(map[user := examType]), events);
    ChangeUndoesAward(states[0], 0, user, to, 100, eventKey, day);
    SumsAfterRow([], Row(user, eventKey, 100, 100, day), user);
  }

  lemma ThreeSteps(s: Sys, events: seq<Event>) returns (states: seq<Sys>)
    requires |events| == 3 && Allowed(s, events[0]) && !events[1].LoadRow? && !events[2].LoadRow?
    ensures |states| == 4 && states[0] == s && forall i: nat | i < 3 :: StepsTo(events, states, i)
    ensures states[3] == Step(Step(Step(s, events[0]), events[1]), events[2])
  {
    var first := Step(s, events[0]);
    var second := Step(first, events[1]);
    states := [s, first, second, Step(second, events[2])];
    forall i: nat | i < 3 ensures StepsTo(events, states, i) {
      assert i == 0 || i == 1 || i == 2;
    }
  }
}
