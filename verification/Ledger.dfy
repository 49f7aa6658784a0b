/**
  The XP ledger: append-only rows, the totals and level kept on the user row, the weekly and
  monthly leaderboard buckets kept by upserts, and the batch job that rebuilds the buckets from
  the ledger. A transaction is one step. Days are day numbers.
 */
module Ledger {
  import opened Calendar
  import opened Levels

  // ----- Tables --------------------------------------------------------------------------

  datatype Period = Weekly | Monthly

  datatype Row = Row(user: string, eventKey: string, levelXp: int, spendableXp: int, day: int)

  datatype User = User(levelXp: int, spendableXp: int, currentLevel: int, examType: string)

  /** Unique key of leaderboard_entries in the national scope. */
  datatype BoardKey = BoardKey(user: string, examType: string, period: Period, start: int)

  datatype CapKey = CapKey(user: string, eventKey: string, day: int)

  datatype Db = Db(users: map<string, User>, ledger: seq<Row>, board: map<BoardKey, int>,
                   rates: map<string, int>, capCounters: map<CapKey, nat>)

  const EVENT_KEY_DAILY_CAP := 500

  function PeriodStart(p: Period, day: int): int {
    if p.Weekly? then MondayOf(day) else MonthStartOf(day)
  }

  // ----- Operations ----------------------------------------------------------------------

  function Bump(board: map<BoardKey, int>, k: BoardKey, amount: int): map<BoardKey, int> {
    board[k := (if k in board then board[k] else 0) + amount]
  }

  function LeaderboardBumped(board: map<BoardKey, int>, user: string, examType: string, amount: int,
                             day: int): map<BoardKey, int> {
    if amount <= 0 then board
    else
      var week := BoardKey(user, examType, Weekly, PeriodStart(Weekly, day));
      var month := BoardKey(user, examType, Monthly, PeriodStart(Monthly, day));
      Bump(Bump(board, week, amount), month, amount)
  }

  function XpApplied(db: Db, user: string, eventKey: string, amount: int, day: int): Db {
    if user !in db.users then db  // the transaction is rolled back
    else
      var u := db.users[user];
      var total := u.levelXp + amount;
      var level := if LevelForXp(total) > u.currentLevel then LevelForXp(total) else u.currentLevel;
      db.(ledger := db.ledger + [Row(user, eventKey, amount, amount, day)],
          users := db.users[user := User(total, u.spendableXp + amount, level, u.examType)],
          board := LeaderboardBumped(db.board, user, u.examType, amount, day))
  }

  function CapCount(db: Db, k: CapKey): nat { if k in db.capCounters then db.capCounters[k] else 0 }

  predicate HasRate(db: Db, eventKey: string) { eventKey in db.rates && db.rates[eventKey] != 0 }

  /** The counter advances on every call that passes the rate gate, even one that is then refused. */
  function AwardCounted(db: Db, k: CapKey): Db { db.(capCounters := db.capCounters[k := CapCount(db, k) + 1]) }

  function XpAwarded(db: Db, user: string, eventKey: string, day: int): Db {
    if !HasRate(db, eventKey) then db
    else
      var counted := AwardCounted(db, CapKey(user, eventKey, day));
      if CapCount(counted, CapKey(user, eventKey, day)) > EVENT_KEY_DAILY_CAP then counted
      else XpApplied(counted, user, eventKey, db.rates[eventKey], day)
  }

  function XpRedeemed(db: Db, user: string, cost: int, day: int): Db {
    if user !in db.users || db.users[user].spendableXp < cost then db
    else
      var u := db.users[user];
      db.(ledger := db.ledger + [Row(user, "redemption", 0, -cost, day)],
          users := db.users[user := u.(spendableXp := u.spendableXp - cost)])
  }

  /** The delete of a user's entries on one board. */
  function BoardWiped(board: map<BoardKey, int>, user: string, examType: string): map<BoardKey, int> {
    map k | k in board && !(k.user == user && k.examType == examType) :: board[k]
  }

  function XpAmountAwarded(db: Db, user: string, amount: int, eventKey: string, day: int): Db {
    if amount <= 0 then XpAwarded(db, user, eventKey, day) else XpApplied(db, user, eventKey, amount, day)
  }

  function InitialDb(examTypes: map<string, string>): Db {
    Db(map u | u in examTypes :: User(0, 0, 1, examTypes[u]), [], map[], map[], map[])
  }

  // ----- What one call pays ----------------------------------------------------------------

  /** Nothing but the user's own totals and level changes, and the level only ever upwards. */
  ghost predicate Gains(before: map<string, User>, after: map<string, User>, user: string, levelXp: int,
                        spendableXp: int)
    requires user in before && user in after
  {
    && after == before[user := after[user]]
    && after[user].levelXp == before[user].levelXp + levelXp
    && after[user].spendableXp == before[user].spendableXp + spendableXp
    && after[user].examType == before[user].examType && after[user].currentLevel >= before[user].currentLevel
  }

  ghost predicate CappedOut(db: Db, k: CapKey) { k in db.capCounters && db.capCounters[k] >= 500 }

  ghost predicate Rated(db: Db, eventKey: string) { eventKey in db.rates && db.rates[eventKey] != 0 }

  /** Up to the 500th of a date, a call for a known user and a rated event pays the rate, and says so in the ledger. */
  lemma AwardPays(db: Db, user: string, eventKey: string, day: int)
    requires user in db.users && Rated(db, eventKey) && !CappedOut(db, CapKey(user, eventKey, day))
    ensures var (t, rate) := (XpAwarded(db, user, eventKey, day), db.rates[eventKey]);
            && t.ledger == db.ledger + [Row(user, eventKey, rate, rate, day)]
            && user in t.users && Gains(db.users, t.users, user, rate, rate)
            && t.rates == db.rates
  {
  }

  /** What is earned counts in the bucket of its Monday-first week and in that of its calendar month, and no other. */
  lemma EarnedInWeekAndMonth(board: map<BoardKey, int>, user: string, examType: string, amount: int, day: int)
    ensures var now := LeaderboardBumped(board, user, examType, amount, day);
            var week := BoardKey(user, examType, Weekly, MondayOf(day));
            var month := BoardKey(user, examType, Monthly, MonthStartOf(day));
            && (amount <= 0 ==> now == board)
            && (amount > 0 ==>
                  && now == board[week := now[week]][month := now[month]]
                  && now[week] == (if week in board then board[week] + amount else amount)
                  && now[month] == (if month in board then board[month] + amount else amount))
  {
  }

  /** And it pays nothing exactly if the rate is missing or 0, the user unknown, or 500 calls were counted that date. */
  lemma AwardPaysNothingIff(db: Db, user: string, eventKey: string, day: int)
    ensures var t := XpAwarded(db, user, eventKey, day);
            var nothing := !Rated(db, eventKey) || user !in db.users || CappedOut(db, CapKey(user, eventKey, day));
            && (t.ledger == db.ledger <==> nothing)
            && (nothing ==> t.users == db.users && t.board == db.board)
  {
    if Rated(db, eventKey) && user in db.users && !CappedOut(db, CapKey(user, eventKey, day)) {
      AwardPays(db, user, eventKey, day);
      assert |XpAwarded(db, user, eventKey, day).ledger| > |db.ledger|;
    }
  }

  /** A given positive amount is paid whatever the rates and counters; otherwise the rate is. */
  lemma AmountIsPaid(db: Db, user: string, amount: int, eventKey: string, day: int)
    ensures var t := XpAmountAwarded(db, user, amount, eventKey, day);
            && (amount > 0 && user in db.users ==>
                  && t.ledger == db.ledger + [Row(user, eventKey, amount, amount, day)]
                  && user in t.users && Gains(db.users, t.users, user, amount, amount)
                  && t.capCounters == db.capCounters)
            && (amount > 0 && user !in db.users ==> t == db)
            && (amount <= 0 ==> t == XpAwarded(db, user, eventKey, day))
  {
  }

  /** A redemption takes its cost from the spendable total alone, exactly if there is that much. */
  lemma RedemptionIsPaidFor(db: Db, user: string, cost: int, day: int)
    ensures var t := XpRedeemed(db, user, cost, day);
            && (user in db.users && cost <= db.users[user].spendableXp ==>
                  && t.ledger == db.ledger + [Row(user, "redemption", 0, -cost, day)]
                  && user in t.users && Gains(db.users, t.users, user, 0, -cost)
                  && t.users[user].spendableXp >= 0 && t.users[user].currentLevel == db.users[user].currentLevel
                  && t.board == db.board)
            && (!(user in db.users && cost <= db.users[user].spendableXp) ==> t == db)
  {
  }

  // ----- Totals and levels ---------------------------------------------------------------

  function LevelSum(rows: seq<Row>, user: string): int {
    if rows == [] then 0
    else
      var last := rows[|rows| - 1];
      LevelSum(rows[..|rows| - 1], user) + if last.user == user then last.levelXp else 0
  }

  function SpendableSum(rows: seq<Row>, user: string): int {
    if rows == [] then 0
    else
      var last := rows[|rows| - 1];
      SpendableSum(rows[..|rows| - 1], user) + if last.user == user then last.spendableXp else 0
  }

  /** The largest total a user's rows ever summed to. */
  function HighWater(rows: seq<Row>, user: string): (w: int)
    ensures w >= LevelSum(rows, user) && w >= 0
  {
    if rows == [] then 0
    else
      var before := HighWater(rows[..|rows| - 1], user);
      if LevelSum(rows, user) > before then LevelSum(rows, user) else before
  }

  ghost predicate TotalsOf(row: User, rows: seq<Row>, user: string) {
    && row.levelXp == LevelSum(rows, user)
    && row.spendableXp == SpendableSum(rows, user)
    && row.currentLevel == LevelForXp(HighWater(rows, user))
  }

  lemma TotalsOfExtended(rows: seq<Row>, row: Row, user: string)
    ensures var mine := row.user == user;
            && LevelSum(rows + [row], user) == LevelSum(rows, user) + (if mine then row.levelXp else 0)
            && SpendableSum(rows + [row], user) == SpendableSum(rows, user) + (if mine then row.spendableXp else 0)
            && HighWater(rows + [row], user) == (if LevelSum(rows + [row], user) > HighWater(rows, user)
                                                 then LevelSum(rows + [row], user) else HighWater(rows, user))
  {
    assert (rows + [row])[..|rows|] == rows;
  }

  /** What committing one row does to its user's row. */
  predicate Adds(u: User, row: Row, now: User) {
    && now.levelXp == u.levelXp + row.levelXp && now.spendableXp == u.spendableXp + row.spendableXp
    && now.examType == u.examType
    && now.currentLevel ==
       if row.levelXp != 0 && LevelForXp(now.levelXp) > u.currentLevel then LevelForXp(now.levelXp) else u.currentLevel
  }

  lemma TotalsAfterRow(u: User, rows: seq<Row>, row: Row, now: User)
    requires TotalsOf(u, rows, row.user) && Adds(u, row, now)
    ensures TotalsOf(now, rows + [row], row.user)
  {
    TotalsOfExtended(rows, row, row.user);
    if now.levelXp <= HighWater(rows, row.user) { LevelIsMonotone(now.levelXp, HighWater(rows, row.user)); }
    else { LevelIsMonotone(HighWater(rows, row.user), now.levelXp); }
  }

  /** A transaction commits nothing, or one row of its user, which it adds to the user row. */
  ghost predicate Commits(db: Db, user: string, after: Db) {
    if |after.ledger| == |db.ledger| then after.ledger == db.ledger && after.users == db.users
    else
      && user in db.users && user in after.users && |after.ledger| == |db.ledger| + 1
      && after.ledger[..|db.ledger|] == db.ledger && after.ledger[|db.ledger|].user == user
      && after.users == db.users[user := after.users[user]]
      && Adds(db.users[user], after.ledger[|db.ledger|], after.users[user])
  }

  lemma ApplyCommits(db: Db, user: string, eventKey: string, amount: int, day: int)
    requires amount != 0
    ensures Commits(db, user, XpApplied(db, user, eventKey, amount, day))
  {
  }

  lemma AwardCommits(db: Db, user: string, eventKey: string, day: int)
    ensures Commits(db, user, XpAwarded(db, user, eventKey, day))
  {
    if HasRate(db, eventKey) {
      ApplyCommits(AwardCounted(db, CapKey(user, eventKey, day)), user, eventKey, db.rates[eventKey], day);
    }
  }

  lemma RedeemCommits(db: Db, user: string, cost: int, day: int)
    ensures Commits(db, user, XpRedeemed(db, user, cost, day))
  {
  }

  lemma LevelIsZeroAtStart()
    ensures LevelForXp(0) == 1
  {
    FittingLevelIsUnique(LevelForXp(0), 1, 0);
  }

  /** With no negative row the high-water mark is the total, so the level is the level of the total. */
  lemma {:induction false} HighWaterIsTotal(rows: seq<Row>, user: string)
    requires forall row <- rows :: row.levelXp >= 0
    ensures HighWater(rows, user) == LevelSum(rows, user)
  {
    if rows != [] { HighWaterIsTotal(rows[..|rows| - 1], user); }
  }

  // ----- Backfill --------------------------------------------------------------------------

  /** The backfill sums the positive rows of a user and period, whatever they were earned under. */
  predicate Matches(row: Row, k: BoardKey) {
    row.levelXp > 0 && row.user == k.user && PeriodStart(k.period, row.day) == k.start
  }

  function GroupSum(rows: seq<Row>, k: BoardKey): (sum: nat) {
    if rows == [] then 0
    else GroupSum(rows[..|rows| - 1], k) + (if Matches(rows[|rows| - 1], k) then rows[|rows| - 1].levelXp else 0)
  }

  function GroupKey(users: map<string, User>, row: Row, p: Period): BoardKey
    requires row.user in users
  {
    BoardKey(row.user, users[row.user].examType, p, PeriodStart(p, row.day))
  }

  function Groups(users: map<string, User>, rows: seq<Row>, p: Period): set<BoardKey> {
    set row | row in rows && row.levelXp > 0 && row.user in users :: GroupKey(users, row, p)
  }

  /** One INSERT .. SELECT .. GROUP BY .. ON CONFLICT DO UPDATE SET weekly_xp = EXCLUDED.weekly_xp. */
  function UpsertGroups(board: map<BoardKey, int>, users: map<string, User>, rows: seq<Row>,
                        p: Period): map<BoardKey, int> {
    board + map k | k in Groups(users, rows, p) :: GroupSum(rows, k)
  }

  function Backfilled(db: Db): Db {
    db.(board := UpsertGroups(UpsertGroups(db.board, db.users, db.ledger, Weekly), db.users, db.ledger, Monthly))
  }

  lemma UpsertedBucket(board: map<BoardKey, int>, users: map<string, User>, rows: seq<Row>, p: Period, k: BoardKey)
    ensures k in Groups(users, rows, p) ==> k.period == p
    ensures var upserted := UpsertGroups(board, users, rows, p);
            && (k in upserted <==> k in board || k in Groups(users, rows, p))
            && (k in upserted ==> upserted[k] == if k in Groups(users, rows, p) then GroupSum(rows, k) else board[k])
  {
  }

  ghost predicate Grouped(db: Db, k: BoardKey) { k in Groups(db.users, db.ledger, k.period) }

  /** What the two upserts leave in the board. */
  lemma BackfilledBoard(db: Db, k: BoardKey)
    ensures k in Backfilled(db).board <==> k in db.board || Grouped(db, k)
    ensures k in Backfilled(db).board ==>
              Backfilled(db).board[k] == if Grouped(db, k) then GroupSum(db.ledger, k) else db.board[k]
  {
    UpsertedBucket(db.board, db.users, db.ledger, Weekly, k);
    UpsertedBucket(UpsertGroups(db.board, db.users, db.ledger, Weekly), db.users, db.ledger, Monthly, k);
    assert k.period == Weekly || k.period == Monthly;
  }

  /** Running the script again changes nothing. */
  lemma BackfillIsIdempotent(db: Db)
    ensures Backfilled(Backfilled(db)) == Backfilled(db)
  {
    var once := Backfilled(db);
    forall k: BoardKey ensures AgreeAt(Backfilled(once).board, once.board, k) { UpsertingAgain(db, k); }
    SameBoard(Backfilled(once).board, once.board);
  }

  ghost predicate AgreeAt(a: map<BoardKey, int>, b: map<BoardKey, int>, k: BoardKey) {
    (k in a <==> k in b) && (k in a ==> a[k] == b[k])
  }

  lemma SameBoard(a: map<BoardKey, int>, b: map<BoardKey, int>)
    requires forall k: BoardKey :: AgreeAt(a, b, k)
    ensures a == b
  {
    forall k: BoardKey ensures (k in a <==> k in b) && (k in a ==> a[k] == b[k]) { assert AgreeAt(a, b, k); }
  }

  lemma UpsertingAgain(db: Db, k: BoardKey)
    ensures AgreeAt(Backfilled(Backfilled(db)).board, Backfilled(db).board, k)
  {
    BackfilledBoard(db, k);
    BackfilledBoard(Backfilled(db), k);
    assert Grouped(Backfilled(db), k) == Grouped(db, k);
  }

  // ----- The service -----------------------------------------------------------------------

  /** The part of a reply that describes the user: the totals, the stored level and the two progress figures. */
  datatype XpSnapshot = XpSnapshot(levelXp: int, spendableXp: int, currentLevel: int, xpIntoLevel: int,
                                   xpToNextLevel: int)

  datatype AwardResult = AwardResult(awarded: bool, xpAmount: int, leveledUp: bool, snapshot: XpSnapshot)

  /** `xpIntoLevel` follows the total, `xpToNextLevel` the stored level. */
  function SnapshotOf(u: User): XpSnapshot {
    XpSnapshot(u.levelXp, u.spendableXp, u.currentLevel, XpIntoLevel(u.levelXp), XpToNextLevel(u.currentLevel))
  }

  predicate OneLevel(x: XpSnapshot) { LevelForXp(x.levelXp) == x.currentLevel }

  class GamificationService {
    var users: map<string, User>
    var ledger: seq<Row>
    var board: map<BoardKey, int>
    var rates: map<string, int>
    var capCounters: map<CapKey, nat>

    function View(): Db reads this { Db(users, ledger, board, rates, capCounters) }

    constructor (examTypes: map<string, string>)
      ensures View() == InitialDb(examTypes)
    {
      users := map u | u in examTypes :: User(0, 0, 1, examTypes[u]);
      ledger, board, rates, capCounters := [], map[], map[], map[];
    }

    /** The snapshot of a user; an unknown one is at level 1 with nothing. */
    function Snapshot(user: string): (x: XpSnapshot)
      reads this
      ensures user !in users ==> OneLevel(x)
    {
      if user in users then SnapshotOf(users[user]) else SnapshotOf(User(0, 0, 1, ""))
    }

    lemma SnapshotShowsTheRow(user: string)
      ensures var x := Snapshot(user);
              && (user in users ==>
                    x.levelXp == users[user].levelXp && x.spendableXp == users[user].spendableXp
                    && x.currentLevel == users[user].currentLevel)
              && (user !in users ==> x == XpSnapshot(0, 0, 1, 0, 100))
    {
      assert OneLevel(SnapshotOf(User(0, 0, 1, "")));
      LevelByTable(0);
    }

    function NotAwarded(user: string): AwardResult reads this { AwardResult(false, 0, false, Snapshot(user)) }

    method BumpLeaderboard(user: string, examType: string, amount: int, day: int)
      modifies this`board
      ensures board == LeaderboardBumped(old(board), user, examType, amount, day)
    {
      if amount <= 0 { return; }
      var periods := [Weekly, Monthly];
      for i := 0 to |periods|
        invariant i == 0 ==> board == old(board)
        invariant i == 1 ==>
                    board == Bump(old(board), BoardKey(user, examType, Weekly, PeriodStart(Weekly, day)), amount)
        invariant i == 2 ==> board == LeaderboardBumped(old(board), user, examType, amount, day)
      {
        board := Bump(board, BoardKey(user, examType, periods[i], PeriodStart(periods[i], day)), amount);
      }
    }

    /** One transaction; None when the user is gone and everything is rolled back. */
    method ApplyXp(user: string, eventKey: string, amount: int, day: int) returns (r: AwardResult)
      modifies this
      ensures View() == XpApplied(old(View()), user, eventKey, amount, day)
      ensures r.awarded <==> user in users
      ensures r.snapshot == Snapshot(user) && r.xpAmount == if r.awarded then amount else 0
      ensures r.leveledUp <==> user in old(users) && users[user].currentLevel != old(users)[user].currentLevel
    {
      if user !in users { return NotAwarded(user); }
      ledger := ledger + [Row(user, eventKey, amount, amount, day)];
      users := users[user := users[user].(levelXp := users[user].levelXp + amount,
                                          spendableXp := users[user].spendableXp + amount)];
      var reloaded := users[user];
      BumpLeaderboard(user, reloaded.examType, amount, day);
      var newLevel := ComputeLevelForXp(reloaded.levelXp);
      var leveledUp := newLevel > reloaded.currentLevel;
      if leveledUp {
        users := users[user := reloaded.(currentLevel := newLevel)];
      }
      r := AwardResult(true, amount, leveledUp, Snapshot(user));
    }

    method AwardXp(user: string, eventKey: string, day: int) returns (r: AwardResult)
      modifies this
      ensures View() == XpAwarded(old(View()), user, eventKey, day)
      ensures r.awarded <==> |ledger| > |old(ledger)|
      ensures r.awarded <==>
                user in old(users) && Rated(old(View()), eventKey)
                && !CappedOut(old(View()), CapKey(user, eventKey, day))
      ensures r.snapshot == Snapshot(user)
      ensures r.xpAmount == if r.awarded && eventKey in rates then rates[eventKey] else 0
      ensures !r.awarded ==> !r.leveledUp
    {
      if eventKey !in rates || rates[eventKey] == 0 { return NotAwarded(user); }
      var k := CapKey(user, eventKey, day);
      var count := (if k in capCounters then capCounters[k] else 0) + 1;
      capCounters := capCounters[k := count];
      if count > EVENT_KEY_DAILY_CAP { return NotAwarded(user); }
      r := ApplyXp(user, eventKey, rates[eventKey], day);
    }

    method AwardXpAmount(user: string, amount: int, eventKey: string, day: int) returns (r: AwardResult)
      modifies this
      ensures View() == XpAmountAwarded(old(View()), user, amount, eventKey, day)
      ensures r.snapshot == Snapshot(user) && (r.awarded <==> |ledger| > |old(ledger)|)
      ensures r.awarded && amount > 0 ==> r.xpAmount == amount
      ensures r.awarded && amount <= 0 ==> eventKey in rates && r.xpAmount == rates[eventKey]
    {
      if amount <= 0 { r := AwardXp(user, eventKey, day); } else { r := ApplyXp(user, eventKey, amount, day); }
    }

    /** The leaderboard rebuild, one upsert per period type. */
    method Backfill()
      modifies this`board
      ensures View() == Backfilled(old(View()))
    {
      board := UpsertGroups(board, users, ledger, Weekly);
      board := UpsertGroups(board, users, ledger, Monthly);
    }
  }
}
