/**
  The leaderboard over runs: each bucket holds what was earned on its board and not wiped since, and the rebuild
  from the ledger agrees with it exactly while all of a user's rows are live on the present board.
 */
module Leaderboard {
  import opened Ledger
  import opened LedgerRuns
  import opened Wrappers

  // ----- Leaderboard buckets ---------------------------------------------------------------

  /**
    History kept beside the ledger: the exam type each row was earned under, and whether its
    contribution is still on the board (a wipe removes the contributions to one board).
   */
  datatype Tag = Tag(examType: string, live: bool)

  function Wipe(rows: seq<Row>, tags: seq<Tag>, user: string, examType: string): (r: seq<Tag>)
    requires |rows| == |tags|
    ensures |r| == |tags|
    ensures forall i | 0 <= i < |r| ::
              r[i] == if rows[i].user == user && tags[i].examType == examType then tags[i].(live := false) else tags[i]
  {
    seq(|tags|, i requires 0 <= i < |tags| =>
      if rows[i].user == user && tags[i].examType == examType then tags[i].(live := false) else tags[i])
  }

  /** A committed row is earned under the exam type its user has by then. */
  function TagsAfter(s: Sys, tags: seq<Tag>, e: Event): (r: seq<Tag>)
    requires |tags| == |s.db.ledger|
    ensures |r| == |Step(s, e).db.ledger|
  {
    if IsTransaction(e) then
      if |Step(s, e).db.ledger| > |s.db.ledger| then tags + [Tag(s.db.users[e.user].examType, true)] else tags
    else if e.WipeBoard? && CanWipe(s, e.call)
    then Wipe(s.db.ledger, tags, s.changes[e.call].user, s.changes[e.call].row.examType)
    else tags
  }

  function Tags(examTypes: map<string, string>, events: seq<Event>): (r: seq<Tag>)
    ensures |r| == |Run(examTypes, events).db.ledger|
  {
    if events == [] then []
    else TagsAfter(Run(examTypes, events[..|events| - 1]), Tags(examTypes, events[..|events| - 1]),
                   events[|events| - 1])
  }

  function LiveSum(rows: seq<Row>, tags: seq<Tag>, k: BoardKey): (sum: nat)
    requires |rows| == |tags|
  {
    if rows == [] then 0
    else
      var n := |rows| - 1;
      LiveSum(rows[..n], tags[..n], k) +
      (if Matches(rows[n], k) && tags[n] == Tag(k.examType, true) then rows[n].levelXp else 0)
  }

  /** A bucket's row exists exactly when something live is in it, and holds the live sum. */
  ghost predicate BucketMatches(board: map<BoardKey, int>, rows: seq<Row>, tags: seq<Tag>, k: BoardKey)
    requires |rows| == |tags|
  {
    && (k in board <==> LiveSum(rows, tags, k) > 0)
    && (k in board ==> board[k] == LiveSum(rows, tags, k))
  }

  ghost predicate BoardMatches(db: Db, tags: seq<Tag>) {
    && |tags| == |db.ledger|
    && (forall k: BoardKey :: BucketMatches(db.board, db.ledger, tags, k))
    && (forall row <- db.ledger :: row.user in db.users)
  }

  lemma {:induction false} WipeClearsOneBoard(rows: seq<Row>, tags: seq<Tag>, user: string, examType: string,
                                              k: BoardKey)
    requires |rows| == |tags|
    ensures LiveSum(rows, Wipe(rows, tags, user, examType), k) ==
            if k.user == user && k.examType == examType then 0 else LiveSum(rows, tags, k)
  {
    if rows != [] {
      var n := |rows| - 1;
      WipeClearsOneBoard(rows[..n], tags[..n], user, examType, k);
      assert Wipe(rows, tags, user, examType)[..n] == Wipe(rows[..n], tags[..n], user, examType);
    }
  }

  lemma LiveSumAfterRow(rows: seq<Row>, tags: seq<Tag>, row: Row, tag: Tag, k: BoardKey)
    requires |rows| == |tags|
    ensures LiveSum(rows + [row], tags + [tag], k) ==
            LiveSum(rows, tags, k) + (if Matches(row, k) && tag == Tag(k.examType, true) then row.levelXp else 0)
  {
    assert (rows + [row])[..|rows|] == rows && (tags + [tag])[..|tags|] == tags;
  }

  lemma ApplyKeepsBoard(db: Db, tags: seq<Tag>, user: string, eventKey: string, amount: int, day: int)
    requires BoardMatches(db, tags) && user in db.users
    ensures BoardMatches(XpApplied(db, user, eventKey, amount, day), tags + [Tag(db.users[user].examType, true)])
  {
    var after, tag := XpApplied(db, user, eventKey, amount, day), Tag(db.users[user].examType, true);
    forall k: BoardKey ensures BucketMatches(after.board, after.ledger, tags + [tag], k) {
      assert BucketMatches(db.board, db.ledger, tags, k);
      LiveSumAfterRow(db.ledger, tags, Row(user, eventKey, amount, amount, day), tag, k);
      BumpedBucket(db.board, user, db.users[user].examType, amount, day, k);
    }
  }

  lemma BumpedBucket(board: map<BoardKey, int>, user: string, examType: string, amount: int, day: int, k: BoardKey)
    ensures var hit := amount > 0 && k.user == user && k.examType == examType && PeriodStart(k.period, day) == k.start;
            var bumped := LeaderboardBumped(board, user, examType, amount, day);
            && (k in bumped <==> k in board || hit)
            && (k in bumped ==> bumped[k] == (if k in board then board[k] else 0) + if hit then amount else 0)
  {
    if amount > 0 {
      assert k.period == Weekly || k.period == Monthly;
    }
  }

  function Tagged(db: Db, tags: seq<Tag>, user: string, after: Db): seq<Tag> {
    if |after.ledger| > |db.ledger| && user in db.users then tags + [Tag(db.users[user].examType, true)] else tags
  }

  lemma AwardKeepsBoard(db: Db, tags: seq<Tag>, user: string, eventKey: string, day: int)
    requires BoardMatches(db, tags)
    ensures BoardMatches(XpAwarded(db, user, eventKey, day), Tagged(db, tags, user, XpAwarded(db, user, eventKey, day)))
  {
    if HasRate(db, eventKey) {
      var counted := AwardCounted(db, CapKey(user, eventKey, day));
      if user in db.users { ApplyKeepsBoard(counted, tags, user, eventKey, db.rates[eventKey], day); }
    }
  }

  lemma RedeemKeepsBoard(db: Db, tags: seq<Tag>, user: string, cost: int, day: int)
    requires BoardMatches(db, tags)
    ensures BoardMatches(XpRedeemed(db, user, cost, day), Tagged(db, tags, user, XpRedeemed(db, user, cost, day)))
  {
    var after := XpRedeemed(db, user, cost, day);
    if user in db.users && db.users[user].spendableXp >= cost {
      forall k: BoardKey ensures BucketMatches(after.board, after.ledger, Tagged(db, tags, user, after), k) {
        assert BucketMatches(db.board, db.ledger, tags, k);
        LiveSumAfterRow(db.ledger, tags, Row(user, "redemption", 0, -cost, day), Tag(db.users[user].examType, true), k);
      }
    }
  }

  lemma TransactionKeepsBoard(s: Sys, tags: seq<Tag>, e: Event)
    requires BoardMatches(s.db, tags) && IsTransaction(e)
    ensures BoardMatches(Step(s, e).db, TagsAfter(s, tags, e))
  {
    match e
    case Award(user, eventKey, day) => AwardKeepsBoard(s.db, tags, user, eventKey, day);
    case AwardAmount(user, amount, eventKey, day) =>
      if amount <= 0 { AwardKeepsBoard(s.db, tags, user, eventKey, day); }
      else if user in s.db.users { ApplyKeepsBoard(s.db, tags, user, eventKey, amount, day); }
    case Redeem(user, cost, day) => RedeemKeepsBoard(s.db, tags, user, cost, day);
  }

  lemma WipeKeepsBoard(s: Sys, tags: seq<Tag>, call: nat)
    requires BoardMatches(s.db, tags) && CanWipe(s, call)
    ensures var c := s.changes[call];
            BoardMatches(OldBoardWiped(s, call).db, Wipe(s.db.ledger, tags, c.user, c.row.examType))
  {
    var c := s.changes[call];
    forall k: BoardKey
      ensures BucketMatches(OldBoardWiped(s, call).db.board, s.db.ledger,
                            Wipe(s.db.ledger, tags, c.user, c.row.examType), k)
    {
      assert BucketMatches(s.db.board, s.db.ledger, tags, k);
      WipeClearsOneBoard(s.db.ledger, tags, c.user, c.row.examType, k);
    }
  }

  lemma StepKeepsBoard(s: Sys, tags: seq<Tag>, e: Event)
    requires BoardMatches(s.db, tags)
    ensures BoardMatches(Step(s, e).db, TagsAfter(s, tags, e))
  {
    if IsTransaction(e) {
      TransactionKeepsBoard(s, tags, e);
    } else if e.WipeBoard? && CanWipe(s, e.call) {
      WipeKeepsBoard(s, tags, e.call);
    } else {
      forall k: BoardKey ensures BucketMatches(Step(s, e).db.board, s.db.ledger, tags, k) {
        assert BucketMatches(s.db.board, s.db.ledger, tags, k);
      }
    }
  }

  /** After any run each bucket holds exactly the positive rows earned under its exam type and not wiped since. */
  lemma {:induction false} BucketsAreLiveSums(examTypes: map<string, string>, events: seq<Event>)
    ensures BoardMatches(Run(examTypes, events).db, Tags(examTypes, events))
  {
    if events != [] {
      var n := |events| - 1;
      BucketsAreLiveSums(examTypes, events[..n]);
      StepKeepsBoard(Run(examTypes, events[..n]), Tags(examTypes, events[..n]), events[n]);
    }
  }

  /** Every positive row was earned under the user's present exam type and survives on its board. */
  ghost predicate AllLive(db: Db, tags: seq<Tag>)
    requires |tags| == |db.ledger| && forall row <- db.ledger :: row.user in db.users
  {
    forall i | 0 <= i < |tags| && db.ledger[i].levelXp > 0 ::
      tags[i] == Tag(db.users[db.ledger[i].user].examType, true)
  }

  lemma {:induction false} GroupSumVersusLiveSum(rows: seq<Row>, tags: seq<Tag>, k: BoardKey)
    requires |rows| == |tags|
    ensures LiveSum(rows, tags, k) <= GroupSum(rows, k)
    ensures LiveSum(rows, tags, k) == GroupSum(rows, k) <==>
            forall i | 0 <= i < |rows| && Matches(rows[i], k) :: tags[i] == Tag(k.examType, true)
    ensures GroupSum(rows, k) > 0 <==> exists i | 0 <= i < |rows| :: Matches(rows[i], k)
  {
    if rows != [] {
      var n := |rows| - 1;
      GroupSumVersusLiveSum(rows[..n], tags[..n], k);
      assert forall i | 0 <= i < n :: rows[..n][i] == rows[i] && tags[..n][i] == tags[i];
    }
  }

  lemma GroupsArePositiveSums(db: Db, tags: seq<Tag>, k: BoardKey)
    requires BoardMatches(db, tags)
    ensures Grouped(db, k) <==>
            k.user in db.users && k.examType == db.users[k.user].examType && GroupSum(db.ledger, k) > 0
  {
    GroupSumVersusLiveSum(db.ledger, tags, k);
    if k.user in db.users && k.examType == db.users[k.user].examType && GroupSum(db.ledger, k) > 0 {
      var i :| 0 <= i < |db.ledger| && Matches(db.ledger[i], k);
      assert GroupKey(db.users, db.ledger[i], k.period) == k;
    }
  }

  /** One bucket is left alone by its upsert exactly when all the rows it sums are live on that board. */
  lemma BucketAgrees(db: Db, tags: seq<Tag>, k: BoardKey)
    requires BoardMatches(db, tags)
    ensures Grouped(db, k) ==>
              (k in db.board && db.board[k] == GroupSum(db.ledger, k) <==>
               forall i | 0 <= i < |tags| && Matches(db.ledger[i], k) :: tags[i] == Tag(k.examType, true))
  {
    assert BucketMatches(db.board, db.ledger, tags, k);
    GroupSumVersusLiveSum(db.ledger, tags, k);
    GroupsArePositiveSums(db, tags, k);
  }

  lemma BackfillAgreesIffAllLive(db: Db, tags: seq<Tag>)
    requires BoardMatches(db, tags)
    ensures Backfilled(db) == db <==> AllLive(db, tags)
  {
    if AllLive(db, tags) {
      forall k: BoardKey ensures AgreeAt(Backfilled(db).board, db.board, k) {
        BackfilledBoard(db, k);
        BucketAgrees(db, tags, k);
      }
      SameBoard(Backfilled(db).board, db.board);
    } else {
      var i :| 0 <= i < |tags| && db.ledger[i].levelXp > 0
               && tags[i] != Tag(db.users[db.ledger[i].user].examType, true);
      var k := GroupKey(db.users, db.ledger[i], Weekly);
      assert Matches(db.ledger[i], k) && Grouped(db, k);
      BucketAgrees(db, tags, k);
      BackfilledBoard(db, k);
    }
  }

  /**
    The rebuild from the ledger changes nothing after a run exactly when no positive row was
    earned under an exam type the user has since left, or lost to the wipe that leaving causes.
   */
  lemma {:induction false} BackfillNoOpIff(examTypes: map<string, string>, events: seq<Event>)
    ensures BoardMatches(Run(examTypes, events).db, Tags(examTypes, events))
    ensures Backfilled(Run(examTypes, events).db) == Run(examTypes, events).db <==>
            AllLive(Run(examTypes, events).db, Tags(examTypes, events))
  {
    BucketsAreLiveSums(examTypes, events);
    BackfillAgreesIffAllLive(Run(examTypes, events).db, Tags(examTypes, events));
  }

  /**
    In particular it changes something as soon as a save takes a user off the exam type a positive row was earned
    under.
   */
  lemma LeavingAnExamTypeUndoesAgreement(s: Sys, tags: seq<Tag>, call: nat, i: nat)
    requires BoardMatches(s.db, tags) && i < |tags| && s.db.ledger[i].levelXp > 0
    requires CanStore(s, call) && s.changes[call].user == s.db.ledger[i].user
    requires tags[i].examType != s.changes[call].ExamType()
    ensures Backfilled(Step(s, StoreRow(call)).db) != Step(s, StoreRow(call)).db
  {
    StepKeepsBoard(s, tags, StoreRow(call));
    BackfillAgreesIffAllLive(Step(s, StoreRow(call)).db, tags);
  }

  /** And when the delete lands after the user has come back, and has earned something on that board. */
  lemma LateWipeUndoesAgreement(s: Sys, tags: seq<Tag>, call: nat, i: nat)
    requires BoardMatches(s.db, tags) && i < |tags| && s.db.ledger[i].levelXp > 0
    requires CanWipe(s, call) && s.changes[call].user == s.db.ledger[i].user
    requires s.db.users[s.db.ledger[i].user].examType == s.changes[call].row.examType == tags[i].examType
    ensures Backfilled(Step(s, WipeBoard(call)).db) != Step(s, WipeBoard(call)).db
  {
    StepKeepsBoard(s, tags, WipeBoard(call));
    BackfillAgreesIffAllLive(Step(s, WipeBoard(call)).db, TagsAfter(s, tags, WipeBoard(call)));
  }

  /** Every call that reads a row leaves the exam type at what it first was. */
  ghost predicate NoSwitch(examTypes: map<string, string>, events: seq<Event>) {
    forall e <- events :: e.LoadRow? && e.to.Some? ==> e.user in examTypes && e.to.value == examTypes[e.user]
  }

  ghost predicate AtFirst(examTypes: map<string, string>, s: Sys) {
    && s.db.users.Keys == examTypes.Keys && (forall u <- examTypes :: s.db.users[u].examType == examTypes[u])
    && forall k <- s.changes ::
         && s.changes[k].user in examTypes
         && s.changes[k].row.examType == examTypes[s.changes[k].user] == s.changes[k].ExamType()
  }

  lemma StepKeepsAtFirst(examTypes: map<string, string>, s: Sys, e: Event)
    requires AtFirst(examTypes, s) && NoSwitch(examTypes, [e])
    ensures AtFirst(examTypes, Step(s, e))
  {
    if IsTransaction(e) {
      TransactionCommits(s, e);
    } else {
      assert e in [e];
    }
  }

  lemma {:induction false} NoChangeKeepsAllLive(examTypes: map<string, string>, events: seq<Event>)
    requires NoSwitch(examTypes, events)
    ensures BoardMatches(Run(examTypes, events).db, Tags(examTypes, events))
            && AtFirst(examTypes, Run(examTypes, events))
    ensures AllLive(Run(examTypes, events).db, Tags(examTypes, events))
  {
    BucketsAreLiveSums(examTypes, events);
    if events != [] {
      var (before, e) := (events[..|events| - 1], events[|events| - 1]);
      assert e in events && (forall x <- before :: x in events);
      NoChangeKeepsAllLive(examTypes, before);
      StepKeepsAtFirst(examTypes, Run(examTypes, before), e);
      StepKeepsAllLive(examTypes, Run(examTypes, before), Tags(examTypes, before), e);
    }
  }

  lemma StepKeepsAllLive(examTypes: map<string, string>, s: Sys, tags: seq<Tag>, e: Event)
    requires BoardMatches(s.db, tags) && AllLive(s.db, tags)
    requires AtFirst(examTypes, s) && AtFirst(examTypes, Step(s, e))
             && BoardMatches(Step(s, e).db, TagsAfter(s, tags, e))
    ensures AllLive(Step(s, e).db, TagsAfter(s, tags, e))
  {
    if IsTransaction(e) { TransactionCommits(s, e); }
  }

  /** While nobody changes exam type, rebuilding from an empty leaderboard gives the very board kept by the upserts. */
  lemma {:induction false} RebuildFromScratchAgrees(examTypes: map<string, string>, events: seq<Event>)
    requires NoSwitch(examTypes, events)
    ensures var db := Run(examTypes, events).db; Backfilled(db) == db && Backfilled(db.(board := map[])) == db
  {
    NoChangeKeepsAllLive(examTypes, events);
    BackfillAgreesIffAllLive(Run(examTypes, events).db, Tags(examTypes, events));
    RebuiltBoard(Run(examTypes, events).db, Tags(examTypes, events));
  }

  lemma RebuiltBoard(db: Db, tags: seq<Tag>)
    requires BoardMatches(db, tags) && AllLive(db, tags)
    ensures Backfilled(db.(board := map[])) == db
  {
    var rebuilt := Backfilled(db.(board := map[])).board;
    forall k: BoardKey ensures AgreeAt(rebuilt, db.board, k) { RebuiltBucket(db, tags, k); }
    SameBoard(rebuilt, db.board);
  }

  lemma RebuiltBucket(db: Db, tags: seq<Tag>, k: BoardKey)
    requires BoardMatches(db, tags) && AllLive(db, tags)
    ensures AgreeAt(Backfilled(db.(board := map[])).board, db.board, k)
  {
    BackfilledBoard(db.(board := map[]), k);
    assert Grouped(db.(board := map[]), k) == Grouped(db, k);
    LiveBoardIsGrouped(db, tags, k);
  }

  lemma LiveBoardIsGrouped(db: Db, tags: seq<Tag>, k: BoardKey)
    requires BoardMatches(db, tags) && AllLive(db, tags)
    ensures k in db.board <==> Grouped(db, k)
    ensures k in db.board ==> db.board[k] == GroupSum(db.ledger, k)
  {
    BucketAgrees(db, tags, k);
    if k in db.board {
      assert BucketMatches(db.board, db.ledger, tags, k);
      var i := LiveSumHasWitness(db.ledger, tags, k);
      GroupSumVersusLiveSum(db.ledger, tags, k);
      GroupsArePositiveSums(db, tags, k);
    }
  }

  lemma {:induction false} LiveSumHasWitness(rows: seq<Row>, tags: seq<Tag>, k: BoardKey) returns (i: nat)
    requires |rows| == |tags| && LiveSum(rows, tags, k) > 0
    ensures i < |rows| && Matches(rows[i], k) && tags[i] == Tag(k.examType, true)
  {
    var n := |rows| - 1;
    if Matches(rows[n], k) && tags[n] == Tag(k.examType, true) { return n; }
    i := LiveSumHasWitness(rows[..n], tags[..n], k);
  }

  // ----- A rebuild beside awards -----------------------------------------------------------------------

  /** One upsert of the rebuild: its SELECT has seen the tables of `seen`, its writes meet the board of `now`. */
  function LateUpsert(now: Db, seen: Db, p: Period): Db {
    now.(board := UpsertGroups(now.board, seen.users, seen.ledger, p))
  }

  /** A row that the SELECT has not seen, of a bucket that it writes. */
  predicate Overwritten(seen: Db, row: Row, p: Period) {
    row.levelXp > 0 && row.user in seen.users && GroupKey(seen.users, row, p) in Groups(seen.users, seen.ledger, p)
  }

  lemma {:induction false} GroupSumOfPrefix(rows: seq<Row>, n: nat, k: BoardKey)
    requires n <= |rows|
    ensures GroupSum(rows[..n], k) <= GroupSum(rows, k)
    ensures GroupSum(rows[..n], k) == GroupSum(rows, k) <==> forall i | n <= i < |rows| :: !Matches(rows[i], k)
  {
    if n < |rows| {
      var before := rows[..|rows| - 1];
      GroupSumOfPrefix(before, n, k);
      assert before[..n] == rows[..n] && (forall i | 0 <= i < |before| :: before[i] == rows[i]);
    } else {
      assert rows[..n] == rows;
    }
  }

  ghost predicate SeenEarlier(seen: Db, now: Db) {
    && seen.ledger <= now.ledger && (forall row <- seen.ledger :: row.user in seen.users)
    && seen.users.Keys == now.users.Keys && (forall u <- seen.users :: now.users[u].examType == seen.users[u].examType)
  }

  lemma SeenBucket(seen: Db, now: Db, tags: seq<Tag>, k: BoardKey)
    requires BoardMatches(now, tags) && AllLive(now, tags) && SeenEarlier(seen, now)
    requires k in Groups(seen.users, seen.ledger, k.period)
    ensures k in now.board && now.board[k] == GroupSum(now.ledger, k)
  {
    var row :| row in seen.ledger && row.levelXp > 0 && GroupKey(seen.users, row, k.period) == k;
    assert row in now.ledger && GroupKey(now.users, row, k.period) == k;
    LiveBoardIsGrouped(now, tags, k);
  }

  lemma LateBucket(seen: Db, now: Db, tags: seq<Tag>, p: Period, k: BoardKey)
    requires BoardMatches(now, tags) && AllLive(now, tags) && SeenEarlier(seen, now)
    requires forall i | |seen.ledger| <= i < |now.ledger| :: !Overwritten(seen, now.ledger[i], p)
    ensures AgreeAt(LateUpsert(now, seen, p).board, now.board, k)
  {
    UpsertedBucket(now.board, seen.users, seen.ledger, p, k);
    if k in Groups(seen.users, seen.ledger, p) {
      SeenBucket(seen, now, tags, k);
      forall i | |seen.ledger| <= i < |now.ledger| ensures !Matches(now.ledger[i], k) {
        assert !Overwritten(seen, now.ledger[i], p);
        SeenUser(seen, k, p);
      }
      assert now.ledger[..|seen.ledger|] == seen.ledger;
      GroupSumOfPrefix(now.ledger, |seen.ledger|, k);
    }
  }

  lemma SeenUser(seen: Db, k: BoardKey, p: Period)
    requires k in Groups(seen.users, seen.ledger, p)
    ensures k.period == p && k.user in seen.users && k.examType == seen.users[k.user].examType
  {
  }

  lemma OverwritingIsSeen(seen: Db, now: Db, tags: seq<Tag>, p: Period, i: nat)
    requires BoardMatches(now, tags) && AllLive(now, tags) && SeenEarlier(seen, now)
    requires |seen.ledger| <= i < |now.ledger| && Overwritten(seen, now.ledger[i], p)
    ensures LateUpsert(now, seen, p) != now
  {
    var k := GroupKey(seen.users, now.ledger[i], p);
    SeenBucket(seen, now, tags, k);
    UpsertedBucket(now.board, seen.users, seen.ledger, p, k);
    assert Matches(now.ledger[i], k) && now.ledger[..|seen.ledger|] == seen.ledger;
    GroupSumOfPrefix(now.ledger, |seen.ledger|, k);
    assert LateUpsert(now, seen, p).board[k] == GroupSum(seen.ledger, k) < now.board[k];
  }

  lemma LateUpsertIsHarmless(seen: Db, now: Db, tags: seq<Tag>, p: Period)
    requires BoardMatches(now, tags) && AllLive(now, tags) && SeenEarlier(seen, now)
    ensures LateUpsert(now, seen, p) == now <==>
              forall i | |seen.ledger| <= i < |now.ledger| :: !Overwritten(seen, now.ledger[i], p)
  {
    if i :| |seen.ledger| <= i < |now.ledger| && Overwritten(seen, now.ledger[i], p) {
      OverwritingIsSeen(seen, now, tags, p, i);
    } else {
      forall k: BoardKey ensures AgreeAt(LateUpsert(now, seen, p).board, now.board, k) {
        LateBucket(seen, now, tags, p, k);
      }
      SameBoard(LateUpsert(now, seen, p).board, now.board);
    }
  }

  lemma {:induction false} LaterLedger(examTypes: map<string, string>, events: seq<Event>, later: seq<Event>)
    ensures Run(examTypes, events).db.ledger <= Run(examTypes, events + later).db.ledger
  {
    if later == [] {
      assert events + later == events;
    } else {
      var (before, e) := (later[..|later| - 1], later[|later| - 1]);
      assert (events + later)[..|events + later| - 1] == events + before;
      LaterLedger(examTypes, events, before);
      StepKeepsLedger(Run(examTypes, events + before), e);
    }
  }

  /**
    While nobody changes exam type: an upsert of the rebuild that runs beside later events leaves the board as they
    made it exactly if none of them earned XP in a bucket that its SELECT had found.
   */
  lemma {:induction false} RebuildBesideAwardsIsHarmlessIff(examTypes: map<string, string>, events: seq<Event>,
          later: seq<Event>, p: Period)
    requires NoSwitch(examTypes, events + later)
    ensures var (seen, now) := (Run(examTypes, events).db, Run(examTypes, events + later).db);
            LateUpsert(now, seen, p) == now <==>
            forall i | |seen.ledger| <= i < |now.ledger| :: !Overwritten(seen, now.ledger[i], p)
  {
    forall e | e in events ensures e in events + later {}
    NoChangeKeepsAllLive(examTypes, events);
    NoChangeKeepsAllLive(examTypes, events + later);
    LaterLedger(examTypes, events, later);
    LateUpsertIsHarmless(Run(examTypes, events).db, Run(examTypes, events + later).db, Tags(examTypes, events + later),
                         p);
  }
}
