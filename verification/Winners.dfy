/**
  Winner selection: a bounded pool is walked in order, each eligible candidate takes the next rank,
  and a failure at any of three writes gives the rank back. The winner row may already be committed then.
 */
module Winners {
  datatype Period = Weekly | Monthly

  // ----- Prize bands -------------------------------------------------------------------------------

  datatype EventKey =
    | Winner1(period: Period)
    | Weekly2
    | Weekly3
    | Monthly2To3
    | Winner4To10(period: Period)
    | Winner11To20(period: Period)

  function EventKeyFor(period: Period, rank: int): EventKey {
    if rank == 1 then Winner1(period)
    else if period.Weekly? then
      if rank == 2 then Weekly2
      else if rank == 3 then Weekly3
      else if rank <= 10 then Winner4To10(Weekly)
      else Winner11To20(Weekly)
    else if rank <= 3 then Monthly2To3
    else if rank <= 10 then Winner4To10(Monthly)
    else Winner11To20(Monthly)
  }

  /** The smallest rank of a rank's band. */
  function BandStart(period: Period, rank: nat): nat {
    if rank >= 11 then 11 else if rank >= 4 then 4 else if period.Monthly? && rank == 3 then 2 else rank
  }

  /** Two places earn the same award exactly if they are in the same period type and the same band. */
  lemma SameKeyIffSameBand(p: Period, q: Period, rank: nat, other: nat)
    requires rank >= 1 && other >= 1
    ensures EventKeyFor(p, rank) == EventKeyFor(q, other) <==> p == q && BandStart(p, rank) == BandStart(q, other)
  {
  }

  /** The places that an award names. */
  ghost predicate Names(k: EventKey, p: Period, rank: nat) {
    match k
    case Winner1(q) => p == q && rank == 1
    case Weekly2 => p == Weekly && rank == 2
    case Weekly3 => p == Weekly && rank == 3
    case Monthly2To3 => p == Monthly && 2 <= rank <= 3
    case Winner4To10(q) => p == q && 4 <= rank <= 10
    case Winner11To20(q) => p == q && 11 <= rank <= 20
  }

  /** A place of the payout gets exactly the award that names it. */
  lemma AwardNamesItsPlace(p: Period, rank: nat, k: EventKey)
    requires 1 <= rank <= 20
    ensures k == EventKeyFor(p, rank) <==> Names(k, p, rank)
  {
  }

  // ----- Candidates --------------------------------------------------------------------------------

  datatype User = User(id: string, isActive: bool, deleted: bool, ageDays: real, answers: nat, hasEmail: bool,
                       hasPhone: bool)

  const MIN_ACCOUNT_AGE_DAYS := 3.0
  const MIN_ANSWERS := 50

  predicate IsEligible(u: User) {
    u.isActive && !u.deleted && u.ageDays >= MIN_ACCOUNT_AGE_DAYS && u.answers >= MIN_ANSWERS
    && (u.hasEmail || u.hasPhone)
  }

  /** Which of the writes for a candidate fails, if any. */
  datatype Fault = NoFault | InsertFails | AwardFails | UpdateFails

  datatype Entry = Entry(user: User, fault: Fault, xp: nat)

  /** What winners are selected for. */
  datatype Round = Round(examType: string, period: Period, start: int)

  datatype Row = Row(round: Round, user: string, rank: nat, xpEarned: nat, xpIssued: bool)

  datatype Winner = Winner(user: string, rank: nat, eventKey: EventKey, xpEarned: nat)

  const PAYOUT_RANK_LIMIT := 20

  /** The first sixty entries. */
  function Pool(entries: seq<Entry>): seq<Entry> {
    if |entries| <= 3 * PAYOUT_RANK_LIMIT then entries else entries[..3 * PAYOUT_RANK_LIMIT]
  }

  // ----- What the walk over the first n entries amounts to -----------------------------------------

  predicate Attempted(pool: seq<Entry>, excluded: set<string>, i: nat)
    requires i < |pool|
  {
    pool[i].user.id !in excluded && IsEligible(pool[i].user)
  }

  predicate Succeeds(pool: seq<Entry>, excluded: set<string>, i: nat)
    requires i < |pool|
  {
    Attempted(pool, excluded, i) && pool[i].fault.NoFault?
  }

  predicate Below(positions: seq<nat>, n: nat) { forall k | 0 <= k < |positions| :: positions[k] < n }

  /** The positions that make it, in order. */
  function Good(pool: seq<Entry>, excluded: set<string>, n: nat): (good: seq<nat>)
    requires n <= |pool|
    ensures Below(good, n)
  {
    if n == 0 then []
    else if Succeeds(pool, excluded, n - 1) then Good(pool, excluded, n - 1) + [n - 1]
    else Good(pool, excluded, n - 1)
  }

  function ExcludedSeen(pool: seq<Entry>, excluded: set<string>, n: nat): nat
    requires n <= |pool|
  {
    if n == 0 then 0 else ExcludedSeen(pool, excluded, n - 1) + if pool[n - 1].user.id in excluded then 1 else 0
  }

  function Skipped(pool: seq<Entry>, excluded: set<string>, n: nat): nat
    requires n <= |pool|
  {
    if n == 0 then 0
    else Skipped(pool, excluded, n - 1) +
         if pool[n - 1].user.id !in excluded && !Succeeds(pool, excluded, n - 1) then 1 else 0
  }

  function RowFor(round: Round, e: Entry, rank: nat): Row {
    if e.fault.NoFault? then Row(round, e.user.id, rank, e.xp, true) else Row(round, e.user.id, rank, 0, false)
  }

  /** The rows inserted: one for each attempt whose insert did not fail, under the rank it was tried for. */
  function Inserted(round: Round, pool: seq<Entry>, excluded: set<string>, n: nat): seq<Row>
    requires n <= |pool|
  {
    if n == 0 then []
    else
      var before := Inserted(round, pool, excluded, n - 1);
      if !Attempted(pool, excluded, n - 1) || pool[n - 1].fault.InsertFails? then before
      else before + [RowFor(round, pool[n - 1], |Good(pool, excluded, n - 1)| + 1)]
  }

  function WinnerAt(round: Round, e: Entry, rank: nat): Winner {
    Winner(e.user.id, rank, EventKeyFor(round.period, rank), e.xp)
  }

  /** The k-th position that made it has rank k. */
  function Ranked(round: Round, pool: seq<Entry>, good: seq<nat>): (winners: seq<Winner>)
    requires Below(good, |pool|)
    ensures |winners| == |good|
  {
    if good == [] then []
    else
      var last := |good| - 1;
      Ranked(round, pool, good[..last]) + [WinnerAt(round, pool[good[last]], last + 1)]
  }

  lemma {:induction false} RankedAt(round: Round, pool: seq<Entry>, good: seq<nat>, k: nat)
    requires Below(good, |pool|) && k < |good|
    ensures var e := pool[good[k]];
            Ranked(round, pool, good)[k] == Winner(e.user.id, k + 1, EventKeyFor(round.period, k + 1), e.xp)
  {
    if k < |good| - 1 { RankedAt(round, pool, good[..|good| - 1], k); }
  }

  /** An account in good standing, three days old, with fifty answers and a way to reach it. */
  ghost predicate InGoodStanding(u: User) {
    u.isActive && !u.deleted && u.ageDays >= 3.0 && u.answers >= 50 && (u.hasEmail || u.hasPhone)
  }

  /** The winners keep the pool's order, and are exactly the entries that made it. */
  lemma {:induction false} GoodIsTheSubsequence(pool: seq<Entry>, excluded: set<string>, n: nat)
    requires n <= |pool|
    ensures var good := Good(pool, excluded, n);
            && (forall j, k | 0 <= j < k < |good| :: good[j] < good[k])
            && (forall i: nat :: i in good <==> i < n && Succeeds(pool, excluded, i))
            && (forall i: nat | i < n :: i in good <==>
                  pool[i].user.id !in excluded && InGoodStanding(pool[i].user) && pool[i].fault == NoFault)
  {
    if n > 0 {
      GoodIsTheSubsequence(pool, excluded, n - 1);
      var before := Good(pool, excluded, n - 1);
      forall i: nat
        ensures i in Good(pool, excluded, n) <==> i in before || (i == n - 1 && Succeeds(pool, excluded, i))
      {
        if Succeeds(pool, excluded, n - 1) { assert Good(pool, excluded, n) == before + [n - 1]; }
      }
      forall k | 0 <= k < |before| ensures before[k] < n - 1 { assert Below(before, n - 1); }
    }
  }

  lemma {:induction false} EveryEntryIsAccountedFor(pool: seq<Entry>, excluded: set<string>, n: nat)
    requires n <= |pool|
    ensures |Good(pool, excluded, n)| + Skipped(pool, excluded, n) + ExcludedSeen(pool, excluded, n) == n
  {
    if n > 0 { EveryEntryIsAccountedFor(pool, excluded, n - 1); }
  }

  // ----- The rows left in the table ----------------------------------------------------------------

  function Issued(rows: seq<Row>): seq<Row> {
    if rows == [] then []
    else if rows[|rows| - 1].xpIssued then Issued(rows[..|rows| - 1]) + [rows[|rows| - 1]]
    else Issued(rows[..|rows| - 1])
  }

  function WinnerRows(round: Round, winners: seq<Winner>): seq<Row> {
    if winners == [] then []
    else
      var last := winners[|winners| - 1];
      WinnerRows(round, winners[..|winners| - 1]) + [Row(round, last.user, last.rank, last.xpEarned, true)]
  }

  lemma IssuedAppended(rows: seq<Row>, row: Row)
    ensures Issued(rows + [row]) == Issued(rows) + if row.xpIssued then [row] else []
  {
    assert (rows + [row])[..|rows|] == rows;
  }

  lemma RankedAppended(round: Round, pool: seq<Entry>, good: seq<nat>, i: nat)
    requires Below(good, |pool|) && i < |pool|
    ensures Below(good + [i], |pool|)
    ensures Ranked(round, pool, good + [i]) == Ranked(round, pool, good) + [WinnerAt(round, pool[i], |good| + 1)]
  {
    assert (good + [i])[..|good|] == good;
  }

  lemma WinnerRowsAppended(round: Round, winners: seq<Winner>, w: Winner)
    ensures WinnerRows(round, winners + [w]) ==
            WinnerRows(round, winners) + [Row(round, w.user, w.rank, w.xpEarned, true)]
  {
    assert (winners + [w])[..|winners|] == winners;
  }

  predicate LeavesUnissued(pool: seq<Entry>, excluded: set<string>, i: nat)
    requires i < |pool|
  {
    Attempted(pool, excluded, i) && (pool[i].fault.AwardFails? || pool[i].fault.UpdateFails?)
  }

  function UnissuedLeft(pool: seq<Entry>, excluded: set<string>, n: nat): nat
    requires n <= |pool|
  {
    if n == 0 then 0 else UnissuedLeft(pool, excluded, n - 1) + if LeavesUnissued(pool, excluded, n - 1) then 1 else 0
  }

  /** Beside the winners' rows there is one unissued row for each candidate whose award or update failed. */
  lemma {:induction false} RowsAreWinnersAndLeftovers(round: Round, pool: seq<Entry>, excluded: set<string>, n: nat)
    requires n <= |pool|
    ensures |Inserted(round, pool, excluded, n)| == |Good(pool, excluded, n)| + UnissuedLeft(pool, excluded, n)
    ensures forall r <- Inserted(round, pool, excluded, n) :: r.round == round
  {
    if n > 0 { RowsAreWinnersAndLeftovers(round, pool, excluded, n - 1); }
  }

  function NextRank(row: Row): nat { if row.xpIssued then row.rank + 1 else row.rank }

  /** A row takes the next rank after an issued row and the same rank again after an unissued one. */
  ghost predicate Chained(rows: seq<Row>) {
    && (rows != [] ==> rows[0].rank == 1)
    && forall k | 0 < k < |rows| :: rows[k].rank == NextRank(rows[k - 1])
  }

  lemma {:induction false} RanksAreChained(round: Round, pool: seq<Entry>, excluded: set<string>, n: nat)
    requires n <= |pool|
    ensures var rows := Inserted(round, pool, excluded, n);
            && Chained(rows)
            && |Good(pool, excluded, n)| + 1 == if rows == [] then 1 else NextRank(rows[|rows| - 1])
  {
    if n > 0 { RanksAreChained(round, pool, excluded, n - 1); }
  }

  ghost predicate DistinctRanks(rows: seq<Row>) {
    forall i, j | 0 <= i < j < |rows| :: rows[i].rank != rows[j].rank
  }

  lemma {:induction false} ChainGrows(rows: seq<Row>, i: nat, j: nat)
    requires Chained(rows) && i < j < |rows| && forall k | 0 <= k < |rows| - 1 :: rows[k].xpIssued
    ensures rows[i].rank < rows[j].rank
  {
    assert rows[j].rank == NextRank(rows[j - 1]);
    if i < j - 1 { ChainGrows(rows, i, j - 1); }
  }

  lemma RanksRepeatAfterUnissued(rows: seq<Row>)
    requires Chained(rows)
    ensures DistinctRanks(rows) <==> forall k | 0 <= k < |rows| - 1 :: rows[k].xpIssued
  {
    if forall k | 0 <= k < |rows| - 1 :: rows[k].xpIssued {
      forall i, j | 0 <= i < j < |rows| ensures rows[i].rank != rows[j].rank { ChainGrows(rows, i, j); }
    } else {
      var k :| 0 <= k < |rows| - 1 && !rows[k].xpIssued;
      assert rows[k + 1].rank == NextRank(rows[k + 1 - 1]);
    }
  }

  predicate LeavesRow(pool: seq<Entry>, excluded: set<string>, i: nat)
    requires i < |pool|
  {
    Attempted(pool, excluded, i) && !pool[i].fault.InsertFails?
  }

  lemma {:induction false} UnissuedRowIff(round: Round, pool: seq<Entry>, excluded: set<string>, n: nat)
    requires n <= |pool|
    ensures var rows := Inserted(round, pool, excluded, n);
            (exists k | 0 <= k < |rows| :: !rows[k].xpIssued) <==>
              exists i: nat | i < n :: LeavesUnissued(pool, excluded, i)
  {
    if n > 0 {
      UnissuedRowIff(round, pool, excluded, n - 1);
      var (before, rows) := (Inserted(round, pool, excluded, n - 1), Inserted(round, pool, excluded, n));
      assert LeavesUnissued(pool, excluded, n - 1) ==> !rows[|before|].xpIssued;
      assert forall k | 0 <= k < |before| :: rows[k] == before[k];
    }
  }

  /** A candidate whose award or update failed is followed by one whose row is inserted. */
  predicate ReusesARank(pool: seq<Entry>, excluded: set<string>, n: nat)
    requires n <= |pool|
  {
    exists i: nat, j: nat | i < j < n :: LeavesUnissued(pool, excluded, i) && LeavesRow(pool, excluded, j)
  }

  lemma {:induction false} RowAfterUnissuedIff(round: Round, pool: seq<Entry>, excluded: set<string>, n: nat)
    requires n <= |pool|
    ensures var rows := Inserted(round, pool, excluded, n);
            (exists k | 0 <= k < |rows| - 1 :: !rows[k].xpIssued) <==> ReusesARank(pool, excluded, n)
  {
    if n > 0 {
      RowAfterUnissuedIff(round, pool, excluded, n - 1);
      UnissuedRowIff(round, pool, excluded, n - 1);
      var (before, rows) := (Inserted(round, pool, excluded, n - 1), Inserted(round, pool, excluded, n));
      assert forall k | 0 <= k < |before| :: rows[k] == before[k];
      if LeavesRow(pool, excluded, n - 1) {
        assert |rows| == |before| + 1;
      } else {
        assert rows == before;
      }
    }
  }

  /**
    For every pool and every pattern of failures the table gives no rank twice exactly if no candidate whose award or
    update failed comes before one whose row is inserted.
   */
  lemma RanksAreDistinctIff(round: Round, pool: seq<Entry>, excluded: set<string>, n: nat)
    requires n <= |pool|
    ensures DistinctRanks(Inserted(round, pool, excluded, n)) <==> !ReusesARank(pool, excluded, n)
  {
    RanksAreChained(round, pool, excluded, n);
    RanksRepeatAfterUnissued(Inserted(round, pool, excluded, n));
    RowAfterUnissuedIff(round, pool, excluded, n);
  }

  function TwoCandidates(u: User, v: User, xp: nat): seq<Entry> { [Entry(u, AwardFails, xp), Entry(v, NoFault, xp)] }

  /** A failed award leaves a row whose rank the next candidate takes. */
  lemma RankIsReused(round: Round, u: User, v: User, xp: nat)
    requires IsEligible(u) && IsEligible(v)
    ensures Inserted(round, TwoCandidates(u, v, xp), {}, 2) ==
            [Row(round, u.id, 1, 0, false), Row(round, v.id, 1, xp, true)]
  {
    var pool := TwoCandidates(u, v, xp);
    assert Good(pool, {}, 1) == Good(pool, {}, 0);
    assert Inserted(round, pool, {}, 0) == [];
    assert Inserted(round, pool, {}, 1) == [RowFor(round, pool[0], 1)];
  }

  // ----- The service -------------------------------------------------------------------------------

  /** Where the walk stands: what has been returned, skipped and inserted after n entries. */
  ghost predicate StandsAt(round: Round, pool: seq<Entry>, excluded: set<string>, n: nat,
                           winners: seq<Winner>, skipped: nat, rows: seq<Row>)
    requires n <= |pool|
  {
    && winners == Ranked(round, pool, Good(pool, excluded, n))
    && skipped == Skipped(pool, excluded, n)
    && rows == Inserted(round, pool, excluded, n)
  }

  datatype Walk = Walk(winners: seq<Winner>, skipped: nat, rows: seq<Row>)

  /** The walk, entry by entry. */
  function Walked(round: Round, pool: seq<Entry>, excluded: set<string>, n: nat): Walk
    requires n <= |pool|
  {
    if n == 0 then Walk([], 0, [])
    else Visit(round, Walked(round, pool, excluded, n - 1), pool[n - 1], excluded)
  }

  function Visit(round: Round, w: Walk, e: Entry, excluded: set<string>): Walk {
    if e.user.id in excluded then w
    else if !IsEligible(e.user) then w.(skipped := w.skipped + 1)
    else
      var rank := |w.winners| + 1;
      match e.fault
      case NoFault => w.(winners := w.winners + [WinnerAt(round, e, rank)], rows := w.rows + [RowFor(round, e, rank)])
      case InsertFails => w.(skipped := w.skipped + 1)
      case _ => w.(skipped := w.skipped + 1, rows := w.rows + [RowFor(round, e, rank)])
  }

  lemma VisitRanks(round: Round, pool: seq<Entry>, excluded: set<string>, n: nat, w: Walk)
    requires n < |pool| && w.winners == Ranked(round, pool, Good(pool, excluded, n))
    ensures Visit(round, w, pool[n], excluded).winners == Ranked(round, pool, Good(pool, excluded, n + 1))
  {
    RankedAppended(round, pool, Good(pool, excluded, n), n);
  }

  lemma VisitSkips(round: Round, pool: seq<Entry>, excluded: set<string>, n: nat, w: Walk)
    requires n < |pool| && w.skipped == Skipped(pool, excluded, n)
    ensures Visit(round, w, pool[n], excluded).skipped == Skipped(pool, excluded, n + 1)
  {
  }

  lemma VisitInserts(round: Round, pool: seq<Entry>, excluded: set<string>, n: nat, w: Walk)
    requires n < |pool| && w.rows == Inserted(round, pool, excluded, n) && |w.winners| == |Good(pool, excluded, n)|
    ensures Visit(round, w, pool[n], excluded).rows == Inserted(round, pool, excluded, n + 1)
  {
  }

  lemma VisitStands(round: Round, pool: seq<Entry>, excluded: set<string>, n: nat, w: Walk)
    requires n < |pool| && StandsAt(round, pool, excluded, n, w.winners, w.skipped, w.rows)
    ensures var v := Visit(round, w, pool[n], excluded);
            StandsAt(round, pool, excluded, n + 1, v.winners, v.skipped, v.rows)
  {
    VisitRanks(round, pool, excluded, n, w);
    VisitSkips(round, pool, excluded, n, w);
    VisitInserts(round, pool, excluded, n, w);
  }

  lemma {:induction false} WalkStands(round: Round, pool: seq<Entry>, excluded: set<string>, n: nat)
    requires n <= |pool|
    ensures var w := Walked(round, pool, excluded, n);
            StandsAt(round, pool, excluded, n, w.winners, w.skipped, w.rows)
  {
    if n > 0 {
      WalkStands(round, pool, excluded, n - 1);
      VisitStands(round, pool, excluded, n - 1, Walked(round, pool, excluded, n - 1));
    }
  }

  lemma VisitKeepsIssued(round: Round, w: Walk, e: Entry, excluded: set<string>)
    requires Issued(w.rows) == WinnerRows(round, w.winners)
    ensures var v := Visit(round, w, e, excluded);
            Issued(v.rows) == WinnerRows(round, v.winners)
  {
    var rank := |w.winners| + 1;
    IssuedAppended(w.rows, RowFor(round, e, rank));
    WinnerRowsAppended(round, w.winners, WinnerAt(round, e, rank));
  }

  lemma {:induction false} IssuedIsWinners(round: Round, pool: seq<Entry>, excluded: set<string>, n: nat)
    requires n <= |pool|
    ensures var w := Walked(round, pool, excluded, n);
            Issued(w.rows) == WinnerRows(round, w.winners)
  {
    if n > 0 {
      IssuedIsWinners(round, pool, excluded, n - 1);
      VisitKeepsIssued(round, Walked(round, pool, excluded, n - 1), pool[n - 1], excluded);
    }
  }

  /** The issued rows are the returned winners, one for one and rank for rank, whatever failed in between. */
  lemma IssuedRowsAreTheWinners(round: Round, pool: seq<Entry>, excluded: set<string>, n: nat)
    requires n <= |pool|
    ensures Issued(Inserted(round, pool, excluded, n)) ==
            WinnerRows(round, Ranked(round, pool, Good(pool, excluded, n)))
  {
    IssuedIsWinners(round, pool, excluded, n);
    WalkStands(round, pool, excluded, n);
  }

  datatype Result = Refused | Selected(awarded: nat, skippedForAntiCheat: nat, winners: seq<Winner>)

  class WinnerSelectionService {
    var table: seq<Row>

    constructor (table: seq<Row>)
      ensures this.table == table
    {
      this.table := table;
    }

    /**
      `entries` is the leaderboard in order with the fate of each candidate's writes. The walk ends at the first
      point where twenty have made it or the pool is used up.
     */
    method SelectWinners(round: Round, entries: seq<Entry>, excluded: set<string>)
      returns (r: Result, ghost consumed: nat)
      modifies this
      ensures consumed <= 60 && consumed <= |entries|
      ensures r.Refused? <==> exists row <- old(table) :: row.round == round
      ensures r.Refused? ==> table == old(table)
      ensures r.Selected? ==>
                var good := Good(Pool(entries), excluded, consumed);
                && |good| <= 20 && (|good| < 20 ==> consumed == 60 || consumed == |entries|)
                && (|good| == 20 ==> good[19] == consumed - 1)
                && r.winners == Ranked(round, Pool(entries), good) && r.awarded == |good|
                && r.skippedForAntiCheat == Skipped(Pool(entries), excluded, consumed)
                && table == old(table) + Inserted(round, Pool(entries), excluded, consumed)
    {
      consumed := 0;
      if exists row <- table :: row.round == round { return Refused, 0; }
      var pool := Pool(entries);
      var winners, skipped;
      winners, skipped, consumed := Walk(round, pool, excluded);
      WalkStands(round, pool, excluded, consumed);
      r := Selected(|winners|, skipped, winners);
    }

    method Walk(round: Round, pool: seq<Entry>, excluded: set<string>)
      returns (winners: seq<Winner>, skipped: nat, ghost consumed: nat)
      modifies this
      ensures consumed <= |pool| && |winners| <= PAYOUT_RANK_LIMIT
              && (consumed == |pool| || |winners| == PAYOUT_RANK_LIMIT)
      ensures |winners| == PAYOUT_RANK_LIMIT ==> consumed > 0 && Succeeds(pool, excluded, consumed - 1)
      ensures var w := Walked(round, pool, excluded, consumed);
              winners == w.winners && skipped == w.skipped && table == old(table) + w.rows
    {
      winners, skipped := [], 0;
      var rank: nat, pi: nat := 0, 0;
      ghost var w := Walked(round, pool, excluded, 0);
      while rank < PAYOUT_RANK_LIMIT && pi < |pool|
        invariant pi <= |pool| && rank <= PAYOUT_RANK_LIMIT && w == Walked(round, pool, excluded, pi)
        invariant rank == PAYOUT_RANK_LIMIT ==> pi > 0 && Succeeds(pool, excluded, pi - 1)
        invariant rank == |winners| && winners == w.winners && skipped == w.skipped && table == old(table) + w.rows
        decreases |pool| - pi
      {
        var entry := pool[pi];
        pi := pi + 1;
        w := Visit(round, w, entry, excluded);
        if entry.user.id in excluded { continue; }
        if !IsEligible(entry.user) {
          skipped := skipped + 1;
          continue;
        }
        rank := rank + 1;
        var eventKey := EventKeyFor(round.period, rank);
        var ok := Award(round, entry, rank);
        if ok {
          winners := winners + [Winner(entry.user.id, rank, eventKey, entry.xp)];
        } else {
          rank := rank - 1;
          skipped := skipped + 1;
        }
      }
      consumed := pi;
    }

    /** The writes of one attempt, up to the first that fails. */
    method Award(round: Round, entry: Entry, rank: nat) returns (ok: bool)
      modifies this
      ensures ok <==> entry.fault.NoFault?
      ensures entry.fault.InsertFails? ==> table == old(table)
      ensures !entry.fault.InsertFails? ==> table == old(table) + [RowFor(round, entry, rank)]
    {
      if entry.fault.InsertFails? { return false; }
      table := table + [Row(round, entry.user.id, rank, 0, false)];
      if entry.fault.AwardFails? { return false; }
      if entry.fault.UpdateFails? { return false; }
      var last := |table| - 1;
      table := table[last := table[last].(xpEarned := entry.xp, xpIssued := true)];
      ok := true;
    }
  }
}
