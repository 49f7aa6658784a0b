/**
  The bulk explanation job: question ids are fetched fifty at a time and explained one by one. Two
  kinds of question are skipped without a save, and a cost breaker may stop the job after an accepted item.
 */
module ExplanationJob {
  import opened CostCap

  const BATCH := 50

  /**
    What happens at one position of the list. A failing write aborts the job: `rowSaved` is that of the job row,
    `questionSaved` that of the explanation itself.
   */
  datatype Outcome =
    | Missing
    | NoCorrectOption
    | TransportError(rowSaved: bool)
    | Rejected(cost: Cost, rowSaved: bool)
    | Accepted(cost: Cost, questionSaved: bool, rowSaved: bool)

  predicate Faults(o: Outcome) { !Skips(o) && (!o.rowSaved || (o.Accepted? && !o.questionSaved)) }

  predicate Skips(o: Outcome) { o.Missing? || o.NoCorrectOption? }

  function Price(o: Outcome): Cost { if o.Rejected? || o.Accepted? then o.cost else 0.0 }

  /** The explanation is stored and counted, even if the job row then cannot be saved. */
  predicate Completes(o: Outcome) { o.Accepted? && o.questionSaved }

  /** The position is counted as failed. */
  predicate Fails(o: Outcome) { Skips(o) || o.TransportError? || o.Rejected? }

  // ----- The first n positions -------------------------------------------------------------------

  function Spent(outcomes: nat -> Outcome, n: nat): (c: Cost) {
    if n == 0 then 0.0 else Spent(outcomes, n - 1) + Price(outcomes(n - 1))
  }

  function CompletedIn(outcomes: nat -> Outcome, n: nat): nat {
    if n == 0 then 0 else CompletedIn(outcomes, n - 1) + if Completes(outcomes(n - 1)) then 1 else 0
  }

  function FailedIn(outcomes: nat -> Outcome, n: nat): nat {
    if n == 0 then 0 else FailedIn(outcomes, n - 1) + if Fails(outcomes(n - 1)) then 1 else 0
  }

  /** How far the row is up to date: skipped positions at the end are not saved. */
  function LastSave(outcomes: nat -> Outcome, n: nat): (k: nat)
    ensures k <= n
  {
    if n == 0 then 0 else if Skips(outcomes(n - 1)) then LastSave(outcomes, n - 1) else n
  }

  /** The positions for which the model is called. */
  function CallsIn(outcomes: nat -> Outcome, n: nat): seq<nat> {
    if n == 0 then [] else CallsIn(outcomes, n - 1) + if Skips(outcomes(n - 1)) then [] else [n - 1]
  }

  /** The model is called once for each position that is not skipped, in order, and for none from n on. */
  lemma {:induction false} CalledOncePerPosition(outcomes: nat -> Outcome, n: nat)
    ensures forall k: nat :: k in CallsIn(outcomes, n) <==> k < n && !Skips(outcomes(k))
    ensures forall i, j | 0 <= i < j < |CallsIn(outcomes, n)| :: CallsIn(outcomes, n)[i] < CallsIn(outcomes, n)[j]
  {
    if n > 0 {
      CalledOncePerPosition(outcomes, n - 1);
      var before := CallsIn(outcomes, n - 1);
      forall k: nat ensures k in CallsIn(outcomes, n) <==> k in before || (k == n - 1 && !Skips(outcomes(k))) {
        if !Skips(outcomes(n - 1)) { assert CallsIn(outcomes, n) == before + [n - 1]; }
      }
      forall i | 0 <= i < |before| ensures before[i] < n - 1 { assert before[i] in before; }
    }
  }

  predicate TripsAt(outcomes: nat -> Outcome, estimate: real, k: nat) {
    outcomes(k).Accepted? && !Faults(outcomes(k)) && ExceedsJobCostCap(estimate, Spent(outcomes, k + 1))
  }

  /**
    An answer is charged at its own cost, taken or not, and nothing else is. The job stops at an answer that is taken
    and saved exactly if there is an estimate and the spend, its own cost included, is above 0.1 and 1.5 times that.
   */
  lemma {:induction false} ChargedAndTripped(outcomes: nat -> Outcome, estimate: real, k: nat)
    ensures Spent(outcomes, 0) == 0.0
    ensures var (o, charged) := (outcomes(k), Spent(outcomes, k + 1) - Spent(outcomes, k));
            && (o.Rejected? || o.Accepted? ==> charged == o.cost)
            && (o.Missing? || o.NoCorrectOption? || o.TransportError? ==> charged == 0.0)
            && (TripsAt(outcomes, estimate, k) <==>
                  && o.Accepted? && o.questionSaved && o.rowSaved && estimate > 0.0
                  && Spent(outcomes, k) + o.cost > 0.1 && Spent(outcomes, k) + o.cost > 1.5 * estimate)
  {
  }

  /** Nothing before n stopped the job. */
  ghost predicate RunsThrough(outcomes: nat -> Outcome, estimate: real, n: nat) {
    forall k: nat | k < n :: !Faults(outcomes(k)) && !TripsAt(outcomes, estimate, k)
  }

  lemma {:induction false} EveryPositionIsCounted(outcomes: nat -> Outcome, n: nat)
    requires forall k: nat | k < n :: !Faults(outcomes(k))
    ensures CompletedIn(outcomes, n) + FailedIn(outcomes, n) == n
  {
    if n > 0 { EveryPositionIsCounted(outcomes, n - 1); }
  }

  lemma {:induction false} SpentGrows(outcomes: nat -> Outcome, m: nat, n: nat)
    requires m <= n
    ensures Spent(outcomes, m) <= Spent(outcomes, n)
  {
    if m < n { SpentGrows(outcomes, m, n - 1); }
  }

  /** The last accepted position before n. */
  function LastAccepted(outcomes: nat -> Outcome, n: nat): (k: int)
    ensures -1 <= k < n
    ensures k >= 0 ==> outcomes(k).Accepted?
    ensures forall j: nat | k < j < n :: !outcomes(j).Accepted?
  {
    if n == 0 then -1 else if outcomes(n - 1).Accepted? then n - 1 else LastAccepted(outcomes, n - 1)
  }

  /**
    With a positive estimate, whatever was spent by position n beyond the ceiling was spent after the
    last accepted item: up to and including that item the spend is within it.
   */
  lemma OverspendIsAfterTheLastAccepted(outcomes: nat -> Outcome, estimate: real, n: nat)
    requires estimate > 0.0 && RunsThrough(outcomes, estimate, n)
    ensures var k := LastAccepted(outcomes, n);
            Spent(outcomes, k + 1) <= Ceiling(estimate) || k == -1
    ensures forall m: nat | m <= LastAccepted(outcomes, n) + 1 :: Spent(outcomes, m) <= Ceiling(estimate)
  {
    var k := LastAccepted(outcomes, n);
    if k >= 0 {
      assert !TripsAt(outcomes, estimate, k);
      TripsAboveTheCeiling(estimate, Spent(outcomes, k + 1));
      forall m: nat | m <= k + 1 ensures Spent(outcomes, m) <= Ceiling(estimate) { SpentGrows(outcomes, m, k + 1); }
    }
  }

  /** If the breaker never trips on the accepted items, rejected ones alone can still spend any amount. */
  lemma RejectionsAreUncapped(estimate: real, c: Cost, n: nat)
    ensures RunsThrough(k => Rejected(c, true), estimate, n)
    ensures Spent(k => Rejected(c, true), n) == c * (n as real)
  {
    var all: nat -> Outcome := k => Rejected(c, true);
    RejectionsAddUp(all, c, n);
    assert RunsThrough(all, estimate, n);
  }

  lemma {:induction false} RejectionsAddUp(outcomes: nat -> Outcome, c: Cost, n: nat)
    requires forall k: nat :: outcomes(k) == Rejected(c, true)
    ensures Spent(outcomes, n) == c * (n as real)
  {
    if n > 0 { RejectionsAddUp(outcomes, c, n - 1); }
  }

  lemma PrefixExtends(ids: seq<string>, start: nat, end: nat, k: nat)
    requires start <= end <= |ids| && k <= end - start
    ensures ids[..start + k] == ids[..start] + ids[start..end][..k]
  {
  }

  // ----- The job -------------------------------------------------------------------------------------

  /** Unfetched: the query for a slice failed. */
  datatype Ending = Finished | Tripped | Aborted | Unfetched

  class Job {
    const estimate: real
    const outcomes: nat -> Outcome
    const fetched: nat -> bool  // whether the query for the k-th slice succeeds

    var completed: nat
    var failed: nat
    var cost: real
    var visited: seq<string>  // the ids taken up, in order
    var modelCalls: seq<nat>  // the positions for which the model was called

    var rowCompleted: nat
    var rowFailed: nat
    var rowCost: real

    constructor (estimate: real, outcomes: nat -> Outcome, fetched: nat -> bool)
      ensures this.estimate == estimate && this.outcomes == outcomes && this.fetched == fetched
      ensures visited == [] && AsAfter(0)
    {
      this.estimate, this.outcomes, this.fetched := estimate, outcomes, fetched;
      completed, failed, cost, visited, modelCalls := 0, 0, 0.0, [], [];
      rowCompleted, rowFailed, rowCost := 0, 0, 0.0;
    }

    /** Counters and row are those of the first n positions. */
    ghost predicate AsAfter(n: nat)
      reads this
    {
      && completed == CompletedIn(outcomes, n) && failed == FailedIn(outcomes, n) && cost == Spent(outcomes, n)
      && rowCompleted == CompletedIn(outcomes, LastSave(outcomes, n))
      && rowFailed == FailedIn(outcomes, LastSave(outcomes, n))
      && rowCost == Spent(outcomes, LastSave(outcomes, n))
      && modelCalls == CallsIn(outcomes, n)
    }

    method Persist(saved: bool)
      modifies this`rowCompleted, this`rowFailed, this`rowCost
      ensures saved ==> rowCompleted == completed && rowFailed == failed && rowCost == cost
      ensures !saved ==> rowCompleted == old(rowCompleted) && rowFailed == old(rowFailed) && rowCost == old(rowCost)
    {
      if saved { rowCompleted, rowFailed, rowCost := completed, failed, cost; }
    }

    /** Counters with position n's effect, which a failing write kept out of the row. */
    ghost predicate CutShortAt(n: nat)
      reads this
    {
      && Faults(outcomes(n))
      && completed == CompletedIn(outcomes, n + 1) && failed == FailedIn(outcomes, n + 1)
      && cost == Spent(outcomes, n + 1)
      && modelCalls == CallsIn(outcomes, n + 1)
      && rowCompleted == CompletedIn(outcomes, LastSave(outcomes, n))
      && rowFailed == FailedIn(outcomes, LastSave(outcomes, n))
      && rowCost == Spent(outcomes, LastSave(outcomes, n))
    }

    /** Takes up the id at the next position. */
    method Explain(id: string) returns (ending: Ending)
      requires AsAfter(|visited|)
      modifies this
      ensures ending.Aborted? <==> Faults(outcomes(old(|visited|)))
      ensures !ending.Unfetched? && (ending.Tripped? <==> TripsAt(outcomes, estimate, old(|visited|)))
      ensures !ending.Aborted? ==> visited == old(visited) + [id] && AsAfter(|visited|)
      ensures ending.Aborted? ==> visited == old(visited) && CutShortAt(|visited|)
    {
      var o := outcomes(|visited|);
      if o.Missing? {
        visited, failed := visited + [id], failed + 1;
        return Finished;
      }
      if o.NoCorrectOption? {
        visited, failed := visited + [id], failed + 1;
        return Finished;
      }
      if o.Accepted? {
        ending := Accept(id, o.cost, o.questionSaved, o.rowSaved);
      } else {
        ending := Fail(id, o);
      }
    }

    /** The model was called in vain: no answer, or one that is rejected. */
    method Fail(id: string, o: Outcome) returns (ending: Ending)
      requires AsAfter(|visited|) && o == outcomes(|visited|) && (o.TransportError? || o.Rejected?)
      modifies this
      ensures ending.Aborted? <==> Faults(o)
      ensures !ending.Aborted? ==> ending.Finished? && visited == old(visited) + [id] && AsAfter(|visited|)
      ensures ending.Aborted? ==> visited == old(visited) && CutShortAt(|visited|)
    {
      modelCalls := modelCalls + [|visited|];
      if o.Rejected? { cost := cost + o.cost; }
      failed := failed + 1;
      Persist(o.rowSaved);
      if !o.rowSaved { return Aborted; }
      visited := visited + [id];
      ending := Finished;
    }

    /** The explanation is stored, the job row saved, and only then the breaker looked at. */
    method Accept(id: string, price: Cost, questionSaved: bool, rowSaved: bool) returns (ending: Ending)
      requires AsAfter(|visited|) && outcomes(|visited|) == Accepted(price, questionSaved, rowSaved)
      modifies this
      ensures ending.Aborted? <==> !questionSaved || !rowSaved
      ensures !ending.Unfetched? && (ending.Tripped? <==> TripsAt(outcomes, estimate, old(|visited|)))
      ensures !ending.Aborted? ==> visited == old(visited) + [id] && AsAfter(|visited|)
      ensures ending.Aborted? ==> visited == old(visited) && CutShortAt(|visited|)
    {
      modelCalls := modelCalls + [|visited|];
      cost := cost + price;
      if !questionSaved { return Aborted; }
      completed := completed + 1;
      Persist(rowSaved);
      if !rowSaved { return Aborted; }
      visited := visited + [id];
      ending := if ExceedsJobCostCap(estimate, cost) then Tripped else Finished;
    }

    /** Nothing before the stop position stops the job, and what is there stops it in the stated way. */
    ghost predicate StoppedBy(ending: Ending)
      reads this
    {
      match ending
      case Finished => RunsThrough(outcomes, estimate, |visited|) && AsAfter(|visited|)
      case Unfetched => RunsThrough(outcomes, estimate, |visited|) && AsAfter(|visited|)
      case Tripped =>
        |visited| > 0 && RunsThrough(outcomes, estimate, |visited| - 1)
        && TripsAt(outcomes, estimate, |visited| - 1) && AsAfter(|visited|)
      case Aborted => RunsThrough(outcomes, estimate, |visited|) && CutShortAt(|visited|)
    }

    lemma Balances(ending: Ending)
      requires StoppedBy(ending)
      ensures !ending.Aborted? ==> completed + failed == |visited|
    {
      if !ending.Aborted? { EveryPositionIsCounted(outcomes, |visited|); }
    }

    /** The first n slices were fetched. */
    ghost predicate FetchedBefore(n: nat) { forall k: nat | k < n :: fetched(k) }

    method RunSlice(slice: seq<string>) returns (ending: Ending)
      requires StoppedBy(Finished)
      modifies this
      ensures StoppedBy(ending)
      ensures old(|visited|) <= |visited| <= old(|visited|) + |slice|
      ensures visited == old(visited) + slice[..|visited| - old(|visited|)]
      ensures !ending.Unfetched? && (ending.Finished? ==> |visited| == old(|visited|) + |slice|)
      ensures ending.Aborted? ==> |visited| < old(|visited|) + |slice|
    {
      for i := 0 to |slice|
        invariant |visited| == old(|visited|) + i && visited == old(visited) + slice[..i]
        invariant StoppedBy(Finished)
      {
        assert slice[..i + 1] == slice[..i] + [slice[i]];
        ending := Explain(slice[i]);
        if !ending.Finished? { return; }
      }
      ending := Finished;
    }

    /** The slice that begins at `start`. */
    method RunNext(ids: seq<string>, start: nat) returns (ending: Ending)
      requires start < |ids| && visited == ids[..start] && StoppedBy(Finished)
      modifies this
      ensures StoppedBy(ending) && visited <= ids && !ending.Unfetched?
      ensures ending.Finished? ==> visited == ids[..if start + 50 < |ids| then start + 50 else |ids|]
      ensures ending.Aborted? ==> |visited| < |ids|
    {
      var end := if start + BATCH < |ids| then start + BATCH else |ids|;
      ending := RunSlice(ids[start..end]);
      PrefixExtends(ids, start, end, |visited| - start);
    }

    /**
      Slices of fifty, each position once and in order, until the end, the breaker, a fault, or a slice that cannot be
      fetched.
     */
    method RunExplanationJob(ids: seq<string>) returns (ending: Ending, slices: nat)
      requires visited == [] && AsAfter(0)
      modifies this
      ensures StoppedBy(ending)
      ensures visited <= ids
      ensures ending.Finished? ==> visited == ids
      ensures FetchedBefore(slices) && (ending.Finished? ==> |ids| <= 50 * slices)
      ensures ending.Unfetched? ==> |visited| == 50 * slices < |ids| && !fetched(slices)
      ensures ending.Aborted? ==> |visited| < |ids|
      ensures !ending.Aborted? ==> completed + failed == |visited|
    {
      var start: nat := 0;
      slices := 0;
      while start < |ids|
        invariant visited == ids[..if start < |ids| then start else |ids|]
        invariant start == BATCH * slices && FetchedBefore(slices)
        invariant StoppedBy(Finished)
        decreases |ids| - start
      {
        if !fetched(slices) {
          ending := Unfetched;
          Balances(ending);
          return;
        }
        ending := RunNext(ids, start);
        start, slices := start + BATCH, slices + 1;
        if !ending.Finished? {
          Balances(ending);
          return;
        }
      }
      ending := Finished;
      Balances(ending);
    }
  }

  /** The row of a job that was not aborted is complete exactly if its last position was not a skip. */
  lemma RowIsCompleteIff(outcomes: nat -> Outcome, n: nat)
    requires forall k: nat | k < n :: !Faults(outcomes(k))
    ensures var k := LastSave(outcomes, n);
            CompletedIn(outcomes, k) + FailedIn(outcomes, k) == n <==> n == 0 || !Skips(outcomes(n - 1))
  {
    EveryPositionIsCounted(outcomes, LastSave(outcomes, n));
  }
}
