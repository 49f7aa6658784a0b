/**
  The PM-test generation job: each selection's question count is split by difficulty, dealt over the
  topics, sliced into batches, and every batch is one model call that may fail in several ways.
 */
module PmTestJob {
  import opened Arithmetic
  import opened CostCap
  import opened Wrappers

  // ----- The split by difficulty -----------------------------------------------------------------

  datatype Mix = Mix(easy: nat, medium: nat, hard: nat)

  function Split(total: nat, easyShare: nat, mediumShare: nat): Mix {
    Mix(easyShare, mediumShare, if total >= easyShare + mediumShare then total - easyShare - mediumShare else 0)
  }

  function Share(percent: nat, total: nat): nat { percent * total / 100 }

  function DistributeByDifficulty(total: nat, mix: Mix): Mix {
    Split(total, Share(mix.easy, total), Share(mix.medium, total))
  }

  function Sum(mix: Mix): nat { mix.easy + mix.medium + mix.hard }

  /**
    However the two shares are rounded down, the parts add up to the request if easy and medium are at most 100
    percent.
   */
  lemma SplitSums(total: nat, mix: Mix, easyShare: nat, mediumShare: nat)
    requires 100 * easyShare <= mix.easy * total && 100 * mediumShare <= mix.medium * total
    requires mix.easy + mix.medium <= 100
    ensures Sum(Split(total, easyShare, mediumShare)) == total
  {
    assert mix.easy * total + mix.medium * total == (mix.easy + mix.medium) * total;
    assert (mix.easy + mix.medium) * total <= 100 * total;
  }

  /** For any mix: the parts add up exactly if the first two fit; otherwise hard is 0 and too much is planned. */
  lemma DistributionSumsIff(total: nat, mix: Mix)
    ensures var d := DistributeByDifficulty(total, mix);
            && (Sum(d) == total <==> Share(mix.easy, total) + Share(mix.medium, total) <= total)
            && Sum(d) >= total
            && (mix.easy + mix.medium <= 100 ==> Sum(d) == total)
  {
    if mix.easy + mix.medium <= 100 { SplitSums(total, mix, Share(mix.easy, total), Share(mix.medium, total)); }
  }

  /**
    Easy and medium get their own percentage of the questions, rounded down; hard gets what is left, if anything is.
   */
  lemma SharesFollowTheMix(total: nat, mix: Mix)
    ensures var d := DistributeByDifficulty(total, mix);
            && 100 * d.easy <= mix.easy * total < 100 * (d.easy + 1)
            && 100 * d.medium <= mix.medium * total < 100 * (d.medium + 1)
            && d.hard == if d.easy + d.medium <= total then total - d.easy - d.medium else 0
  {
    var (easy, medium) := (mix.easy * total, mix.medium * total);
    assert easy == 100 * (easy / 100) + easy % 100 && medium == 100 * (medium / 100) + medium % 100;
  }

  // ----- Dealing over the topics -------------------------------------------------------------------

  function Picks(topics: seq<string>, n: nat): (picks: seq<Option<string>>)
    ensures |picks| == n
  {
    if topics == [] then seq(n, i => None) else seq(n, i requires i >= 0 => Some(topics[i % |topics|]))
  }

  function Count(picks: seq<Option<string>>, topic: string): nat {
    if picks == [] then 0 else Count(picks[..|picks| - 1], topic) + if picks[|picks| - 1] == Some(topic) then 1 else 0
  }

  ghost predicate Distinct(topics: seq<string>) { forall i, j | 0 <= i < j < |topics| :: topics[i] != topics[j] }

  lemma PicksGrow(topics: seq<string>, n: nat)
    requires n > 0 && topics != []
    ensures Picks(topics, n) == Picks(topics, n - 1) + [Some(topics[(n - 1) % |topics|])]
  {
  }

  /** Full rounds and topics already served in the current one, after n picks. */
  function Rounds(n: nat, m: nat): (p: (nat, nat))
    requires m > 0
    ensures p.1 < m
  {
    if n == 0 then (0, 0)
    else
      var (q, r) := Rounds(n - 1, m);
      if r + 1 == m then (q + 1, 0) else (q, r + 1)
  }

  lemma {:induction false} ServedIsRemainder(n: nat, m: nat)
    requires m > 0
    ensures Rounds(n, m).1 == n % m
  {
    if n > 0 {
      ServedIsRemainder(n - 1, m);
      NextRemainder(n - 1, m);
    }
  }

  function Dealt(topics: seq<string>, n: nat): seq<Option<string>>
    requires topics != []
  {
    if n == 0 then [] else Dealt(topics, n - 1) + [Some(topics[Rounds(n - 1, |topics|).1])]
  }

  lemma {:induction false} PicksAreDealt(topics: seq<string>, n: nat)
    requires topics != []
    ensures Picks(topics, n) == Dealt(topics, n)
  {
    if n > 0 {
      PicksAreDealt(topics, n - 1);
      ServedIsRemainder(n - 1, |topics|);
      PicksGrow(topics, n);
    }
  }

  /** The topics served in the current round have one pick more than the others. */
  lemma {:induction false} TopicCount(topics: seq<string>, n: nat, t: nat)
    requires t < |topics| && Distinct(topics)
    ensures var (q, r) := Rounds(n, |topics|);
            Count(Dealt(topics, n), topics[t]) == q + if t < r then 1 else 0
  {
    if n > 0 {
      TopicCount(topics, n - 1, t);
      LastCount(Dealt(topics, n - 1), Some(topics[Rounds(n - 1, |topics|).1]), topics[t]);
    }
  }

  lemma NextRemainder(n: nat, m: nat)
    requires m > 0
    ensures (n + 1) % m == if n % m + 1 == m then 0 else n % m + 1
  {
    var (q, r) := (n / m, n % m);
    assert n == m * q + r;
    if r + 1 == m {
      Distribute(m, q, 0);
      Unique(n + 1, m, q + 1, 0);
    } else {
      Unique(n + 1, m, q, r + 1);
    }
  }

  lemma LastCount(picks: seq<Option<string>>, last: Option<string>, topic: string)
    ensures Count(picks + [last], topic) == Count(picks, topic) + if last == Some(topic) then 1 else 0
  {
    assert (picks + [last])[..|picks|] == picks;
  }

  lemma Unique(n: nat, m: nat, q: nat, r: nat)
    requires m > 0 && n == m * q + r && r < m
    ensures n / m == q && n % m == r
  {
    assert n == m * (n / m) + n % m;
    SameQuotient(m, n / m, n % m, q, r);
  }

  lemma SameQuotient(m: nat, p: nat, r: nat, q: nat, s: nat)
    requires m * p + r == m * q + s && r < m && s < m
    ensures p == q
  {
    if p < q { Distribute(m, p, q - p - 1); }
    if q < p { Distribute(m, q, p - q - 1); }
  }

  /** No topic gets more than one question more than another. */
  lemma RoundRobinIsFair(topics: seq<string>, n: nat, s: nat, t: nat)
    requires s < |topics| && t < |topics| && Distinct(topics)
    ensures var (a, b) := (Count(Picks(topics, n), topics[s]), Count(Picks(topics, n), topics[t]));
            a <= b + 1 && b <= a + 1
  {
    PicksAreDealt(topics, n);
    TopicCount(topics, n, s);
    TopicCount(topics, n, t);
  }

  // ----- Batches -------------------------------------------------------------------------------------

  function Batches(picks: seq<Option<string>>, size: nat): seq<seq<Option<string>>>
    requires size > 0
    decreases |picks|
  {
    if picks == [] then [] else if |picks| <= size then [picks] else [picks[..size]] + Batches(picks[size..], size)
  }

  function Flatten(batches: seq<seq<Option<string>>>): seq<Option<string>> {
    if batches == [] then [] else batches[0] + Flatten(batches[1..])
  }

  /** Every batch is full but perhaps the last, and none is empty. */
  predicate WellCut(batches: seq<seq<Option<string>>>, size: nat) {
    batches == [] ||
    (0 < |batches[0]| <= size && (|batches| > 1 ==> |batches[0]| == size) && WellCut(batches[1..], size))
  }

  lemma Prepended(first: seq<Option<string>>, rest: seq<seq<Option<string>>>)
    ensures Flatten([first] + rest) == first + Flatten(rest)
    ensures forall size: nat :: WellCut(rest, size) && |first| == size > 0 ==> WellCut([first] + rest, size)
  {
    assert ([first] + rest)[1..] == rest;
  }

  /** The batches are the picks cut in order. */
  lemma {:induction false} BatchesPartition(picks: seq<Option<string>>, size: nat)
    requires size > 0
    ensures Flatten(Batches(picks, size)) == picks && WellCut(Batches(picks, size), size)
    decreases |picks|
  {
    if |picks| > size {
      BatchesPartition(picks[size..], size);
      Prepended(picks[..size], Batches(picks[size..], size));
      assert picks == picks[..size] + picks[size..];
    } else if picks != [] {
      Prepended(picks, []);
    }
  }

  // ----- The job -------------------------------------------------------------------------------------

  /** What a model call comes to after its retries; items is None when validation rejects the content. */
  datatype Reply =
    | TransportError
    | Content(cost: Cost, items: Option<nat>, insertFaultAt: Option<nat>)

  /** `saved` is whether the update of the job row after the batch succeeds. */
  datatype Outcome = Outcome(reply: Reply, saved: bool)

  datatype Selection = Selection(questionCount: nat, mix: Mix, looksUp: bool, subjectExists: bool, topics: seq<string>,
                                 saved: bool)

  /** How many items the job undertakes. */
  function Planned(s: Selection): nat {
    if s.subjectExists then Sum(DistributeByDifficulty(s.questionCount, s.mix)) else s.questionCount
  }

  function AllPlanned(selections: seq<Selection>): nat {
    if selections == [] then 0 else AllPlanned(selections[..|selections| - 1]) + Planned(selections[|selections| - 1])
  }

  function Requested(selections: seq<Selection>): nat {
    if selections == [] then 0
    else Requested(selections[..|selections| - 1]) + selections[|selections| - 1].questionCount
  }

  /** The job undertakes what was requested, unless some mix gives easy and medium more than there is. */
  lemma {:induction false} PlannedIsRequested(selections: seq<Selection>)
    requires forall s <- selections :: s.mix.easy + s.mix.medium <= 100
    ensures AllPlanned(selections) == Requested(selections)
  {
    if selections != [] {
      PlannedIsRequested(selections[..|selections| - 1]);
      var last := selections[|selections| - 1];
      DistributionSumsIff(last.questionCount, last.mix);
    }
  }

  datatype Difficulty = Easy | Medium | Hard

  /** n more questions of a difficulty. */
  function More(asked: Mix, d: Difficulty, n: nat): Mix {
    match d
    case Easy => asked.(easy := asked.easy + n)
    case Medium => asked.(medium := asked.medium + n)
    case Hard => asked.(hard := asked.hard + n)
  }

  /** How many questions of each difficulty the selections ask for, beside `asked`. */
  function Asking(asked: Mix, selections: seq<Selection>): Mix {
    if selections == [] then asked
    else
      var before, s := Asking(asked, selections[..|selections| - 1]), selections[|selections| - 1];
      var mix := DistributeByDifficulty(s.questionCount, s.mix);
      if s.subjectExists then More(More(More(before, Easy, mix.easy), Medium, mix.medium), Hard, mix.hard) else before
  }

  /** One selection asks for each difficulty's own share of its questions, and for nothing if its subject is missing. */
  lemma AskingFollowsTheMix(asked: Mix, selections: seq<Selection>, s: Selection)
    ensures var (was, now) := (Asking(asked, selections), Asking(asked, selections + [s]));
            var (easy, medium, hard) := (now.easy - was.easy, now.medium - was.medium, now.hard - was.hard);
            && (!s.subjectExists ==> now == was)
            && (s.subjectExists ==>
                  && 100 * easy <= s.mix.easy * s.questionCount < 100 * (easy + 1)
                  && 100 * medium <= s.mix.medium * s.questionCount < 100 * (medium + 1)
                  && hard == if easy + medium <= s.questionCount then s.questionCount - easy - medium else 0)
  {
    assert (selections + [s])[..|selections|] == selections;
    SharesFollowTheMix(s.questionCount, s.mix);
  }

  /** The job undertakes what a selection asks for, and all its questions, as failed, if its subject is missing. */
  lemma UndertakenIsAsked(asked: Mix, selections: seq<Selection>, s: Selection)
    ensures AllPlanned([]) == 0
    ensures AllPlanned(selections + [s]) - AllPlanned(selections) ==
              if s.subjectExists then Sum(Asking(asked, selections + [s])) - Sum(Asking(asked, selections))
              else s.questionCount
  {
    assert (selections + [s])[..|selections|] == selections;
  }

  /** One model call a batch. */
  function Calls(s: Selection, batchSize: nat): nat
    requires batchSize > 0
  {
    var mix := DistributeByDifficulty(s.questionCount, s.mix);
    if !s.subjectExists then 0
    else |Batches(Picks(s.topics, mix.easy), batchSize)| + |Batches(Picks(s.topics, mix.medium), batchSize)| +
         |Batches(Picks(s.topics, mix.hard), batchSize)|
  }

  function AllCalls(selections: seq<Selection>, batchSize: nat): nat
    requires batchSize > 0
  {
    if selections == [] then 0
    else AllCalls(selections[..|selections| - 1], batchSize) + Calls(selections[|selections| - 1], batchSize)
  }

  /** As many batches as it takes. */
  ghost predicate JustCover(batches: nat, size: nat, n: nat) { n <= batches * size < n + size }

  lemma {:induction false} BatchesJustCover(picks: seq<Option<string>>, size: nat)
    requires size > 0
    ensures JustCover(|Batches(picks, size)|, size, |picks|)
    decreases |picks|
  {
    if |picks| > size {
      BatchesJustCover(picks[size..], size);
      var rest := |Batches(picks[size..], size)|;
      assert (rest + 1) * size == rest * size + size;
    }
  }

  /**
    Each difficulty's questions are asked for in as few calls as hold them, and none is made for a missing subject.
   */
  lemma CallsCoverTheShares(selections: seq<Selection>, s: Selection, size: nat) returns (e: nat, m: nat, h: nat)
    requires size > 0
    ensures AllCalls([], size) == 0 && AllCalls(selections + [s], size) == AllCalls(selections, size) + e + m + h
    ensures !s.subjectExists ==> e + m + h == 0
    ensures var share := Asking(Mix(0, 0, 0), [s]);
            JustCover(e, size, share.easy) && JustCover(m, size, share.medium) && JustCover(h, size, share.hard)
  {
    assert (selections + [s])[..|selections|] == selections && [s][..0] == [];
    e, m, h := 0, 0, 0;
    if s.subjectExists {
      var mix := DistributeByDifficulty(s.questionCount, s.mix);
      e, m := |Batches(Picks(s.topics, mix.easy), size)|, |Batches(Picks(s.topics, mix.medium), size)|;
      h := |Batches(Picks(s.topics, mix.hard), size)|;
      BatchesJustCover(Picks(s.topics, mix.easy), size);
      BatchesJustCover(Picks(s.topics, mix.medium), size);
      BatchesJustCover(Picks(s.topics, mix.hard), size);
    }
  }

  /** How many items a reply yields at a running cost that includes it. */
  function Yield(reply: Reply, estimate: real, running: real): nat {
    if reply.TransportError? || ExceedsJobCostCap(estimate, running) || reply.items.None? then 0 else reply.items.value
  }

  function Items(reply: Reply): nat { if reply.Content? && reply.items.Some? then reply.items.value else 0 }

  function Price(reply: Reply): Cost { if reply.Content? then reply.cost else 0.0 }

  function Over(items: nat, size: nat): nat { if items > size then items - size else 0 }

  /**
    A batch is charged what its answer cost, and yields its valid items unless that takes a job with an estimate above
    both 0.1 and one and a half times the estimate.
   */
  lemma WhatABatchYields(reply: Reply, estimate: real, spent: real, size: nat)
    ensures var running := spent + Price(reply);
            var (tripped, n) := (estimate > 0.0 && 0.1 < running && 1.5 * estimate < running,
                                 Yield(reply, estimate, running));
            && (reply.TransportError? ==> running == spent && n == Items(reply) == 0)
            && (reply.Content? ==> running == spent + reply.cost)
            && (reply.Content? && reply.items.None? ==> n == Items(reply) == 0)
            && (reply.Content? && reply.items.Some? ==>
                  Items(reply) == reply.items.value && n == if tripped then 0 else reply.items.value)
            && (if n <= size then Over(n, size) == 0 else size + Over(n, size) == n)
  {
  }

  /** The topics of n questions generated for a batch: one each in order, the last topic again for any surplus. */
  function TopicsFor(batch: seq<Option<string>>, n: nat): (topics: seq<Option<string>>)
    requires batch != []
    ensures |topics| == n
  {
    if n == 0 then [] else TopicsFor(batch, n - 1) + [batch[if n - 1 < |batch| - 1 then n - 1 else |batch| - 1]]
  }

  lemma {:induction false} TopicsInOrder(batch: seq<Option<string>>, n: nat, i: nat)
    requires i < n && batch != []
    ensures TopicsFor(batch, n)[i] == if i < |batch| then batch[i] else batch[|batch| - 1]
  {
    if i < n - 1 { TopicsInOrder(batch, n - 1, i); }
  }

  /** What one selection more adds to what is planned, called and asked for. */
  lemma OneMore(asked: Mix, selections: seq<Selection>, i: nat, size: nat)
    requires i < |selections| && size > 0
    ensures var (before, now) := (selections[..i], selections[..i + 1]);
            && AllPlanned(now) == AllPlanned(before) + Planned(selections[i])
            && AllCalls(now, size) == AllCalls(before, size) + Calls(selections[i], size)
            && Asking(asked, now) == Asking(Asking(asked, before), [selections[i]])
  {
    assert selections[..i + 1][..i] == selections[..i];
    assert [selections[i]][..0] == [];
  }

  class Job {
    const estimate: real
    const batchSize: nat
    const outcomes: nat -> Outcome

    var calls: nat
    var asked: Mix  // how many questions of each difficulty the calls asked for
    var completed: nat
    var failed: nat
    var cost: real
    var inserted: seq<Option<string>>  // the topics of the questions inserted

    var rowCompleted: nat
    var rowFailed: nat
    var rowCost: real

    ghost var excess: nat  // items delivered beyond their batch

    constructor (estimate: real, batchSize: nat, outcomes: nat -> Outcome)
      requires batchSize > 0
      ensures this.estimate == estimate && this.batchSize == batchSize && this.outcomes == outcomes
      ensures calls == completed == failed == excess == 0 && cost == 0.0 && inserted == [] && asked == Mix(0, 0, 0)
      ensures AtBoundary()
    {
      this.estimate, this.batchSize, this.outcomes := estimate, batchSize, outcomes;
      calls, asked, completed, failed, cost, inserted, excess := 0, Mix(0, 0, 0), 0, 0, 0.0, [], 0;
      rowCompleted, rowFailed, rowCost := 0, 0, 0.0;
    }

    /** The row agrees with the counters, every completed item is a question, and the retained totals make sense. */
    ghost predicate AtBoundary()
      reads this
    {
      && batchSize > 0
      && rowCompleted == completed && rowFailed == failed && rowCost == cost
      && completed == |inserted|
    }

    /** The row misses at most what the last batch delivered, and its cost. */
    ghost predicate BatchLost()
      reads this
    {
      && calls > 0 && completed == |inserted|
      && rowCompleted <= completed <= rowCompleted + Items(outcomes(calls - 1).reply)
      && rowFailed <= failed <= rowFailed + batchSize
      && cost == rowCost + Price(outcomes(calls - 1).reply)
    }

    /** Or it misses one selection whose subject does not exist. */
    ghost predicate SelectionLost(s: Selection)
      reads this
    {
      completed == |inserted| == rowCompleted && failed == rowFailed + s.questionCount && cost == rowCost
    }

    /** Or nothing, if it stopped at a selection whose archive, subject or topic query fails. */
    ghost predicate LookupLost(s: Selection)
      reads this
    {
      !s.looksUp && AtBoundary()
    }

    /** What an aborted job leaves behind. */
    ghost predicate Interrupted(selections: seq<Selection>)
      reads this
    {
      BatchLost() || exists s <- selections :: SelectionLost(s) || LookupLost(s)
    }

    /** `n` more items are accounted for. */
    twostate predicate Accounted(n: nat)
      reads this
    {
      && completed + failed == old(completed + failed) + n + (excess - old(excess))
      && old(excess) <= excess && old(completed) <= completed && old(failed) <= failed && old(cost) <= cost
      && old(inserted) <= inserted
      // over the cap nothing completes any more
      && (ExceedsJobCostCap(estimate, old(cost)) ==> ExceedsJobCostCap(estimate, cost) && completed == old(completed))
    }

    method Persist(saved: bool) returns (ok: bool)
      modifies this`rowCompleted, this`rowFailed, this`rowCost
      ensures ok == saved
      ensures ok ==> rowCompleted == completed && rowFailed == failed && rowCost == cost
      ensures !ok ==> rowCompleted == old(rowCompleted) && rowFailed == old(rowFailed) && rowCost == old(rowCost)
    {
      if saved { rowCompleted, rowFailed, rowCost := completed, failed, cost; }
      ok := saved;
    }

    /** Inserts the generated questions one by one, for the topics of the batch; an insert may fail. */
    method InsertAll(batch: seq<Option<string>>, generated: nat, faultAt: Option<nat>) returns (ok: bool)
      requires batch != []
      modifies this`completed, this`inserted
      ensures ok <==> faultAt.None? || faultAt.value >= generated
      ensures ok ==> completed == old(completed) + generated
      ensures !ok ==> completed == old(completed) + faultAt.value
      ensures inserted == old(inserted) + TopicsFor(batch, completed - old(completed))
    {
      for j := 0 to generated
        invariant faultAt.Some? ==> faultAt.value >= j
        invariant completed == old(completed) + j && inserted == old(inserted) + TopicsFor(batch, j)
      {
        if faultAt == Some(j) { return false; }
        inserted := inserted + [batch[if j < |batch| - 1 then j else |batch| - 1]];
        completed := completed + 1;
      }
      ok := true;
    }

    /** One model call. Exceeding the cost cap only fails this batch; the caller goes on to the next. */
    method RunBatch(d: Difficulty, batch: seq<Option<string>>) returns (ok: bool)
      requires 0 < |batch| <= batchSize && AtBoundary()
      modifies this
      ensures calls == old(calls) + 1 && asked == More(old(asked), d, |batch|)
      ensures ok ==> AtBoundary() && Accounted(|batch|)
      ensures !ok ==> BatchLost() && rowCompleted == old(completed) && rowFailed == old(failed) && rowCost == old(cost)
      ensures var o := outcomes(old(calls));
              ok <==> o.saved && (o.reply.TransportError? || ExceedsJobCostCap(estimate, old(cost) + o.reply.cost)
                                  || o.reply.items.None? || o.reply.insertFaultAt.None?
                                  || o.reply.insertFaultAt.value >= o.reply.items.value)
      ensures var o := outcomes(old(calls));
              cost == old(cost) + Price(o.reply)
      ensures ok ==> completed == old(completed) + Yield(outcomes(old(calls)).reply, estimate, cost)
      ensures ok ==> excess == old(excess) + Over(Yield(outcomes(old(calls)).reply, estimate, cost), |batch|)
      ensures ok ==> inserted == old(inserted) + TopicsFor(batch, Yield(outcomes(old(calls)).reply, estimate, cost))
    {
      var o := outcomes(calls);
      calls, asked := calls + 1, More(asked, d, |batch|);
      if o.reply.TransportError? {
        ok := FailBatch(|batch|, o.saved);
        return;
      }
      cost := cost + o.reply.cost;
      if ExceedsJobCostCap(estimate, cost) {
        ok := FailBatch(|batch|, o.saved);
        return;
      }
      if o.reply.items.None? {
        ok := FailBatch(|batch|, o.saved);
        return;
      }
      ok := KeepBatch(batch, o.reply.items.value, o.reply.insertFaultAt, o.saved);
    }

    /** The whole batch counts as failed. */
    method FailBatch(size: nat, saved: bool) returns (ok: bool)
      modifies this`failed, this`rowCompleted, this`rowFailed, this`rowCost
      ensures ok == saved && failed == old(failed) + size
      ensures ok ==> rowCompleted == completed && rowFailed == failed && rowCost == cost
      ensures !ok ==> rowCompleted == old(rowCompleted) && rowFailed == old(rowFailed) && rowCost == old(rowCost)
    {
      failed := failed + size;
      ok := Persist(saved);
    }

    /** Inserts what was generated, and counts any shortfall as failed. */
    method KeepBatch(batch: seq<Option<string>>, generated: nat, faultAt: Option<nat>, saved: bool) returns (ok: bool)
      requires batch != []
      modifies this`completed, this`inserted, this`failed, this`excess, this`rowCompleted, this`rowFailed, this`rowCost
      ensures ok <==> saved && (faultAt.None? || faultAt.value >= generated)
      ensures ok ==> completed == old(completed) + generated && inserted == old(inserted) + TopicsFor(batch, generated)
      ensures ok ==>
                failed == old(failed) + Over(|batch|, generated) && excess == old(excess) + Over(generated, |batch|)
      ensures ok ==> rowCompleted == completed && rowFailed == failed && rowCost == cost
      ensures !ok ==>
                old(completed) <= completed <= old(completed) + generated
                && |inserted| - old(|inserted|) == completed - old(completed)
      ensures !ok ==> old(failed) <= failed <= old(failed) + |batch|
      ensures !ok ==> rowCompleted == old(rowCompleted) && rowFailed == old(rowFailed) && rowCost == old(rowCost)
    {
      ok := InsertAll(batch, generated, faultAt);
      if !ok { return; }
      excess := excess + if generated > |batch| then generated - |batch| else 0;
      failed := failed + if |batch| > generated then |batch| - generated else 0;
      ok := Persist(saved);
    }

    /** Deals `n` picks over the topics, as the loop of the source does. */
    static method Deal(topics: seq<string>, n: nat) returns (picks: seq<Option<string>>)
      ensures picks == Picks(topics, n)
    {
      picks := [];
      if topics == [] {
        for i := 0 to n
          invariant picks == Picks(topics, i)
        {
          picks := picks + [None];
        }
      } else {
        var remaining: nat, t: nat := n, 0;
        while remaining > 0
          invariant t + remaining == n && picks == Picks(topics, t)
        {
          PicksGrow(topics, t + 1);
          picks := picks + [Some(topics[t % |topics|])];
          remaining, t := remaining - 1, t + 1;
        }
      }
    }

    method RunDifficulty(d: Difficulty, topics: seq<string>, n: nat) returns (ok: bool)
      requires AtBoundary()
      modifies this
      ensures ok ==> asked == More(old(asked), d, n)
      ensures ok ==> AtBoundary() && Accounted(n)
      ensures ok ==> calls == old(calls) + |Batches(Picks(topics, n), batchSize)|
      ensures !ok ==> BatchLost()
    {
      var picks := Deal(topics, n);
      var i: nat := 0;
      while i < |picks|
        invariant AtBoundary() && Accounted(if i < n then i else n)
        invariant asked == More(old(asked), d, if i < n then i else n)
        invariant calls + |Batches(picks[(if i < n then i else n)..], batchSize)| ==
                    old(calls) + |Batches(picks, batchSize)|
      {
        var end := if i + batchSize < |picks| then i + batchSize else |picks|;
        var batch := picks[i..end];
        ok := RunBatch(d, batch);
        if !ok { return; }
        if end < |picks| { assert picks[i..][batchSize..] == picks[i + batchSize..]; }
        i := i + batchSize;
      }
      ok := true;
    }

    method RunSelection(s: Selection) returns (ok: bool)
      requires AtBoundary()
      modifies this
      ensures ok ==> AtBoundary() && Accounted(Planned(s)) && calls == old(calls) + Calls(s, batchSize)
      ensures !ok ==> BatchLost() || SelectionLost(s) || LookupLost(s)
      ensures ok ==> s.looksUp && asked == Asking(old(asked), [s])
      ensures !s.looksUp ==>
                calls == old(calls) && completed == old(completed) && failed == old(failed) && cost == old(cost)
    {
      if !s.looksUp { return false; }
      if !s.subjectExists {
        failed := failed + s.questionCount;
        if s.saved { rowCompleted, rowFailed := completed, failed; }
        return s.saved;
      }
      var mix := DistributeByDifficulty(s.questionCount, s.mix);
      ok := RunDifficulty(Easy, s.topics, mix.easy);
      if !ok { return; }
      ok := RunDifficulty(Medium, s.topics, mix.medium);
      if !ok { return; }
      ok := RunDifficulty(Hard, s.topics, mix.hard);
    }

    /**
      Over every pattern of failures: the counters account for exactly what was undertaken, the row agrees, and
      every batch is called, whatever the cost.
     */
    method RunPmTestJob(selections: seq<Selection>) returns (ok: bool)
      requires AtBoundary()
      modifies this
      ensures ok ==>
                AtBoundary() && Accounted(AllPlanned(selections))
                && calls == old(calls) + AllCalls(selections, batchSize)
      ensures ok ==> (forall s <- selections :: s.looksUp) && asked == Asking(old(asked), selections)
      ensures !ok ==> Interrupted(selections)
    {
      for i := 0 to |selections|
        invariant AtBoundary() && Accounted(AllPlanned(selections[..i]))
        invariant calls == old(calls) + AllCalls(selections[..i], batchSize)
        invariant forall j | 0 <= j < i :: selections[j].looksUp
        invariant asked == Asking(old(asked), selections[..i])
      {
        OneMore(old(asked), selections, i, batchSize);
        ok := RunSelection(selections[i]);
        if !ok { return; }
      }
      assert selections[..|selections|] == selections;
      ok := true;
    }
  }
}
