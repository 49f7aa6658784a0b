/**
  Explanation jobs from preview to completion: a preview token is traded for one job, costly jobs wait
  for a second admin, and the worker runs what was enqueued. Service calls are atomic steps; the worker's
  start, end and crash are separate ones.
 */
module Cosign {
  import opened Wrappers

  const PREVIEW_TTL_SECONDS := 600

  datatype Config = Config(maxCost: real, threshold: real, maxItems: nat)

  datatype Preview = Preview(cost: real, items: nat, expiresAt: int)

  datatype Status = PendingApproval | Pending | Running | Completed | Failed | Cancelled

  /** `token` is the preview a generated job came from, None for a single-question regeneration. */
  datatype Job = Job(status: Status, creator: string, approver: Option<string>, cost: real, items: nat,
                     token: Option<string>)

  /** `attempts` is the queue: how often each job may still be started. `enqueued` and `ran` are history. */
  datatype State = State(previews: map<string, Preview>, jobs: map<string, Job>, attempts: map<string, nat>,
                         working: set<string>, enqueued: seq<string>, ran: seq<string>)

  datatype Event =
    | PreviewCall(token: string, items: nat, cost: real, now: int)
    | Generate(admin: string, token: string, job: string, now: int)
    | Regenerate(admin: string, job: string, cost: real)
    | Approve(admin: string, job: string)
    | Reject(admin: string, job: string)
    | Start(job: string, budgetLeft: bool)
    | Finish(job: string, ok: bool)
    | Crash(job: string)

  predicate RequiresCosign(c: Config, cost: real) { c.threshold > 0.0 && cost > c.threshold }

  predicate Live(previews: map<string, Preview>, token: string, now: int) {
    token in previews && previews[token].expiresAt > now
  }

  /** queue.add with two attempts. */
  function Enqueue(s: State, job: string): State {
    s.(attempts := s.attempts[job := 2], enqueued := s.enqueued + [job])
  }

  function WithStatus(s: State, job: string, status: Status): State
    requires job in s.jobs
  {
    s.(jobs := s.jobs[job := s.jobs[job].(status := status)])
  }

  predicate PreviewAllowed(c: Config, items: nat, cost: real) { items > 0 && cost <= c.maxCost }

  /** The token is gone whether or not the batch fits. */
  function Generated(c: Config, s: State, admin: string, token: string, job: string, now: int): State {
    if !Live(s.previews, token, now) then s
    else
      var p := s.previews[token];
      var burnt := s.(previews := s.previews - {token});
      if p.items > c.maxItems then burnt
      else if RequiresCosign(c, p.cost) then
        burnt.(jobs := burnt.jobs[job := Job(PendingApproval, admin, None, p.cost, p.items, Some(token))])
      else
        Enqueue(burnt.(jobs := burnt.jobs[job := Job(Pending, admin, None, p.cost, p.items, Some(token))]), job)
  }

  predicate CanApprove(s: State, admin: string, job: string) {
    job in s.jobs && s.jobs[job].status.PendingApproval? && s.jobs[job].creator != admin
  }

  predicate CanReject(s: State, job: string) { job in s.jobs && s.jobs[job].status.PendingApproval? }

  function Approved(s: State, admin: string, job: string): State
    requires job in s.jobs
  {
    Enqueue(s.(jobs := s.jobs[job := s.jobs[job].(status := Pending, approver := Some(admin))]), job)
  }

  predicate CanStart(s: State, job: string) { job in s.attempts && s.attempts[job] > 0 && job !in s.working }

  /** The worker does not look at the status. */
  function Started(s: State, job: string, budgetLeft: bool): State
    requires CanStart(s, job)
  {
    var taken := s.(attempts := s.attempts[job := s.attempts[job] - 1]);
    if job !in s.jobs then taken.(attempts := s.attempts[job := 0])
    else if !budgetLeft then WithStatus(taken, job, Failed).(attempts := s.attempts[job := 0])
    else WithStatus(taken, job, Running).(working := s.working + {job}, ran := s.ran + [job])
  }

  function Step(c: Config, s: State, e: Event): State {
    match e
    case PreviewCall(token, items, cost, now) =>
      if !PreviewAllowed(c, items, cost) then s
      else s.(previews := s.previews[token := Preview(cost, items, now + PREVIEW_TTL_SECONDS)])
    case Generate(admin, token, job, now) => Generated(c, s, admin, token, job, now)
    case Regenerate(admin, job, cost) =>
      Enqueue(s.(jobs := s.jobs[job := Job(Pending, admin, None, cost, 1, None)]), job)
    case Approve(admin, job) => if CanApprove(s, admin, job) then Approved(s, admin, job) else s
    case Reject(admin, job) => if CanReject(s, job) then WithStatus(s, job, Cancelled) else s
    case Start(job, budgetLeft) => if CanStart(s, job) then Started(s, job, budgetLeft) else s
    case Finish(job, ok) =>
      if job in s.working && job in s.jobs then
        var done := WithStatus(s, job, if ok then Completed else Failed);
        done.(working := s.working - {job}, attempts := s.attempts[job := 0])
      else s
    case Crash(job) => s.(working := s.working - {job})
  }

  /** Tokens and job ids are random and never repeat. */
  ghost predicate Allowed(s: State, e: Event) {
    && (e.PreviewCall? ==> e.token !in s.previews && forall j <- s.jobs :: s.jobs[j].token != Some(e.token))
    && (e.Generate? || e.Regenerate? ==> e.job !in s.jobs)
  }

  function Run(c: Config, events: seq<Event>): State {
    if events == [] then State(map[], map[], map[], {}, [], [])
    else Step(c, Run(c, events[..|events| - 1]), events[|events| - 1])
  }

  ghost predicate AllAllowed(c: Config, events: seq<Event>) {
    events == [] ||
    (AllAllowed(c, events[..|events| - 1]) && Allowed(Run(c, events[..|events| - 1]), events[|events| - 1]))
  }

  // ----- The invariant -------------------------------------------------------------------------

  predicate Held(j: Job) { j.status.PendingApproval? || j.status.Cancelled? }

  predicate Countersigned(j: Job) { j.approver.Some? && j.approver.value != j.creator }

  predicate NeedsCountersign(c: Config, j: Job) { j.token.Some? && RequiresCosign(c, j.cost) }

  predicate SoundJob(c: Config, j: Job) {
    && (Held(j) ==> NeedsCountersign(c, j) && j.approver.None?)
    && (NeedsCountersign(c, j) && !Held(j) ==> Countersigned(j))
    && (!NeedsCountersign(c, j) ==> j.approver.None?)
    && (j.token.Some? ==> j.cost <= c.maxCost && 0 < j.items <= c.maxItems)
    && (j.token.None? ==> j.items == 1)
  }

  function Times(enqueued: seq<string>, job: string): nat {
    if enqueued == [] then 0
    else Times(enqueued[..|enqueued| - 1], job) + if enqueued[|enqueued| - 1] == job then 1 else 0
  }

  /** A job has been enqueued once if it is not held, and never otherwise; only enqueued jobs are with the worker. */
  predicate QueueMatches(s: State, job: string) {
    && Times(s.enqueued, job) == (if job in s.jobs && !Held(s.jobs[job]) then 1 else 0)
    && (job in s.attempts <==> job in s.jobs && !Held(s.jobs[job]))
    && (job in s.working || job in s.ran ==> job in s.attempts)
  }

  predicate SoundPreview(c: Config, p: Preview) { PreviewAllowed(c, p.items, p.cost) }

  ghost predicate JobsInv(c: Config, s: State) { forall j <- s.jobs :: SoundJob(c, s.jobs[j]) }

  ghost predicate PreviewsInv(c: Config, s: State) { forall t <- s.previews :: SoundPreview(c, s.previews[t]) }

  ghost predicate QueueInv(s: State) { forall j :: QueueMatches(s, j) }

  ghost predicate TokensInv(s: State) {
    && (forall j <- s.jobs :: s.jobs[j].token.Some? ==> s.jobs[j].token.value !in s.previews)
    && (forall i, j :: i in s.jobs && j in s.jobs && i != j && s.jobs[i].token.Some? ==>
          s.jobs[i].token != s.jobs[j].token)
  }

  lemma TimesAppended(enqueued: seq<string>, last: string, job: string)
    ensures Times(enqueued + [last], job) == Times(enqueued, job) + if last == job then 1 else 0
  {
    assert (enqueued + [last])[..|enqueued|] == enqueued;
  }

  lemma StepKeepsPreviews(c: Config, s: State, e: Event)
    requires PreviewsInv(c, s)
    ensures PreviewsInv(c, Step(c, s, e))
  {
  }

  lemma StepKeepsJob(c: Config, s: State, e: Event, j: string)
    requires j in s.jobs ==> SoundJob(c, s.jobs[j]) && QueueMatches(s, j)
    requires e.Generate? && e.token in s.previews ==> SoundPreview(c, s.previews[e.token])
    ensures j in Step(c, s, e).jobs ==> SoundJob(c, Step(c, s, e).jobs[j])
  {
  }

  lemma StepKeepsJobs(c: Config, s: State, e: Event)
    requires JobsInv(c, s) && PreviewsInv(c, s) && QueueInv(s)
    ensures JobsInv(c, Step(c, s, e))
  {
    forall j | j in Step(c, s, e).jobs ensures SoundJob(c, Step(c, s, e).jobs[j]) {
      assert QueueMatches(s, j);
      StepKeepsJob(c, s, e, j);
    }
  }

  lemma EnqueueKeepsQueue(s: State, t: State, job: string, j: string)
    requires QueueMatches(s, j) && (j == job ==> j !in s.jobs || Held(s.jobs[j]))
    requires t.attempts == s.attempts && t.enqueued == s.enqueued && t.working == s.working && t.ran == s.ran
    requires job in t.jobs && !Held(t.jobs[job])
    requires j != job ==> (j in t.jobs <==> j in s.jobs) && (j in s.jobs ==> t.jobs[j] == s.jobs[j])
    ensures QueueMatches(Enqueue(t, job), j)
  {
    TimesAppended(t.enqueued, job, j);
  }

  lemma StepKeepsQueue(c: Config, s: State, e: Event, j: string)
    requires QueueInv(s) && Allowed(s, e)
    ensures QueueMatches(Step(c, s, e), j)
  {
    assert QueueMatches(s, j);
    match e
    case PreviewCall(token, items, cost, now) =>
    case Generate(admin, token, job, now) =>
      if Live(s.previews, token, now) {
        var p := s.previews[token];
        if p.items <= c.maxItems && !RequiresCosign(c, p.cost) {
          var made := Job(Pending, admin, None, p.cost, p.items, Some(token));
          EnqueueKeepsQueue(s, s.(previews := s.previews - {token}, jobs := s.jobs[job := made]), job, j);
        }
      }
    case Regenerate(admin, job, cost) =>
      EnqueueKeepsQueue(s, s.(jobs := s.jobs[job := Job(Pending, admin, None, cost, 1, None)]), job, j);
    case Approve(admin, job) =>
      if CanApprove(s, admin, job) {
        var approved := s.jobs[job].(status := Pending, approver := Some(admin));
        EnqueueKeepsQueue(s, s.(jobs := s.jobs[job := approved]), job, j);
      }
    case Reject(admin, job) =>
    case Start(job, budgetLeft) => assert QueueMatches(s, job);
    case Finish(job, ok) => assert QueueMatches(s, job);
    case Crash(job) =>
  }

  lemma StepKeepsTokens(c: Config, s: State, e: Event)
    requires TokensInv(s) && Allowed(s, e)
    ensures TokensInv(Step(c, s, e))
  {
  }

  ghost predicate Inv(c: Config, s: State) { JobsInv(c, s) && PreviewsInv(c, s) && QueueInv(s) && TokensInv(s) }

  lemma {:induction false} ReachableInv(c: Config, events: seq<Event>)
    requires AllAllowed(c, events)
    ensures Inv(c, Run(c, events))
  {
    if events != [] {
      var before := events[..|events| - 1];
      ReachableInv(c, before);
      StepKeepsPreviews(c, Run(c, before), events[|events| - 1]);
      StepKeepsJobs(c, Run(c, before), events[|events| - 1]);
      StepKeepsTokens(c, Run(c, before), events[|events| - 1]);
      forall j ensures QueueMatches(Run(c, events), j) { StepKeepsQueue(c, Run(c, before), events[|events| - 1], j); }
    }
  }

  // ----- What holds in every run ---------------------------------------------------------------

  /** No token yields two jobs, and a token that yielded one cannot be used again. */
  lemma {:induction false} OneJobPerToken(c: Config, events: seq<Event>, i: string, j: string, now: int)
    requires AllAllowed(c, events) && i in Run(c, events).jobs && Run(c, events).jobs[i].token.Some?
    ensures var s := Run(c, events);
            && (j in s.jobs && s.jobs[j].token == s.jobs[i].token ==> i == j)
            && !Live(s.previews, s.jobs[i].token.value, now)
  {
    ReachableInv(c, events);
  }

  /** A job is enqueued at most once, and exactly once if it is neither waiting for approval nor cancelled. */
  lemma {:induction false} EnqueuedOnceUnlessHeld(c: Config, events: seq<Event>, j: string)
    requires AllAllowed(c, events)
    ensures var s := Run(c, events);
            && Times(s.enqueued, j) == (if j in s.jobs && !Held(s.jobs[j]) then 1 else 0)
            && (j in s.jobs && Held(s.jobs[j]) ==> !CanStart(s, j) && j !in s.working && j !in s.ran)
  {
    ReachableInv(c, events);
    assert QueueMatches(Run(c, events), j);
  }

  /** The amount is above a threshold that is switched on. */
  ghost predicate Costly(c: Config, j: Job) { j.token.Some? && 0.0 < c.threshold < j.cost }

  /**
    A generated job above the threshold that ever ran, or got any further than waiting, was approved by somebody else.
   */
  lemma {:induction false} CostlyJobsAreCountersigned(c: Config, events: seq<Event>, j: string)
    requires AllAllowed(c, events) && j in Run(c, events).jobs && Costly(c, Run(c, events).jobs[j])
    ensures var (s, job) := (Run(c, events), Run(c, events).jobs[j]);
            j in s.ran || job.status in {Pending, Running, Completed, Failed} ==>
              job.approver.Some? && job.approver.value != job.creator
  {
    ReachableInv(c, events);
    var s := Run(c, events);
    assert QueueMatches(s, j) && SoundJob(c, s.jobs[j]);
  }

  /** Any other job is never held up: it is enqueued at once, and once, with nobody's approval. */
  lemma {:induction false} OtherJobsAreNeverHeld(c: Config, events: seq<Event>, j: string)
    requires AllAllowed(c, events) && j in Run(c, events).jobs && !Costly(c, Run(c, events).jobs[j])
    ensures var (s, job) := (Run(c, events), Run(c, events).jobs[j]);
            && job.status !in {PendingApproval, Cancelled} && job.approver == None && Times(s.enqueued, j) == 1
            && (job.token.None? ==> job.items == 1)
  {
    ReachableInv(c, events);
    var s := Run(c, events);
    assert QueueMatches(s, j) && SoundJob(c, s.jobs[j]);
  }

  /** From preview to job, with whatever wait in between. */
  function Traded(c: Config, s: State, admin: string, token: string, job: string, items: nat, cost: real, at: int,
                  now: int): State {
    Step(c, Step(c, s, PreviewCall(token, items, cost, at)), Generate(admin, token, job, now))
  }

  /**
    A preview yields a job exactly if it matches something, is within the cost cap and the row cap, and is traded
    less than 600 s later; the job carries its figures, and waits exactly if it is above the threshold.
   */
  lemma PreviewYieldsAJobIff(c: Config, s: State, admin: string, token: string, job: string, items: nat, cost: real,
                             at: int, now: int)
    requires token !in s.previews && job !in s.jobs
    ensures var t := Traded(c, s, admin, token, job, items, cost, at, now);
            var held := 0.0 < c.threshold < cost;
            && (job in t.jobs <==> 0 < items <= c.maxItems && cost <= c.maxCost && now < at + 600)
            && (job in t.jobs ==>
                  && t.jobs[job] ==
                       Job(if held then PendingApproval else Pending, admin, None, cost, items, Some(token))
                  && t.enqueued == (if held then s.enqueued else s.enqueued + [job])
                  && token !in t.previews)
  {
  }

  /** Every generated job is within the cost cap and the row cap, and is not empty. */
  lemma {:induction false} GeneratedJobsAreWithinCaps(c: Config, events: seq<Event>, j: string)
    requires AllAllowed(c, events) && j in Run(c, events).jobs && Run(c, events).jobs[j].token.Some?
    ensures Run(c, events).jobs[j].cost <= c.maxCost && 0 < Run(c, events).jobs[j].items <= c.maxItems
  {
    ReachableInv(c, events);
    assert SoundJob(c, Run(c, events).jobs[j]);
  }

  lemma StepKeepsCancelled(c: Config, s: State, e: Event, j: string)
    requires j in s.jobs && s.jobs[j].status.Cancelled? && QueueMatches(s, j) && Allowed(s, e)
    ensures j in Step(c, s, e).jobs && Step(c, s, e).jobs[j].status.Cancelled?
  {
  }

  lemma {:induction false} StaysCancelled(c: Config, events: seq<Event>, later: seq<Event>, j: string)
    requires AllAllowed(c, events + later)
    requires j in Run(c, events).jobs && Run(c, events).jobs[j].status.Cancelled?
    ensures j in Run(c, events + later).jobs && Run(c, events + later).jobs[j].status.Cancelled?
  {
    if later == [] {
      assert events + later == events;
    } else {
      var before := later[..|later| - 1];
      assert (events + later)[..|events + later| - 1] == events + before;
      StaysCancelled(c, events, before, j);
      ReachableInv(c, events + before);
      assert QueueMatches(Run(c, events + before), j);
      StepKeepsCancelled(c, Run(c, events + before), later[|later| - 1], j);
    }
  }

  /** What is cancelled stays cancelled and never runs. */
  lemma {:induction false} CancelledForGood(c: Config, events: seq<Event>, later: seq<Event>, j: string)
    requires AllAllowed(c, events + later)
    requires j in Run(c, events).jobs && Run(c, events).jobs[j].status.Cancelled?
    ensures var s := Run(c, events + later);
            j in s.jobs && s.jobs[j].status.Cancelled? && j !in s.ran
  {
    StaysCancelled(c, events, later, j);
    EnqueuedOnceUnlessHeld(c, events + later, j);
  }

  /** A refused oversized batch still uses up its token. */
  lemma OversizedBatchBurnsItsToken(c: Config, s: State, admin: string, token: string, job: string, now: int,
                                    later: int)
    requires Live(s.previews, token, now) && s.previews[token].items > c.maxItems
    ensures var t := Step(c, s, Generate(admin, token, job, now));
            t.jobs == s.jobs && t.enqueued == s.enqueued && !Live(t.previews, token, later)
  {
  }

  /** A waiting job is released by anybody but its creator, and turned down by anybody; nothing else is either. */
  lemma DecidedByAnotherAdmin(c: Config, s: State, admin: string, job: string)
    ensures var (t, u) := (Step(c, s, Approve(admin, job)), Step(c, s, Reject(admin, job)));
            var waits := job in s.jobs && s.jobs[job].status == PendingApproval;
            && (waits && s.jobs[job].creator != admin ==>
                  && t.jobs == s.jobs[job := s.jobs[job].(status := Pending, approver := Some(admin))]
                  && t.enqueued == s.enqueued + [job] && t.previews == s.previews)
            && (!(waits && s.jobs[job].creator != admin) ==> t == s)
            && (waits ==> u == s.(jobs := s.jobs[job := s.jobs[job].(status := Cancelled)]))
            && (!waits ==> u == s)
  {
  }

  // ----- The worker ------------------------------------------------------------------------------

  /** Two attempts, less the runs begun, while the job has not ended; afterwards none. */
  predicate WorkerMatches(s: State, j: string) {
    j in s.jobs && !Held(s.jobs[j]) ==>
      && j in s.attempts && Times(s.ran, j) <= 2
      && (s.jobs[j].status in {Pending, Running} ==> s.attempts[j] + Times(s.ran, j) == 2)
      && (s.jobs[j].status in {Completed, Failed} ==> s.attempts[j] == 0 && j !in s.working)
      && (j in s.working ==> s.jobs[j].status == Running)
  }

  lemma {:induction false} TimesOfAbsent(ids: seq<string>, j: string)
    requires j !in ids
    ensures Times(ids, j) == 0
  {
    if ids != [] { TimesOfAbsent(ids[..|ids| - 1], j); }
  }

  lemma StepKeepsWorker(c: Config, s: State, e: Event, j: string)
    requires QueueMatches(s, j) && WorkerMatches(s, j) && Allowed(s, e)
    ensures WorkerMatches(Step(c, s, e), j)
  {
    if e.Start? {
      StartKeepsWorker(s, e.job, e.budgetLeft, j);
    } else if !(j in s.jobs && !Held(s.jobs[j])) {
      TimesOfAbsent(s.ran, j);
    }
  }

  lemma StartKeepsWorker(s: State, job: string, budgetLeft: bool, j: string)
    requires QueueMatches(s, j) && WorkerMatches(s, j)
    ensures CanStart(s, job) ==> WorkerMatches(Started(s, job, budgetLeft), j)
  {
    TimesAppended(s.ran, job, j);
  }

  lemma {:induction false} WorkerAlwaysMatches(c: Config, events: seq<Event>, j: string)
    requires AllAllowed(c, events)
    ensures WorkerMatches(Run(c, events), j) && QueueMatches(Run(c, events), j)
  {
    ReachableInv(c, events);
    assert QueueMatches(Run(c, events), j);
    if events != [] {
      WorkerAlwaysMatches(c, events[..|events| - 1], j);
      StepKeepsWorker(c, Run(c, events[..|events| - 1]), events[|events| - 1], j);
    }
  }

  /** The job waits for the worker, or a crash has left it for a second run. */
  ghost predicate Startable(s: State, j: string) {
    j in s.jobs && s.jobs[j].status in {Pending, Running} && j !in s.working && Times(s.ran, j) < 2
  }

  /**
    In every run a job is run at most twice. The worker takes it up exactly while it waits or has crashed once; with
    no budget left it fails without a run.
   */
  lemma {:induction false} RunAtMostTwice(c: Config, events: seq<Event>, j: string)
    requires AllAllowed(c, events)
    ensures var s := Run(c, events);
            var (t, u) := (Step(c, s, Start(j, true)), Step(c, s, Start(j, false)));
            && Times(s.ran, j) <= 2
            && (Startable(s, j) ==>
                  && t.ran == s.ran + [j] && j in t.working && t.jobs == s.jobs[j := s.jobs[j].(status := Running)]
                  && u.ran == s.ran && u.working == s.working && u.jobs == s.jobs[j := s.jobs[j].(status := Failed)])
            && (!Startable(s, j) ==> t == s && u == s)
  {
    WorkerAlwaysMatches(c, events, j);
    var s := Run(c, events);
    if !(j in s.jobs && !Held(s.jobs[j])) { TimesOfAbsent(s.ran, j); }
  }

  /** What is under way ends as it went, and for good; what crashes may be taken up again. */
  lemma {:induction false} EndedForGood(c: Config, events: seq<Event>, j: string, ok: bool)
    requires AllAllowed(c, events) && j in Run(c, events).working
    ensures var s := Run(c, events);
            var (t, u) := (Step(c, s, Finish(j, ok)), Step(c, s, Crash(j)));
            && j in s.jobs && s.jobs[j].status == Running
            && t.jobs == s.jobs[j := s.jobs[j].(status := if ok then Completed else Failed)]
            && t.working == s.working - {j} && !Startable(t, j)
            && u.jobs == s.jobs && u.working == s.working - {j} && (Startable(u, j) <==> Times(s.ran, j) < 2)
  {
    WorkerAlwaysMatches(c, events, j);
  }

  lemma {:induction false} Appended(c: Config, events: seq<Event>, e: Event)
    ensures Run(c, events + [e]) == Step(c, Run(c, events), e)
    ensures AllAllowed(c, events + [e]) <==> AllAllowed(c, events) && Allowed(Run(c, events), e)
  {
    assert (events + [e])[..|events|] == events;
  }

  /** Every run with a waiting job goes on to one in which another admin's approval has let it complete. */
  lemma {:induction false} WaitingJobCanComplete(c: Config, events: seq<Event>, j: string, admin: string)
    requires AllAllowed(c, events) && j in Run(c, events).jobs && Run(c, events).jobs[j].status == PendingApproval
    requires admin != Run(c, events).jobs[j].creator
    ensures var more := events + [Approve(admin, j)] + [Start(j, true)] + [Finish(j, true)];
            var s := Run(c, events);
            AllAllowed(c, more)
            && Run(c, more).jobs == s.jobs[j := s.jobs[j].(status := Completed, approver := Some(admin))]
            && Run(c, more).ran == s.ran + [j]
  {
    ReachableInv(c, events);
    assert QueueMatches(Run(c, events), j);
    Appended(c, events, Approve(admin, j));
    Appended(c, events + [Approve(admin, j)], Start(j, true));
    Appended(c, events + [Approve(admin, j)] + [Start(j, true)], Finish(j, true));
  }

  /** A regeneration of one question is enqueued at once and can run, whatever it costs, with nobody's approval. */
  lemma {:induction false} RegenerationRuns(c: Config, events: seq<Event>, admin: string, job: string, cost: real)
    requires AllAllowed(c, events) && job !in Run(c, events).jobs
    ensures var more := events + [Regenerate(admin, job, cost)];
            var (s, t, u) := (Run(c, events), Run(c, more), Run(c, more + [Start(job, true)]));
            && AllAllowed(c, more)
            && t.jobs == s.jobs[job := Job(Pending, admin, None, cost, 1, None)] && t.enqueued == s.enqueued + [job]
            && u.ran == s.ran + [job] && u.jobs == t.jobs[job := t.jobs[job].(status := Running)]
  {
    var more := events + [Regenerate(admin, job, cost)];
    Appended(c, events, Regenerate(admin, job, cost));
    Appended(c, more, Start(job, true));
    ReachableInv(c, events);
    assert QueueMatches(Run(c, events), job);
  }

  // ----- The service -----------------------------------------------------------------------------

  datatype Reply = Ok(job: Job) | BadRequest | NotFound

  class AdminExplanationsService {
    const config: Config
    var previews: map<string, Preview>
    var jobs: map<string, Job>
    var attempts: map<string, nat>
    var enqueued: seq<string>

    constructor (config: Config)
      ensures this.config == config && View({}, []) == Run(config, [])
    {
      this.config := config;
      previews, jobs, attempts, enqueued := map[], map[], map[], [];
    }

    ghost function View(working: set<string>, ran: seq<string>): State
      reads this
    {
      State(previews, jobs, attempts, working, enqueued, ran)
    }

    method PreviewJob(token: string, items: nat, cost: real, now: int, ghost working: set<string>,
                      ghost ran: seq<string>)
      returns (ok: bool)
      modifies this`previews
      ensures ok <==> PreviewAllowed(config, items, cost)
      ensures View(working, ran) == Step(config, old(View(working, ran)), PreviewCall(token, items, cost, now))
    {
      if items == 0 { return false; }
      if cost > config.maxCost { return false; }
      previews := previews[token := Preview(cost, items, now + PREVIEW_TTL_SECONDS)];
      ok := true;
    }

    method GenerateJob(admin: string, token: string, id: string, now: int, ghost working: set<string>,
                       ghost ran: seq<string>)
      returns (r: Reply)
      modifies this
      ensures View(working, ran) == Step(config, old(View(working, ran)), Generate(admin, token, id, now))
      ensures r.Ok? <==> Live(old(previews), token, now) && old(previews)[token].items <= config.maxItems
      ensures r.Ok? ==>
                var cost := old(previews)[token].cost;
                var held := 0.0 < config.threshold < cost;
                && id in jobs && jobs[id] == r.job && r.job.cost == cost
                && r.job.status == (if held then PendingApproval else Pending)
                && enqueued == old(enqueued) + (if held then [] else [id])
      ensures !r.Ok? ==> r.BadRequest? && jobs == old(jobs) && enqueued == old(enqueued)
    {
      if token !in previews || previews[token].expiresAt <= now { return BadRequest; }
      var stashed := previews[token];
      previews := previews - {token};
      if stashed.items > config.maxItems { return BadRequest; }
      var needsCosign := config.threshold > 0.0 && stashed.cost > config.threshold;
      var job := Job(if needsCosign then PendingApproval else Pending, admin, None, stashed.cost, stashed.items,
                     Some(token));
      jobs := jobs[id := job];
      if needsCosign { return Ok(job); }
      EnqueueJob(id);
      r := Ok(job);
    }

    method EnqueueJob(id: string)
      modifies this`attempts, this`enqueued
      ensures attempts == old(attempts)[id := 2] && enqueued == old(enqueued) + [id]
    {
      attempts, enqueued := attempts[id := 2], enqueued + [id];
    }

    method ApproveCosign(admin: string, id: string, ghost working: set<string>, ghost ran: seq<string>)
      returns (r: Reply)
      modifies this
      ensures View(working, ran) == Step(config, old(View(working, ran)), Approve(admin, id))
      ensures r.NotFound? <==> id !in old(jobs)
      ensures r.Ok? <==> CanApprove(old(View(working, ran)), admin, id)
    {
      if id !in jobs { return NotFound; }
      var job := jobs[id];
      if job.status != PendingApproval { return BadRequest; }
      if job.creator == admin { return BadRequest; }
      job := job.(status := Pending, approver := Some(admin));
      jobs := jobs[id := job];
      EnqueueJob(id);
      r := Ok(job);
    }

    method RejectCosign(admin: string, id: string, ghost working: set<string>, ghost ran: seq<string>)
      returns (r: Reply)
      modifies this
      ensures View(working, ran) == Step(config, old(View(working, ran)), Reject(admin, id))
      ensures r.NotFound? <==> id !in old(jobs)
      ensures r.Ok? <==> CanReject(old(View(working, ran)), id)
    {
      if id !in jobs { return NotFound; }
      var job := jobs[id];
      if job.status != PendingApproval { return BadRequest; }
      job := job.(status := Cancelled);
      jobs := jobs[id := job];
      r := Ok(job);
    }
  }
}
