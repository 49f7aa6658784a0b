/**
  The exam life cycle: answers are inserted in one transaction each, a completion reads the exam
  and its answers and saves the score later, an abandonment and a breakdown read the exam and save
  the whole row later, stale columns included. Submissions and the two halves of completions,
  abandonments and breakdowns of any exams interleave.
 */
module Exams {
  import opened Arithmetic
  import opened Wrappers

  datatype Status = InProgress | Completed | Abandoned

  datatype Pool = PastPaper | PmTest

  datatype Choice = Choice(id: string, isCorrect: bool)

  /** The two option tables. */
  datatype Bank = Bank(past: map<string, seq<Choice>>, pm: map<string, seq<Choice>>)

  datatype Exam = Exam(user: string, questionIds: seq<string>, pool: Pool, status: Status,
                       score: Option<nat>, percent: Option<nat>)

  datatype Answer = Answer(exam: string, question: string, correct: bool, timeMs: Option<nat>)

  /** A row of the past-paper questions table. */
  datatype Counter = Counter(answered: nat, correct: nat)

  /** A completion that has read the exam and its answers, and whether it has been saved. */
  datatype Pending = Pending(exam: string, snapshot: seq<Answer>, saved: bool)

  /** A call that has read an exam and will save the whole row, and whether it has. */
  datatype Held = Held(exam: string, row: Exam, saved: bool)

  datatype Completion = Completion(exam: string, user: string, snapshot: seq<Answer>, perfect: bool)

  /** `completions` is the history of saved completions. */
  datatype State = State(exams: map<string, Exam>, answers: seq<Answer>, counters: map<string, Counter>,
                         pending: map<nat, Pending>, held: map<nat, Held>, completions: seq<Completion>)

  datatype Event =
    | Create(exam: string, user: string, questionIds: seq<string>, pool: Pool)
    | Submit(user: string, exam: string, question: string, selected: Option<string>, timeMs: Option<nat>)
    | CompleteRead(call: nat, user: string, exam: string)
    | CompleteSave(call: nat)
    | AbandonRead(call: nat, user: string, exam: string)
    | BreakdownRead(call: nat, user: string, exam: string)
    | WriteBack(call: nat)

  // ----- Submitting an answer ------------------------------------------------------------------

  function Rows(table: map<string, seq<Choice>>, question: string): seq<Choice> {
    if question in table then table[question] else []
  }

  /** The options of the declared pool, or of the other one when that has none. */
  function Choices(bank: Bank, pool: Pool, question: string): seq<Choice> {
    var declared := Rows(if pool.PmTest? then bank.pm else bank.past, question);
    if declared != [] then declared else Rows(if pool.PmTest? then bank.past else bank.pm, question)
  }

  function FirstCorrect(choices: seq<Choice>): Option<string> {
    if choices == [] then None else if choices[0].isCorrect then Some(choices[0].id) else FirstCorrect(choices[1..])
  }

  datatype Outcome =
    | Graded(isCorrect: bool, correctOptionId: string)
    | NotFound
    | Forbidden
    | Conflict
    | BadRequest

  predicate Given(selected: Option<string>) { selected.Some? && |selected.value| > 0 }

  predicate Answered(answers: seq<Answer>, exam: string, question: string) {
    exists a <- answers :: a.exam == exam && a.question == question
  }

  function Grade(choices: seq<Choice>, selected: Option<string>): Outcome {
    match FirstCorrect(choices)
    case None => NotFound
    case Some(correctId) =>
      if Given(selected) && (forall c <- choices :: c.id != selected.value) then BadRequest
      else Graded(Given(selected) && selected.value == correctId, correctId)
  }

  function SubmitOutcome(bank: Bank, s: State, user: string, exam: string, question: string,
                         selected: Option<string>): Outcome {
    if exam !in s.exams then NotFound
    else if s.exams[exam].user != user then Forbidden
    else if s.exams[exam].status != InProgress then Conflict
    else if question !in s.exams[exam].questionIds then BadRequest
    else if Answered(s.answers, exam, question) then Conflict
    else Grade(Choices(bank, s.exams[exam].pool, question), selected)
  }

  /** The options are the declared pool's, or the other pool's exactly if the declared one has none. */
  lemma OptionsComeFromThePool(bank: Bank, pool: Pool, question: string)
    ensures var (declared, other) := if pool == PmTest then (bank.pm, bank.past) else (bank.past, bank.pm);
            var options := Choices(bank, pool, question);
            && (question in declared && declared[question] != [] ==> options == declared[question])
            && (!(question in declared && declared[question] != []) && question in other ==> options == other[question])
            && (!(question in declared && declared[question] != []) && question !in other ==> options == [])
  {
  }

  lemma {:induction false} FirstCorrectIsFirst(choices: seq<Choice>)
    ensures FirstCorrect(choices).None? <==> forall c <- choices :: !c.isCorrect
    ensures FirstCorrect(choices).Some? ==> IsFirstCorrect(choices, FirstCorrect(choices).value)
  {
    if choices != [] && !choices[0].isCorrect {
      FirstCorrectIsFirst(choices[1..]);
      if FirstCorrect(choices[1..]).Some? {
        var i: nat :| i < |choices[1..]| && ComesFirst(choices[1..], i)
                      && choices[1..][i].id == FirstCorrect(choices).value;
        assert ComesFirst(choices, i + 1);
      }
    } else if choices != [] {
      assert ComesFirst(choices, 0);
    }
  }

  /** The option at i is correct and none before it is. */
  ghost predicate ComesFirst(choices: seq<Choice>, i: nat)
    requires i < |choices|
  {
    choices[i].isCorrect && forall j | 0 <= j < i :: !choices[j].isCorrect
  }

  ghost predicate IsFirstCorrect(choices: seq<Choice>, id: string) {
    exists i: nat | i < |choices| :: ComesFirst(choices, i) && choices[i].id == id
  }

  /** The user's own exam is in progress and asks the question, which has no answer yet. */
  ghost predicate Open(s: State, user: string, exam: string, question: string) {
    && exam in s.exams && s.exams[exam].user == user && s.exams[exam].status == InProgress
    && question in s.exams[exam].questionIds && (forall a <- s.answers :: a.exam != exam || a.question != question)
  }

  /**
    What a grade means: it names the first correct option, and is right exactly if that is what was selected. There
    is none exactly if no option is correct, or a selection is none of the options.
   */
  lemma GradeMeans(bank: Bank, s: State, user: string, exam: string, question: string, selected: Option<string>)
    requires Open(s, user, exam, question)
    ensures var o := SubmitOutcome(bank, s, user, exam, question, selected);
            var options := Choices(bank, s.exams[exam].pool, question);
            var none := forall c <- options :: !c.isCorrect;
            var stray := selected.Some? && selected.value != "" && forall c <- options :: c.id != selected.value;
            && (o.NotFound? <==> none) && (o.BadRequest? <==> !none && stray) && (o.Graded? <==> !none && !stray)
            && (o.Graded? ==> IsFirstCorrect(options, o.correctOptionId))
            && (o.Graded? ==> (o.isCorrect <==> selected == Some(o.correctOptionId) && o.correctOptionId != ""))
  {
    FirstCorrectIsFirst(Choices(bank, s.exams[exam].pool, question));
  }

  /** And every other refusal has its cause, in this order. */
  lemma RefusedIff(bank: Bank, s: State, user: string, exam: string, question: string, selected: Option<string>)
    ensures var o := SubmitOutcome(bank, s, user, exam, question, selected);
            var mine := exam in s.exams && s.exams[exam].user == user;
            && (exam !in s.exams ==> o.NotFound?)
            && (o.Forbidden? <==> exam in s.exams && !mine)
            && (o.Conflict? <==> mine && (s.exams[exam].status != InProgress ||
                                          (question in s.exams[exam].questionIds &&
                                           exists a <- s.answers :: a.exam == exam && a.question == question)))
            && (mine && s.exams[exam].status == InProgress && question !in s.exams[exam].questionIds ==> o.BadRequest?)
  {
  }

  /** The counter update touches a row only if the question is in the past-paper table. */
  function Bumped(counters: map<string, Counter>, question: string, correct: bool): map<string, Counter> {
    if question !in counters then counters
    else
      var c := counters[question];
      counters[question := Counter(c.answered + 1, c.correct + if correct then 1 else 0)]
  }

  // ----- Completing ----------------------------------------------------------------------------

  /** The rows of one exam, in the order they were inserted. */
  function Of(answers: seq<Answer>, exam: string): seq<Answer> {
    if answers == [] then []
    else
      var before := Of(answers[..|answers| - 1], exam);
      var a := answers[|answers| - 1];
      if a.exam == exam then before + [a] else before
  }

  function Correct(answers: seq<Answer>): nat {
    if answers == [] then 0
    else Correct(answers[..|answers| - 1]) + if answers[|answers| - 1].correct then 1 else 0
  }

  /** The percentage in hundredths, rounded to the nearest. */
  function Percent(correct: nat, total: nat): nat {
    if total == 0 then 0 else (20000 * correct + total) / (2 * total)
  }

  predicate IsPerfect(exam: Exam, snapshot: seq<Answer>) {
    |exam.questionIds| > 0 && Correct(snapshot) == |exam.questionIds|
  }

  function Scored(exam: Exam, snapshot: seq<Answer>): Exam {
    exam.(status := Completed, score := Some(Correct(snapshot)),
          percent := Some(Percent(Correct(snapshot), |exam.questionIds|)))
  }

  predicate CanSave(s: State, call: nat) {
    call in s.pending && !s.pending[call].saved && s.pending[call].exam in s.exams
  }

  predicate CanRead(s: State, user: string, exam: string) {
    exam in s.exams && s.exams[exam].user == user && s.exams[exam].status != Completed
  }

  predicate CanAbandon(s: State, user: string, exam: string) { exam in s.exams && s.exams[exam].user == user }

  predicate CanBreakDown(s: State, user: string, exam: string) {
    exam in s.exams && s.exams[exam].user == user && s.exams[exam].status == Completed
  }

  /** The row that an abandonment or a breakdown takes from its read to its save. */
  predicate Takes(s: State, e: Event) {
    (e.AbandonRead? && CanAbandon(s, e.user, e.exam)) || (e.BreakdownRead? && CanBreakDown(s, e.user, e.exam))
  }

  function Taken(s: State, e: Event): Held
    requires Takes(s, e)
  {
    Held(e.exam, if e.AbandonRead? then s.exams[e.exam].(status := Abandoned) else s.exams[e.exam], false)
  }

  predicate CanWriteBack(s: State, call: nat) { call in s.held && !s.held[call].saved }

  function Save(s: State, call: nat): State {
    if !CanSave(s, call) then s
    else
      var p := s.pending[call];
      var exam := s.exams[p.exam];
      s.(exams := s.exams[p.exam := Scored(exam, p.snapshot)], pending := s.pending[call := p.(saved := true)],
         completions := s.completions + [Completion(p.exam, exam.user, p.snapshot, IsPerfect(exam, p.snapshot))])
  }

  /**
    The save of an abandonment or a breakdown: every column is as its call read it, but for an abandonment's status.
   */
  function Restore(s: State, call: nat): State {
    if !CanWriteBack(s, call) then s
    else
      var h := s.held[call];
      s.(exams := s.exams[h.exam := h.row], held := s.held[call := h.(saved := true)])
  }

  function Step(bank: Bank, s: State, e: Event): State {
    match e
    case Create(exam, user, questionIds, pool) =>
      if questionIds == [] then s
      else s.(exams := s.exams[exam := Exam(user, questionIds, pool, InProgress, None, None)])
    case Submit(user, exam, question, selected, timeMs) =>
      var r := SubmitOutcome(bank, s, user, exam, question, selected);
      if r.Graded? then
        s.(answers := s.answers + [Answer(exam, question, r.isCorrect, timeMs)],
           counters := Bumped(s.counters, question, r.isCorrect))
      else s
    case CompleteRead(call, user, exam) =>
      if CanRead(s, user, exam) then s.(pending := s.pending[call := Pending(exam, Of(s.answers, exam), false)])
      else s
    case CompleteSave(call) => Save(s, call)
    case AbandonRead(call, user, exam) => if Takes(s, e) then s.(held := s.held[call := Taken(s, e)]) else s
    case BreakdownRead(call, user, exam) => if Takes(s, e) then s.(held := s.held[call := Taken(s, e)]) else s
    case WriteBack(call) => Restore(s, call)
  }

  /** A new exam has a new id; so has a call that reads. */
  predicate Allowed(s: State, e: Event) {
    && (e.Create? ==> e.exam !in s.exams)
    && (e.CompleteRead? ==> e.call !in s.pending)
    && (e.AbandonRead? || e.BreakdownRead? ==> e.call !in s.held)
  }

  function Initial(questions: set<string>): State {
    State(map[], [], map q <- questions :: Counter(0, 0), map[], map[], [])
  }

  function Run(bank: Bank, questions: set<string>, events: seq<Event>): State {
    if events == [] then Initial(questions)
    else Step(bank, Run(bank, questions, events[..|events| - 1]), events[|events| - 1])
  }

  predicate AllAllowed(bank: Bank, questions: set<string>, events: seq<Event>) {
    events == [] ||
    (AllAllowed(bank, questions, events[..|events| - 1]) &&
     Allowed(Run(bank, questions, events[..|events| - 1]), events[|events| - 1]))
  }

  // ----- The invariant -------------------------------------------------------------------------

  predicate Fits(exams: map<string, Exam>, a: Answer) { a.exam in exams && a.question in exams[a.exam].questionIds }

  ghost predicate OneEach(answers: seq<Answer>) {
    forall i, j | 0 <= i < j < |answers| :: answers[i].exam != answers[j].exam ||
      answers[i].question != answers[j].question
  }

  function Tally(answers: seq<Answer>, question: string): Counter {
    if answers == [] then Counter(0, 0)
    else
      var before := Tally(answers[..|answers| - 1], question);
      var a := answers[|answers| - 1];
      if a.question == question then Counter(before.answered + 1, before.correct + if a.correct then 1 else 0)
      else before
  }

  predicate IsPrefix(snapshot: seq<Answer>, answers: seq<Answer>) { snapshot <= answers }

  /** The completion gives this score and percentage. */
  predicate ScoreOf(row: Exam, exam: string, c: Completion) {
    && c.exam == exam
    && row.score == Some(Correct(c.snapshot))
    && row.percent == Some(Percent(Correct(c.snapshot), |row.questionIds|))
  }

  /** A score and its percentage are those of one saved completion; without one the exam is not completed. */
  ghost predicate ScoreMatches(row: Exam, exam: string, completions: seq<Completion>) {
    if row.score.None? then row.percent.None? && !row.status.Completed?
    else row.status != InProgress && exists c <- completions :: ScoreOf(row, exam, c)
  }

  predicate SoundCompletion(exams: map<string, Exam>, answers: seq<Answer>, c: Completion) {
    && c.exam in exams && c.user == exams[c.exam].user
    && IsPrefix(c.snapshot, Of(answers, c.exam))
    && (c.perfect <==> IsPerfect(exams[c.exam], c.snapshot))
  }

  ghost predicate AnswersInv(s: State) { (forall a <- s.answers :: Fits(s.exams, a)) && OneEach(s.answers) }

  ghost predicate CountersInv(s: State) { forall q <- s.counters :: s.counters[q] == Tally(s.answers, q) }

  ghost predicate PendingInv(s: State) {
    forall k <- s.pending :: s.pending[k].exam in s.exams
      && IsPrefix(s.pending[k].snapshot, Of(s.answers, s.pending[k].exam))
  }

  ghost predicate CompletionsInv(s: State) { forall c <- s.completions :: SoundCompletion(s.exams, s.answers, c) }

  /** A held row is one of the exam's, with a status it had or Abandoned. */
  predicate SoundHeld(exams: map<string, Exam>, h: Held) {
    && h.exam in exams && h.row.status != InProgress
    && h.row.user == exams[h.exam].user && h.row.questionIds == exams[h.exam].questionIds
  }

  ghost predicate HeldInv(s: State) { forall k <- s.held :: SoundHeld(s.exams, s.held[k]) }

  /** Also the scores that are held for a later save are those of completions. */
  ghost predicate ScoresInv(s: State) {
    && (forall x <- s.exams :: ScoreMatches(s.exams[x], x, s.completions))
    && (forall k <- s.held :: ScoreMatches(s.held[k].row, s.held[k].exam, s.completions))
  }

  ghost predicate Inv(s: State) {
    AnswersInv(s) && CountersInv(s) && PendingInv(s) && CompletionsInv(s) && HeldInv(s) && ScoresInv(s)
  }

  /** Nothing ever changes an exam but its status and score. */
  predicate Extends(exams: map<string, Exam>, later: map<string, Exam>) {
    forall x <- exams :: x in later && later[x].user == exams[x].user && later[x].questionIds == exams[x].questionIds
  }

  lemma OfAppended(answers: seq<Answer>, a: Answer, exam: string)
    ensures Of(answers + [a], exam) == Of(answers, exam) + if a.exam == exam then [a] else []
  {
    assert (answers + [a])[..|answers|] == answers;
  }

  /** Only a submission to an exam in progress inserts an answer, and only one. */
  lemma OneAnswerAtMost(bank: Bank, s: State, e: Event)
    ensures var t := Step(bank, s, e);
            t.answers == s.answers ||
            (t.answers[..|t.answers| - 1] == s.answers && t.exams == s.exams && t.answers[|s.answers|].exam == e.exam
             && e.Submit? && e.exam in s.exams && s.exams[e.exam].status == InProgress)
  {
  }

  /** A new exam is in progress and unscored; without questions there is none. */
  lemma CreateOpens(bank: Bank, s: State, exam: string, user: string, questionIds: seq<string>, pool: Pool)
    ensures var t := Step(bank, s, Create(exam, user, questionIds, pool));
            && (questionIds == [] ==> t == s)
            && (questionIds != [] ==>
                  t == s.(exams := s.exams[exam := Exam(user, questionIds, pool, InProgress, None, None)]))
  {
  }

  /** The breakdown of a user's own completed exam, on its own, leaves every exam as it was; any other is refused. */
  lemma UninterruptedBreakdown(bank: Bank, s: State, call: nat, user: string, exam: string)
    requires call !in s.held
    ensures var t := Step(bank, s, BreakdownRead(call, user, exam));
            var u := Step(bank, t, WriteBack(call));
            var can := exam in s.exams && s.exams[exam].user == user && s.exams[exam].status == Completed;
            && (can ==> t.held == s.held[call := Held(exam, s.exams[exam], false)] && u.held[call].saved)
            && (!can ==> t == s && u == s)
            && u.exams == s.exams && u.answers == s.answers && u.completions == s.completions
  {
  }

  /** A graded submission inserts its answer, and any other one changes nothing. */
  lemma SubmitInserts(bank: Bank, s: State, e: Event)
    requires e.Submit?
    ensures var (o, t) := (SubmitOutcome(bank, s, e.user, e.exam, e.question, e.selected), Step(bank, s, e));
            && (o.Graded? ==> t.answers == s.answers + [Answer(e.exam, e.question, o.isCorrect, e.timeMs)])
            && (!o.Graded? ==> t == s)
            && t.exams == s.exams && t.pending == s.pending && t.held == s.held && t.completions == s.completions
  {
  }

  lemma StepKeepsOthersAnswers(bank: Bank, s: State, e: Event, exam: string)
    requires exam !in s.exams || s.exams[exam].status != InProgress
    ensures Of(Step(bank, s, e).answers, exam) == Of(s.answers, exam)
  {
    OneAnswerAtMost(bank, s, e);
  }

  lemma StepExtends(bank: Bank, s: State, e: Event)
    requires HeldInv(s) && Allowed(s, e)
    ensures Extends(s.exams, Step(bank, s, e).exams)
  {
    if e.WriteBack? && CanWriteBack(s, e.call) { assert SoundHeld(s.exams, s.held[e.call]); }
  }

  lemma StepKeepsAnswers(bank: Bank, s: State, e: Event)
    requires AnswersInv(s) && HeldInv(s) && Allowed(s, e)
    ensures AnswersInv(Step(bank, s, e)) && Extends(s.exams, Step(bank, s, e).exams)
  {
    var t := Step(bank, s, e);
    StepExtends(bank, s, e);
    forall a | a in s.answers ensures Fits(t.exams, a) { assert Fits(s.exams, a); }
  }

  lemma BumpedIsTally(counters: map<string, Counter>, answers: seq<Answer>, a: Answer)
    requires forall q <- counters :: counters[q] == Tally(answers, q)
    ensures forall q <- Bumped(counters, a.question, a.correct) ::
              Bumped(counters, a.question, a.correct)[q] == Tally(answers + [a], q)
  {
    assert (answers + [a])[..|answers|] == answers;
  }

  lemma StepKeepsCounters(bank: Bank, s: State, e: Event)
    requires CountersInv(s)
    ensures CountersInv(Step(bank, s, e))
  {
    if e.Submit? {
      var o := SubmitOutcome(bank, s, e.user, e.exam, e.question, e.selected);
      if o.Graded? { BumpedIsTally(s.counters, s.answers, Answer(e.exam, e.question, o.isCorrect, e.timeMs)); }
    }
  }

  /** Inserting an answer keeps every snapshot a prefix. */
  lemma StepKeepsPrefix(bank: Bank, s: State, e: Event, snapshot: seq<Answer>, exam: string)
    requires IsPrefix(snapshot, Of(s.answers, exam))
    ensures IsPrefix(snapshot, Of(Step(bank, s, e).answers, exam))
  {
    var t := Step(bank, s, e);
    if t.answers != s.answers { OfAppended(s.answers, t.answers[|s.answers|], exam); }
  }

  lemma StepKeepsPending(bank: Bank, s: State, e: Event)
    requires PendingInv(s) && Allowed(s, e) && Extends(s.exams, Step(bank, s, e).exams)
    ensures PendingInv(Step(bank, s, e))
  {
    var t := Step(bank, s, e);
    forall k | k in t.pending
      ensures t.pending[k].exam in t.exams && IsPrefix(t.pending[k].snapshot, Of(t.answers, t.pending[k].exam))
    {
      if k in s.pending { StepKeepsPrefix(bank, s, e, s.pending[k].snapshot, s.pending[k].exam); }
    }
  }

  lemma StepKeepsCompletions(bank: Bank, s: State, e: Event)
    requires PendingInv(s) && CompletionsInv(s) && HeldInv(s) && Allowed(s, e)
    ensures CompletionsInv(Step(bank, s, e))
  {
    var t := Step(bank, s, e);
    StepExtends(bank, s, e);
    forall c | c in t.completions ensures SoundCompletion(t.exams, t.answers, c) {
      if c in s.completions {
        assert SoundCompletion(s.exams, s.answers, c);
        StepKeepsPrefix(bank, s, e, c.snapshot, c.exam);
      }
    }
  }

  lemma StepKeepsHeld(bank: Bank, s: State, e: Event)
    requires HeldInv(s) && Allowed(s, e)
    ensures HeldInv(Step(bank, s, e))
  {
    var t := Step(bank, s, e);
    StepExtends(bank, s, e);
    forall k | k in t.held ensures SoundHeld(t.exams, t.held[k]) {
      if k in s.held { assert SoundHeld(s.exams, s.held[k]); }
    }
  }

  lemma MatchesLonger(row: Exam, exam: string, some: seq<Completion>, more: seq<Completion>)
    requires ScoreMatches(row, exam, some) && some <= more
    ensures ScoreMatches(row, exam, more)
  {
    if row.score.Some? {
      var c :| c in some && ScoreOf(row, exam, c);
      assert c in more;
    }
  }

  lemma StepKeepsScoreOf(bank: Bank, s: State, e: Event, x: string)
    requires ScoresInv(s) && Allowed(s, e) && x in Step(bank, s, e).exams
    ensures ScoreMatches(Step(bank, s, e).exams[x], x, Step(bank, s, e).completions)
  {
    var t := Step(bank, s, e);
    if e.CompleteSave? && t != s && s.pending[e.call].exam == x {
      assert ScoreOf(t.exams[x], x, t.completions[|s.completions|]);
    } else if e.WriteBack? && CanWriteBack(s, e.call) && s.held[e.call].exam == x {
      assert t.exams[x] == s.held[e.call].row && t.completions == s.completions;
    } else if x in s.exams {
      MatchesLonger(s.exams[x], x, s.completions, t.completions);
    }
  }

  lemma StepKeepsScores(bank: Bank, s: State, e: Event)
    requires ScoresInv(s) && Allowed(s, e)
    ensures ScoresInv(Step(bank, s, e))
  {
    var t := Step(bank, s, e);
    forall x | x in t.exams ensures ScoreMatches(t.exams[x], x, t.completions) { StepKeepsScoreOf(bank, s, e, x); }
    forall k | k in t.held ensures ScoreMatches(t.held[k].row, t.held[k].exam, t.completions) {
      if k in s.held {
        MatchesLonger(s.held[k].row, s.held[k].exam, s.completions, t.completions);
      } else {
        assert ScoreMatches(s.exams[t.held[k].exam], t.held[k].exam, s.completions);
      }
    }
  }

  lemma {:induction false} ReachableInv(bank: Bank, questions: set<string>, events: seq<Event>)
    requires AllAllowed(bank, questions, events)
    ensures Inv(Run(bank, questions, events))
  {
    if events != [] {
      var before := events[..|events| - 1];
      ReachableInv(bank, questions, before);
      StepKeepsAnswers(bank, Run(bank, questions, before), events[|events| - 1]);
      StepKeepsCounters(bank, Run(bank, questions, before), events[|events| - 1]);
      StepKeepsPending(bank, Run(bank, questions, before), events[|events| - 1]);
      StepKeepsCompletions(bank, Run(bank, questions, before), events[|events| - 1]);
      StepKeepsHeld(bank, Run(bank, questions, before), events[|events| - 1]);
      StepKeepsScores(bank, Run(bank, questions, before), events[|events| - 1]);
    }
  }

  // ----- Answers fit the exam --------------------------------------------------------------------

  lemma {:induction false} OfMembers(answers: seq<Answer>, exam: string, a: Answer)
    ensures a in Of(answers, exam) <==> a in answers && a.exam == exam
  {
    if answers != [] { OfMembers(answers[..|answers| - 1], exam, a); }
  }

  ghost predicate DistinctQuestions(answers: seq<Answer>) {
    forall i, j | 0 <= i < j < |answers| :: answers[i].question != answers[j].question
  }

  lemma {:induction false} OfIsDistinct(answers: seq<Answer>, exam: string)
    requires OneEach(answers)
    ensures DistinctQuestions(Of(answers, exam))
  {
    if answers != [] {
      var before := answers[..|answers| - 1];
      OfIsDistinct(before, exam);
      forall a | a in Of(before, exam) ensures a in before && a.exam == exam { OfMembers(before, exam, a); }
    }
  }

  function Questions(answers: seq<Answer>): set<string> { set a <- answers :: a.question }

  function Ids(questionIds: seq<string>): set<string> { set q <- questionIds }

  lemma {:induction false} IdsCount(questionIds: seq<string>)
    ensures |Ids(questionIds)| <= |questionIds|
  {
    if questionIds != [] {
      var last := |questionIds| - 1;
      IdsCount(questionIds[..last]);
      assert Ids(questionIds) == Ids(questionIds[..last]) + {questionIds[last]};
    }
  }

  lemma {:induction false} QuestionsCount(answers: seq<Answer>)
    requires DistinctQuestions(answers)
    ensures |Questions(answers)| == |answers|
  {
    if answers != [] {
      var last := |answers| - 1;
      QuestionsCount(answers[..last]);
      assert Questions(answers) == Questions(answers[..last]) + {answers[last].question};
    }
  }

  /** In every reachable state: an exam's answers are to its own questions, one each, so never more than it has. */
  lemma {:induction false} AnswersFitTheExam(bank: Bank, questions: set<string>, events: seq<Event>, exam: string)
    requires AllAllowed(bank, questions, events) && exam in Run(bank, questions, events).exams
    ensures var s := Run(bank, questions, events);
            var mine := Of(s.answers, exam);
            && Questions(mine) <= Ids(s.exams[exam].questionIds)
            && DistinctQuestions(mine)
            && |mine| <= |s.exams[exam].questionIds|
  {
    var s := Run(bank, questions, events);
    ReachableInv(bank, questions, events);
    AnswersFit(s, exam);
  }

  lemma AnswersFit(s: State, exam: string)
    requires AnswersInv(s) && exam in s.exams
    ensures Questions(Of(s.answers, exam)) <= Ids(s.exams[exam].questionIds)
    ensures DistinctQuestions(Of(s.answers, exam))
    ensures |Of(s.answers, exam)| <= |s.exams[exam].questionIds|
  {
    var mine := Of(s.answers, exam);
    OfIsDistinct(s.answers, exam);
    forall a | a in mine ensures a.question in Ids(s.exams[exam].questionIds) {
      OfMembers(s.answers, exam, a);
      assert Fits(s.exams, a);
    }
    QuestionsCount(mine);
    IdsCount(s.exams[exam].questionIds);
    SubsetCount(Questions(mine), Ids(s.exams[exam].questionIds));
  }

  lemma {:induction false} SubsetCount(small: set<string>, large: set<string>)
    requires small <= large
    ensures |small| <= |large|
    ensures |small| == |large| ==> small == large
  {
    assert large == small + (large - small);
  }

  /** A past-paper question's counters are its answers, and its correct answers, over all exams. */
  lemma {:induction false} TimesAnsweredIsExact(bank: Bank, questions: set<string>, events: seq<Event>,
          question: string)
    requires AllAllowed(bank, questions, events) && question in questions
    ensures question in Run(bank, questions, events).counters
    ensures Run(bank, questions, events).counters[question] == Tally(Run(bank, questions, events).answers, question)
  {
    ReachableInv(bank, questions, events);
    CountersKeepTheirRows(bank, questions, events);
  }

  lemma {:induction false} CountersKeepTheirRows(bank: Bank, questions: set<string>, events: seq<Event>)
    ensures Run(bank, questions, events).counters.Keys == questions
  {
    if events != [] { CountersKeepTheirRows(bank, questions, events[..|events| - 1]); }
  }

  // ----- Scores ----------------------------------------------------------------------------------

  /** Once an exam is over it stays over, and its answers are frozen. */
  lemma {:induction false} FrozenOnceOver(bank: Bank, questions: set<string>, events: seq<Event>, later: seq<Event>,
                                          exam: string)
    requires AllAllowed(bank, questions, events + later)
    requires exam in Run(bank, questions, events).exams && Run(bank, questions, events).exams[exam].status != InProgress
    ensures var s := Run(bank, questions, events);
            var t := Run(bank, questions, events + later);
            exam in t.exams && t.exams[exam].status != InProgress && Of(t.answers, exam) == Of(s.answers, exam)
  {
    if later == [] {
      assert events + later == events;
    } else {
      var before := later[..|later| - 1];
      assert (events + later)[..|events + later| - 1] == events + before;
      FrozenOnceOver(bank, questions, events, before, exam);
      ReachableInv(bank, questions, events + before);
      StepKeepsFrozen(bank, Run(bank, questions, events + before), later[|later| - 1], exam);
    }
  }

  lemma StepKeepsFrozen(bank: Bank, s: State, e: Event, exam: string)
    requires HeldInv(s) && Allowed(s, e) && exam in s.exams && s.exams[exam].status != InProgress
    ensures var t := Step(bank, s, e);
            exam in t.exams && t.exams[exam].status != InProgress && Of(t.answers, exam) == Of(s.answers, exam)
  {
    StepKeepsOthersAnswers(bank, s, e, exam);
    if e.WriteBack? && CanWriteBack(s, e.call) { assert SoundHeld(s.exams, s.held[e.call]); }
  }

  lemma {:induction false} CorrectIsAdditive(some: seq<Answer>, more: seq<Answer>)
    ensures Correct(some + more) == Correct(some) + Correct(more)
  {
    if more == [] {
      assert some + more == some;
    } else {
      assert (some + more)[..|some + more| - 1] == some + more[..|more| - 1];
      CorrectIsAdditive(some, more[..|more| - 1]);
    }
  }

  lemma {:induction false} CorrectIsAtMostAll(answers: seq<Answer>)
    ensures Correct(answers) <= |answers|
  {
    if answers != [] { CorrectIsAtMostAll(answers[..|answers| - 1]); }
  }

  /**
    For every interleaving a score and its percentage are those of one of the exam's completions: the score counts
    the correct answers that completion read, some or all of those given.
   */
  lemma {:induction false} ScoreCountsItsSnapshot(bank: Bank, questions: set<string>, events: seq<Event>, exam: string)
    returns (c: Completion)
    requires AllAllowed(bank, questions, events) && exam in Run(bank, questions, events).exams
    requires Run(bank, questions, events).exams[exam].score.Some?
    ensures var s := Run(bank, questions, events);
            var mine := Of(s.answers, exam);
            && c in s.completions && ScoreOf(s.exams[exam], exam, c) && c.snapshot <= mine
            && s.exams[exam].score.value == Correct(c.snapshot) <= Correct(mine) <= |s.exams[exam].questionIds|
  {
    ReachableInv(bank, questions, events);
    var s := Run(bank, questions, events);
    assert ScoreMatches(s.exams[exam], exam, s.completions);
    c :| c in s.completions && ScoreOf(s.exams[exam], exam, c);
    assert SoundCompletion(s.exams, s.answers, c);
    var mine := Of(s.answers, exam);
    assert mine == c.snapshot + mine[|c.snapshot|..];
    CorrectIsAdditive(c.snapshot, mine[|c.snapshot|..]);
    CorrectIsAtMostAll(mine);
    AnswersFit(s, exam);
  }

  /** The event at i is the read whose save is the one at i + 1. */
  predicate SavesItsRead(events: seq<Event>, i: nat)
    requires i + 1 < |events|
  {
    match events[i + 1]
    case CompleteSave(call) => events[i].CompleteRead? && events[i].call == call
    case WriteBack(call) => (events[i].AbandonRead? || events[i].BreakdownRead?) && events[i].call == call
    case _ => false
  }

  predicate IsSave(e: Event) { e.CompleteSave? || e.WriteBack? }

  /** Every save comes directly after its own read: no call overlaps another. */
  ghost predicate Serial(events: seq<Event>) {
    forall i | 0 <= i < |events| && IsSave(events[i]) :: i > 0 && SavesItsRead(events, i - 1)
  }

  ghost predicate Exact(s: State) {
    forall x <- s.exams :: s.exams[x].score.Some? ==> s.exams[x].score.value == Correct(Of(s.answers, x))
  }

  lemma StepKeepsExact(bank: Bank, s: State, e: Event)
    requires Inv(s) && Allowed(s, e) && Exact(s) && !IsSave(e)
    ensures Exact(Step(bank, s, e))
  {
    var t := Step(bank, s, e);
    forall x | x in t.exams && t.exams[x].score.Some? ensures t.exams[x].score.value == Correct(Of(t.answers, x)) {
      assert x in s.exams && ScoreMatches(s.exams[x], x, s.completions);
      StepKeepsFrozen(bank, s, e, x);
    }
  }

  lemma SaveKeepsExact(bank: Bank, s: State, read: Event, save: Event)
    requires Exact(s) && Allowed(s, read) && SavesItsRead([read, save], 0)
    ensures Exact(Step(bank, Step(bank, s, read), save))
  {
  }

  /** With no call overlapping another, a score is the number of correct answers, for good. */
  lemma {:induction false} SerialScoresAreExact(bank: Bank, questions: set<string>, events: seq<Event>, exam: string)
    requires AllAllowed(bank, questions, events) && Serial(events)
    requires exam in Run(bank, questions, events).exams && Run(bank, questions, events).exams[exam].score.Some?
    ensures var s := Run(bank, questions, events);
            s.exams[exam].score.value == Correct(Of(s.answers, exam))
  {
    SerialRunsAreExact(bank, questions, events);
  }

  lemma {:induction false} SerialRunsAreExact(bank: Bank, questions: set<string>, events: seq<Event>)
    requires AllAllowed(bank, questions, events) && Serial(events)
    ensures Exact(Run(bank, questions, events))
    decreases |events|
  {
    if events != [] {
      var n := |events|;
      var before := events[..n - 1];
      assert forall i | 0 <= i < n - 1 :: before[i] == events[i];
      if IsSave(events[n - 1]) {
        assert SavesItsRead(events, n - 2);
        assert before[..n - 2] == events[..n - 2];
        SerialPrefix(events, n - 2);
        SerialRunsAreExact(bank, questions, events[..n - 2]);
        SaveKeepsExact(bank, Run(bank, questions, events[..n - 2]), events[n - 2], events[n - 1]);
      } else {
        ReachableInv(bank, questions, before);
        SerialPrefix(events, n - 1);
        SerialRunsAreExact(bank, questions, before);
        StepKeepsExact(bank, Run(bank, questions, before), events[n - 1]);
      }
    }
  }

  lemma SerialPrefix(events: seq<Event>, n: nat)
    requires Serial(events) && n <= |events|
    ensures Serial(events[..n])
  {
    forall i | 0 <= i < n && IsSave(events[..n][i]) ensures i > 0 && SavesItsRead(events[..n], i - 1) {
      assert SavesItsRead(events, i - 1);
    }
  }

  // ----- Percentages and the perfect bonus -----------------------------------------------------

  lemma NearMultiple(p: nat, d: nat, bound: nat)
    ensures p > bound ==> d * p >= d * bound + d
    ensures p < bound ==> d * p + d <= d * bound
  {
    if p > bound { Distribute(d, bound, p - bound - 1); }
    if p < bound { Distribute(d, p, bound - p - 1); }
  }

  /** Within 0 and 100.00, at most half a hundredth off, and 100.00 for a full score. */
  lemma PercentIsTheRoundedRatio(correct: nat, total: nat)
    requires correct <= total && total > 0
    ensures Percent(correct, total) <= 10000
    ensures -(total as int) <= 2 * (Percent(correct, total) * total - 10000 * correct) <= total
    ensures correct == total ==> Percent(correct, total) == 10000
  {
    var d, x := 2 * total, 20000 * correct + total;
    var p := x / d;
    assert x == d * p + x % d;
    NearMultiple(p, d, 10000);
    assert d * p == 2 * (p * total);
  }

  lemma {:induction false} SavedPercentIsInRange(bank: Bank, questions: set<string>, events: seq<Event>, exam: string)
    requires AllAllowed(bank, questions, events) && exam in Run(bank, questions, events).exams
    ensures Run(bank, questions, events).exams[exam].percent.Some? ==>
              Run(bank, questions, events).exams[exam].percent.value <= 10000
  {
    ReachableInv(bank, questions, events);
    var s := Run(bank, questions, events);
    assert ScoreMatches(s.exams[exam], exam, s.completions);
    if s.exams[exam].percent.Some? && |s.exams[exam].questionIds| > 0 {
      var c := ScoreCountsItsSnapshot(bank, questions, events, exam);
      PercentIsTheRoundedRatio(s.exams[exam].score.value, |s.exams[exam].questionIds|);
    }
  }

  function CorrectOnly(answers: seq<Answer>): seq<Answer> {
    if answers == [] then []
    else CorrectOnly(answers[..|answers| - 1]) + if answers[|answers| - 1].correct then [answers[|answers| - 1]] else []
  }

  lemma {:induction false} CorrectOnlyCounts(answers: seq<Answer>)
    ensures |CorrectOnly(answers)| == Correct(answers)
    ensures forall a :: a in CorrectOnly(answers) <==> a in answers && a.correct
    ensures DistinctQuestions(answers) ==> DistinctQuestions(CorrectOnly(answers))
  {
    if answers != [] { CorrectOnlyCounts(answers[..|answers| - 1]); }
  }

  /** Every question has a correct answer. */
  predicate AllCorrect(questionIds: seq<string>, snapshot: seq<Answer>) {
    forall q <- questionIds :: exists a <- snapshot :: a.question == q && a.correct
  }

  /** There are questions, and none is asked twice. */
  predicate DistinctIds(questionIds: seq<string>) { questionIds != [] && |Ids(questionIds)| == |questionIds| }

  /** The perfect bonus is given exactly when there are questions and every one of them has a correct answer. */
  lemma {:induction false} PerfectIffEveryQuestionCorrect(bank: Bank, questions: set<string>, events: seq<Event>,
          c: Completion)
    requires AllAllowed(bank, questions, events) && c in Run(bank, questions, events).completions
    ensures var s := Run(bank, questions, events);
            && c.exam in s.exams
            && (c.perfect ==> AllCorrect(s.exams[c.exam].questionIds, c.snapshot))
            && (DistinctIds(s.exams[c.exam].questionIds) && AllCorrect(s.exams[c.exam].questionIds, c.snapshot) ==>
                  c.perfect)
  {
    ReachableInv(bank, questions, events);
    var s := Run(bank, questions, events);
    assert SoundCompletion(s.exams, s.answers, c);
    AnswersFit(s, c.exam);
    PerfectIffAllCorrect(c.snapshot, Of(s.answers, c.exam), s.exams[c.exam].questionIds);
  }

  lemma PerfectIffAllCorrect(snapshot: seq<Answer>, mine: seq<Answer>, questionIds: seq<string>)
    requires snapshot <= mine && DistinctQuestions(mine) && Questions(mine) <= Ids(questionIds)
    ensures Correct(snapshot) == |questionIds| ==> AllCorrect(questionIds, snapshot)
    ensures |Ids(questionIds)| == |questionIds| && AllCorrect(questionIds, snapshot) ==>
              Correct(snapshot) == |questionIds|
  {
    CorrectOnlyCounts(snapshot);
    var right := CorrectOnly(snapshot);
    QuestionsCount(right);
    IdsCount(questionIds);
    assert Questions(right) <= Ids(questionIds) by {
      forall a | a in right ensures a.question in Ids(questionIds) {
        assert a in mine;
        assert a.question in Questions(mine);
      }
    }
    SubsetCount(Questions(right), Ids(questionIds));
    if Correct(snapshot) == |questionIds| {
      forall q | q in questionIds ensures exists a <- snapshot :: a.question == q && a.correct {
        assert q in Questions(right);
      }
    } else if AllCorrect(questionIds, snapshot) {
      forall q | q in Ids(questionIds) ensures q in Questions(right) {
        var a :| a in snapshot && a.question == q && a.correct;
        assert a in right;
      }
      assert Questions(right) == Ids(questionIds);
    }
  }

  // ----- Resuming ----------------------------------------------------------------------------------

  function Remaining(questionIds: seq<string>, answered: set<string>): seq<string> {
    if questionIds == [] then []
    else if questionIds[0] in answered then Remaining(questionIds[1..], answered)
    else [questionIds[0]] + Remaining(questionIds[1..], answered)
  }

  /** The rows found in the past-paper table, in the order asked for. */
  function Loaded(ids: seq<string>, table: set<string>): seq<string> {
    if ids == [] then []
    else if ids[0] in table then [ids[0]] + Loaded(ids[1..], table)
    else Loaded(ids[1..], table)
  }

  function Resumed(questionIds: seq<string>, answered: set<string>, table: set<string>): seq<string> {
    Loaded(Remaining(questionIds, answered), table)
  }

  /** Resuming splits wherever the question list does: it keeps the order and every repetition. */
  lemma {:induction false} ResumedInOrder(some: seq<string>, more: seq<string>, answered: set<string>,
                                          table: set<string>)
    ensures Resumed(some + more, answered, table) == Resumed(some, answered, table) + Resumed(more, answered, table)
  {
    if some == [] {
      assert some + more == more;
    } else {
      assert (some + more)[1..] == some[1..] + more;
      ResumedInOrder(some[1..], more, answered, table);
      ResumedFirst(some, answered, table);
      ResumedFirst(some + more, answered, table);
    }
  }

  lemma ResumedFirst(questionIds: seq<string>, answered: set<string>, table: set<string>)
    requires questionIds != []
    ensures Resumed(questionIds, answered, table) ==
            (if questionIds[0] !in answered && questionIds[0] in table then [questionIds[0]] else []) +
            Resumed(questionIds[1..], answered, table)
  {
    if questionIds[0] !in answered {
      var rest := Remaining(questionIds[1..], answered);
      assert Remaining(questionIds, answered)[1..] == rest;
    }
  }

  lemma {:induction false} ResumedMembers(questionIds: seq<string>, answered: set<string>, table: set<string>,
                                          q: string)
    ensures q in Resumed(questionIds, answered, table) <==> q in questionIds && q !in answered && q in table
  {
    if questionIds != [] {
      ResumedFirst(questionIds, answered, table);
      ResumedMembers(questionIds[1..], answered, table, q);
    }
  }

  /** How many of the listed ids are answered. */
  function AnsweredCount(questionIds: seq<string>, answered: set<string>): nat {
    if questionIds == [] then 0
    else (if questionIds[0] in answered then 1 else 0) + AnsweredCount(questionIds[1..], answered)
  }

  lemma {:induction false} ResumedCounts(questionIds: seq<string>, answered: set<string>, table: set<string>)
    ensures |Resumed(questionIds, answered, table)| + AnsweredCount(questionIds, answered) <= |questionIds|
    ensures |Resumed(questionIds, answered, table)| + AnsweredCount(questionIds, answered) == |questionIds| <==>
              forall q <- questionIds :: q in answered || q in table
  {
    if questionIds != [] {
      ResumedFirst(questionIds, answered, table);
      ResumedCounts(questionIds[1..], answered, table);
      assert forall q :: q in questionIds <==> q == questionIds[0] || q in questionIds[1..];
    }
  }

  /**
    In every state: resuming returns a question exactly if it is the exam's, unanswered, and in the past-paper
    table; together with the answered ones that is every question exactly if none is missing there.
   */
  lemma {:induction false} ResumeReturnsTheUnanswered(s: State, table: set<string>, exam: string, q: string)
    requires exam in s.exams
    ensures var ids := s.exams[exam].questionIds;
            var answered := Questions(Of(s.answers, exam));
            && (q in Resumed(ids, answered, table) <==> q in ids && !Answered(s.answers, exam, q) && q in table)
            && (|Resumed(ids, answered, table)| + AnsweredCount(ids, answered) == |ids| <==>
                forall x <- ids :: Answered(s.answers, exam, x) || x in table)
  {
    var ids := s.exams[exam].questionIds;
    forall x ensures x in Questions(Of(s.answers, exam)) <==> Answered(s.answers, exam, x) {
      AnsweredIffListed(s.answers, exam, x);
    }
    ResumedMembers(ids, Questions(Of(s.answers, exam)), table, q);
    ResumedCounts(ids, Questions(Of(s.answers, exam)), table);
  }

  lemma AnsweredIffListed(answers: seq<Answer>, exam: string, q: string)
    ensures q in Questions(Of(answers, exam)) <==> Answered(answers, exam, q)
  {
    if q in Questions(Of(answers, exam)) {
      var a :| a in Of(answers, exam) && a.question == q;
      OfMembers(answers, exam, a);
    }
    if Answered(answers, exam, q) {
      var a :| a in answers && a.exam == exam && a.question == q;
      OfMembers(answers, exam, a);
    }
  }

  // ----- The service -------------------------------------------------------------------------------

  datatype CompleteOutcome = Finished(score: nat, total: nat, perfect: bool) | MissingExam | NotYours | AlreadyCompleted

  class ExamsService {
    const bank: Bank
    var exams: map<string, Exam>
    var answers: seq<Answer>
    var counters: map<string, Counter>

    constructor (bank: Bank, questions: set<string>)
      ensures this.bank == bank && View(Initial(questions)) == Initial(questions)
    {
      this.bank := bank;
      exams, answers, counters := map[], [], map q <- questions :: Counter(0, 0);
    }

    /** The tables, beside what the calls under way in `rest` have read and which completions it has saved. */
    ghost function View(rest: State): State
      reads this
    {
      rest.(exams := exams, answers := answers, counters := counters)
    }

    method SubmitAnswer(user: string, exam: string, question: string, selected: Option<string>, timeMs: Option<nat>,
                        ghost rest: State) returns (r: Outcome)
      modifies this`answers, this`counters
      ensures r == SubmitOutcome(bank, old(View(rest)), user, exam, question, selected)
      ensures View(rest) == Step(bank, old(View(rest)), Submit(user, exam, question, selected, timeMs))
    {
      if exam !in exams { return NotFound; }
      var row := exams[exam];
      if row.user != user { return Forbidden; }
      if row.status != InProgress { return Conflict; }
      if question !in row.questionIds { return BadRequest; }
      if exists a <- answers :: a.exam == exam && a.question == question { return Conflict; }
      var choices := Choices(bank, row.pool, question);
      var correctOption := FirstCorrect(choices);
      if correctOption.None? { return NotFound; }
      if Given(selected) && forall c <- choices :: c.id != selected.value { return BadRequest; }
      var isCorrect := Given(selected) && selected.value == correctOption.value;
      answers := answers + [Answer(exam, question, isCorrect, timeMs)];
      if question in counters {
        var c := counters[question];
        counters := counters[question := Counter(c.answered + 1, c.correct + if isCorrect then 1 else 0)];
      }
      r := Graded(isCorrect, correctOption.value);
    }

    /**
      A whole completion: the read and the save with nothing in between; a completed exam's result is only returned.
     */
    method Complete(user: string, exam: string, ghost call: nat, ghost rest: State) returns (r: CompleteOutcome)
      requires call !in rest.pending
      modifies this`exams
      ensures var done := Save(Step(bank, old(View(rest)), CompleteRead(call, user, exam)), call);
              View(done) == done
      ensures r.MissingExam? <==> exam !in old(exams)
      ensures r.NotYours? <==> exam in old(exams) && old(exams)[exam].user != user
      ensures r.AlreadyCompleted? <==>
                exam in old(exams) && old(exams)[exam].user == user && old(exams)[exam].status.Completed?
      ensures r.Finished? ==> r.score == Correct(Of(answers, exam)) && r.total == |old(exams)[exam].questionIds|
      ensures r.Finished? ==> (r.perfect <==> r.total > 0 && r.score == r.total)
    {
      if exam !in exams { return MissingExam; }
      var row := exams[exam];
      if row.user != user { return NotYours; }
      if row.status == Completed { return AlreadyCompleted; }
      var correct := CountCorrect(exam);
      var total := |row.questionIds|;
      exams := exams[exam := row.(status := Completed, score := Some(correct),
                                  percent := Some(Percent(correct, total)))];
      r := Finished(correct, total, total > 0 && correct == total);
    }

    /** answers.filter((a) => a.isCorrect).length over the exam's rows. */
    method CountCorrect(exam: string) returns (correct: nat)
      ensures correct == Correct(Of(answers, exam))
    {
      correct := 0;
      for i := 0 to |answers|
        invariant correct == Correct(Of(answers[..i], exam))
      {
        assert answers[..i + 1] == answers[..i] + [answers[i]];
        OfAppended(answers[..i], answers[i], exam);
        if answers[i].exam == exam && answers[i].correct { correct := correct + 1; }
      }
      assert answers[..|answers|] == answers;
    }

    /** A whole abandonment: the read and the save with nothing in between, which sets the status and nothing else. */
    method AbandonExam(user: string, exam: string, ghost call: nat, ghost rest: State) returns (r: Option<Outcome>)
      requires call !in rest.held
      modifies this`exams
      ensures var done := Restore(Step(bank, old(View(rest)), AbandonRead(call, user, exam)), call);
              View(done) == done
      ensures r.None? <==> exam in old(exams) && old(exams)[exam].user == user
      ensures exams == if r.None? then old(exams)[exam := old(exams)[exam].(status := Abandoned)] else old(exams)
    {
      if exam !in exams { return Some(NotFound); }
      if exams[exam].user != user { return Some(Forbidden); }
      exams := exams[exam := exams[exam].(status := Abandoned)];
      r := None;
    }
  }
}
