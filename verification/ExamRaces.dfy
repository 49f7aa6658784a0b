/**
  Runs in which calls on one exam with one question overlap, or follow each other, with effects that an exam
  should not have. Each is a list of events and the trace it leads through.
 */
module ExamRaces {
  import opened Wrappers
  import opened Exams
  import opened ExamCompletions

  /** A trace made one event at a time; `s` is where it ends. */
  ghost predicate EndsIn(bank: Bank, events: seq<Event>, states: seq<State>, s: State) {
    Trace(bank, {}, events, states) && states[|events|] == s
  }

  lemma {:induction false} Extend(bank: Bank, events: seq<Event>, states: seq<State>, s: State, e: Event)
    returns (more: seq<Event>, further: seq<State>, t: State)
    requires EndsIn(bank, events, states, s) && Allowed(s, e)
    ensures more == events + [e] && t == Step(bank, s, e) && EndsIn(bank, more, further, t)
  {
    more, further, t := events + [e], states + [Step(bank, s, e)], Step(bank, s, e);
    forall i: nat | i <= |events| ensures StepsTo(bank, more, further, i) {
      if i < |events| { assert StepsTo(bank, events, states, i); }
    }
  }

  // ----- A scene: what the events of one user on one exam have led to -------------------------------

  datatype Waiting = Waiting(correct: nat, saved: bool)

  datatype Stale = Stale(status: Status, score: Option<nat>, saved: bool)

  /** The exam, its correct answers and completions, and what the calls on it have read. */
  datatype Scene = Scene(status: Status, score: Option<nat>, correct: nat, count: nat, waiting: map<nat, Waiting>,
                         held: map<nat, Stale>)

  predicate Waits(p: Pending, exam: string, w: Waiting) {
    p.exam == exam && p.saved == w.saved && Correct(p.snapshot) == w.correct
  }

  predicate HoldsStale(h: Held, user: string, exam: string, v: Stale) {
    h.exam == exam && h.saved == v.saved && h.row.user == user && h.row.status == v.status && h.row.score == v.score
  }

  predicate Shows(s: State, user: string, exam: string, v: Scene) {
    && exam in s.exams && s.exams[exam].user == user && s.exams[exam].status == v.status
    && s.exams[exam].score == v.score
    && CorrectOf(s, exam) == v.correct && CompletionsOf(s.completions, exam) == v.count
    && s.pending.Keys == v.waiting.Keys && (forall c <- v.waiting :: Waits(s.pending[c], exam, v.waiting[c]))
    && s.held.Keys == v.held.Keys && (forall c <- v.held :: HoldsStale(s.held[c], user, exam, v.held[c]))
  }

  lemma ReadShows(bank: Bank, s: State, user: string, exam: string, v: Scene, call: nat)
    requires Shows(s, user, exam, v) && v.status != Completed && call !in v.waiting
    ensures Shows(Step(bank, s, CompleteRead(call, user, exam)), user, exam,
                  v.(waiting := v.waiting[call := Waiting(v.correct, false)]))
  {
  }

  lemma SaveShows(bank: Bank, s: State, user: string, exam: string, v: Scene, call: nat)
    requires Shows(s, user, exam, v) && call in v.waiting && !v.waiting[call].saved
    ensures var w := v.waiting[call];
            Shows(Step(bank, s, CompleteSave(call)), user, exam,
                  v.(status := Completed, score := Some(w.correct), count := v.count + 1,
                     waiting := v.waiting[call := w.(saved := true)]))
  {
    assert Waits(s.pending[call], exam, v.waiting[call]);
    StepCounts(bank, s, CompleteSave(call), exam);
  }

  lemma HoldShows(bank: Bank, s: State, user: string, exam: string, v: Scene, call: nat)
    requires Shows(s, user, exam, v) && call !in v.held
    ensures Shows(Step(bank, s, AbandonRead(call, user, exam)), user, exam,
                  v.(held := v.held[call := Stale(Abandoned, v.score, false)]))
  {
  }

  lemma RestoreShows(bank: Bank, s: State, user: string, exam: string, v: Scene, call: nat)
    requires Shows(s, user, exam, v) && call in v.held && !v.held[call].saved
    ensures var h := v.held[call];
            Shows(Step(bank, s, WriteBack(call)), user, exam,
                  v.(status := h.status, score := h.score, held := v.held[call := h.(saved := true)]))
  {
    assert HoldsStale(s.held[call], user, exam, v.held[call]);
  }

  lemma AnswerShows(bank: Bank, s: State, user: string, exam: string, v: Scene, question: string, right: string)
    requires Shows(s, user, exam, v)
    requires AnswersCorrectly(bank, s, Answering(user, exam, question, right), exam)
    ensures Shows(Step(bank, s, Answering(user, exam, question, right)), user, exam, v.(correct := v.correct + 1))
  {
    var (e, t) := (Answering(user, exam, question, right), Step(bank, s, Answering(user, exam, question, right)));
    StepCountsCorrect(bank, s, e, exam);
    AnswerChangesLittle(bank, s, e);
  }

  lemma AnswerChangesLittle(bank: Bank, s: State, e: Event)
    requires e.Submit?
    ensures var t := Step(bank, s, e);
            t.exams == s.exams && t.pending == s.pending && t.held == s.held && t.completions == s.completions
  {
  }

  // ----- A play: a run and what it has led to --------------------------------------------------------

  datatype Play = Play(bank: Bank, user: string, exam: string, events: seq<Event>, states: seq<State>, s: State,
                       v: Scene) {
    ghost predicate Valid() { EndsIn(bank, events, states, s) && Shows(s, user, exam, v) }

    /** The same play, one event later. */
    ghost predicate Then(e: Event, w: Scene, later: Play) {
      && later.Valid() && later.bank == bank && later.user == user && later.exam == exam
      && later.events == events + [e] && later.v == w
    }
  }

  function Created(user: string, exam: string, question: string): Event { Create(exam, user, [question], PastPaper) }

  function Answering(user: string, exam: string, question: string, right: string): Event {
    Submit(user, exam, question, Some(right), None)
  }

  lemma Start(bank: Bank, user: string, exam: string, question: string) returns (p: Play)
    ensures p.Valid() && p.bank == bank && p.user == user && p.exam == exam
            && p.events == [Created(user, exam, question)]
    ensures p.s.answers == [] && p.s.exams == map[exam := Exam(user, [question], PastPaper, InProgress, None, None)]
    ensures p.v == Scene(InProgress, None, 0, 0, map[], map[])
  {
    var events, states, s := Extend(bank, [], [Initial({})], Initial({}), Created(user, exam, question));
    p := Play(bank, user, exam, events, states, s, Scene(InProgress, None, 0, 0, map[], map[]));
  }

  lemma Read(p: Play, call: nat) returns (q: Play)
    requires p.Valid() && p.v.status != Completed && call !in p.v.waiting
    ensures p.Then(CompleteRead(call, p.user, p.exam),
                   p.v.(waiting := p.v.waiting[call := Waiting(p.v.correct, false)]), q)
    ensures q.s.exams == p.s.exams && q.s.answers == p.s.answers
  {
    ReadShows(p.bank, p.s, p.user, p.exam, p.v, call);
    var events, states, s := Extend(p.bank, p.events, p.states, p.s, CompleteRead(call, p.user, p.exam));
    q := Play(p.bank, p.user, p.exam, events, states, s,
              p.v.(waiting := p.v.waiting[call := Waiting(p.v.correct, false)]));
  }

  function SavedScene(v: Scene, call: nat): Scene
    requires call in v.waiting
  {
    var w := v.waiting[call];
    v.(status := Completed, score := Some(w.correct), count := v.count + 1,
       waiting := v.waiting[call := w.(saved := true)])
  }

  lemma Finish(p: Play, call: nat) returns (q: Play)
    requires p.Valid() && call in p.v.waiting && !p.v.waiting[call].saved
    ensures p.Then(CompleteSave(call), SavedScene(p.v, call), q)
  {
    SaveShows(p.bank, p.s, p.user, p.exam, p.v, call);
    var events, states, s := Extend(p.bank, p.events, p.states, p.s, CompleteSave(call));
    q := Play(p.bank, p.user, p.exam, events, states, s, SavedScene(p.v, call));
  }

  lemma Leave(p: Play, call: nat) returns (q: Play)
    requires p.Valid() && call !in p.v.held
    ensures p.Then(AbandonRead(call, p.user, p.exam),
                   p.v.(held := p.v.held[call := Stale(Abandoned, p.v.score, false)]), q)
  {
    HoldShows(p.bank, p.s, p.user, p.exam, p.v, call);
    var events, states, s := Extend(p.bank, p.events, p.states, p.s, AbandonRead(call, p.user, p.exam));
    q := Play(p.bank, p.user, p.exam, events, states, s,
              p.v.(held := p.v.held[call := Stale(Abandoned, p.v.score, false)]));
  }

  function LeftScene(v: Scene, call: nat): Scene
    requires call in v.held
  {
    var h := v.held[call];
    v.(status := h.status, score := h.score, held := v.held[call := h.(saved := true)])
  }

  lemma Left(p: Play, call: nat) returns (q: Play)
    requires p.Valid() && call in p.v.held && !p.v.held[call].saved
    ensures p.Then(WriteBack(call), LeftScene(p.v, call), q)
  {
    RestoreShows(p.bank, p.s, p.user, p.exam, p.v, call);
    var events, states, s := Extend(p.bank, p.events, p.states, p.s, WriteBack(call));
    q := Play(p.bank, p.user, p.exam, events, states, s, LeftScene(p.v, call));
  }

  function OneChoice(question: string, right: string): Bank { Bank(map[question := [Choice(right, true)]], map[]) }

  lemma AnswerIsCorrect(s: State, user: string, exam: string, question: string, right: string)
    requires |right| > 0 && s.answers == []
             && s.exams == map[exam := Exam(user, [question], PastPaper, InProgress, None, None)]
    ensures AnswersCorrectly(OneChoice(question, right), s, Answering(user, exam, question, right), exam)
  {
    var choices := [Choice(right, true)];
    assert Choices(OneChoice(question, right), PastPaper, question) == choices;
    assert Grade(choices, Some(right)) == Graded(true, right);
  }

  lemma Answer(p: Play, question: string, right: string) returns (q: Play)
    requires p.Valid() && |right| > 0 && p.bank == OneChoice(question, right) && p.s.answers == []
    requires p.s.exams == map[p.exam := Exam(p.user, [question], PastPaper, InProgress, None, None)]
    ensures p.Then(Answering(p.user, p.exam, question, right), p.v.(correct := p.v.correct + 1), q)
  {
    AnswerIsCorrect(p.s, p.user, p.exam, question, right);
    AnswerShows(p.bank, p.s, p.user, p.exam, p.v, question, right);
    var events, states, s := Extend(p.bank, p.events, p.states, p.s, Answering(p.user, p.exam, question, right));
    q := Play(p.bank, p.user, p.exam, events, states, s, p.v.(correct := p.v.correct + 1));
  }

  // ----- Completing twice ------------------------------------------------------------------------

  /** Two completions that read before either is saved: no abandonment is needed. */
  lemma OverlappingCompletionsCountTwice(bank: Bank, user: string, exam: string, question: string) returns (p: Play)
    ensures EndsIn(bank, p.events, p.states, p.s) && CompletionsOf(p.s.completions, exam) == 2
    ensures p.events == [Created(user, exam, question), CompleteRead(0, user, exam), CompleteRead(1, user, exam),
                         CompleteSave(0), CompleteSave(1)]
  {
    p := Start(bank, user, exam, question);
    p := Read(p, 0);
    p := Read(p, 1);
    p := Finish(p, 0);
    p := Finish(p, 1);
  }

  lemma CompletedOnce(bank: Bank, user: string, exam: string, question: string) returns (p: Play)
    ensures p.Valid() && p.bank == bank && p.user == user && p.exam == exam
    ensures p.events == [Created(user, exam, question), CompleteRead(0, user, exam), CompleteSave(0)]
    ensures p.v == Scene(Completed, Some(0), 0, 1, map[0 := Waiting(0, true)], map[])
  {
    p := Start(bank, user, exam, question);
    p := Read(p, 0);
    p := Finish(p, 0);
  }

  /** A completed exam that is abandoned and completed again, with no calls overlapping. */
  lemma CompletedExamCanCompleteAgain(bank: Bank, user: string, exam: string, question: string) returns (p: Play)
    ensures EndsIn(bank, p.events, p.states, p.s) && CompletionsOf(p.s.completions, exam) == 2
    ensures p.events == [Created(user, exam, question), CompleteRead(0, user, exam), CompleteSave(0),
                         AbandonRead(0, user, exam), WriteBack(0), CompleteRead(1, user, exam), CompleteSave(1)]
  {
    p := CompletedOnce(bank, user, exam, question);
    p := Leave(p, 0);
    p := Left(p, 0);
    p := Read(p, 1);
    p := Finish(p, 1);
  }

  // ----- Scores that miss correct answers ----------------------------------------------------------

  predicate Scores(s: State, exam: string, score: Option<nat>, correct: nat) {
    exam in s.exams && s.exams[exam].score == score && CorrectOf(s, exam) == correct
  }

  /** A correct answer submitted between a completion's read and its save is left out of the score. */
  lemma OverlappingSubmitIsMissed(user: string, exam: string, question: string, right: string) returns (p: Play)
    requires |right| > 0
    ensures EndsIn(p.bank, p.events, p.states, p.s) && Scores(p.s, exam, Some(0), 1)
    ensures p.events ==
              [Created(user, exam, question), CompleteRead(0, user, exam), Answering(user, exam, question, right),
                         CompleteSave(0)]
  {
    p := Start(OneChoice(question, right), user, exam, question);
    p := Read(p, 0);
    p := Answer(p, question, right);
    p := Finish(p, 0);
  }

  /** An abandonment that read before a completion was saved, and is saved after it, erases the score. */
  lemma StaleAbandonErasesScore(user: string, exam: string, question: string, right: string) returns (p: Play)
    requires |right| > 0
    ensures EndsIn(p.bank, p.events, p.states, p.s) && Scores(p.s, exam, None, 1)
    ensures p.events ==
              [Created(user, exam, question), Answering(user, exam, question, right), AbandonRead(0, user, exam),
                         CompleteRead(1, user, exam), CompleteSave(1), WriteBack(0)]
  {
    p := Start(OneChoice(question, right), user, exam, question);
    p := Answer(p, question, right);
    p := Leave(p, 0);
    p := Read(p, 1);
    p := Finish(p, 1);
    p := Left(p, 0);
  }

  lemma BothReadAroundAnAnswer(user: string, exam: string, question: string, right: string) returns (p: Play)
    requires |right| > 0
    ensures p.Valid() && p.user == user && p.exam == exam
    ensures p.events ==
              [Created(user, exam, question), CompleteRead(1, user, exam), Answering(user, exam, question, right),
                         CompleteRead(2, user, exam)]
    ensures p.v == Scene(InProgress, None, 1, 0, map[1 := Waiting(0, false), 2 := Waiting(1, false)], map[])
  {
    p := Start(OneChoice(question, right), user, exam, question);
    p := Read(p, 1);
    p := Answer(p, question, right);
    p := Read(p, 2);
  }

  /** Of two completions the later score is lost to an abandonment that read between their saves. */
  lemma StaleAbandonRestoresScore(user: string, exam: string, question: string, right: string)
    returns (before: Play, p: Play)
    requires |right| > 0
    ensures EndsIn(before.bank, before.events, before.states, before.s) && Scores(before.s, exam, Some(1), 1)
    ensures EndsIn(before.bank, p.events, p.states, p.s) && Scores(p.s, exam, Some(0), 1)
    ensures before.events ==
              [Created(user, exam, question), CompleteRead(1, user, exam), Answering(user, exam, question, right),
                              CompleteRead(2, user, exam), CompleteSave(1), AbandonRead(0, user, exam), CompleteSave(2)]
    ensures p.events == before.events + [WriteBack(0)]
  {
    p := BothReadAroundAnAnswer(user, exam, question, right);
    p := Finish(p, 1);
    p := Leave(p, 0);
    before := Finish(p, 2);
    p := Left(before, 0);
  }
}
