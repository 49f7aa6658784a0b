/**
  How often an exam is completed and what its score counts, said of the events of a run: which reads,
  saves, abandonments and correct answers took effect, and in which order.
 */
module ExamCompletions {
  import opened Wrappers
  import opened Exams

  ghost predicate StepsTo(bank: Bank, events: seq<Event>, states: seq<State>, i: nat)
    requires i < |events| && |states| == |events| + 1
  {
    Allowed(states[i], events[i]) && states[i + 1] == Step(bank, states[i], events[i])
  }

  /** The states a run goes through: states[i] is the one before the i-th event. */
  ghost predicate Trace(bank: Bank, questions: set<string>, events: seq<Event>, states: seq<State>) {
    && |states| == |events| + 1 && states[0] == Initial(questions)
    && forall i: nat | i < |events| :: StepsTo(bank, events, states, i)
  }

  lemma {:induction false} TraceIsRun(bank: Bank, questions: set<string>, events: seq<Event>, states: seq<State>,
                                      i: nat)
    requires Trace(bank, questions, events, states) && i <= |events|
    ensures AllAllowed(bank, questions, events[..i]) && Run(bank, questions, events[..i]) == states[i] && Inv(states[i])
  {
    if i > 0 {
      TraceIsRun(bank, questions, events, states, i - 1);
      assert StepsTo(bank, events, states, i - 1);
      assert events[..i][..i - 1] == events[..i - 1];
    }
    ReachableInv(bank, questions, events[..i]);
  }

  /** Every run has its trace, which ends in the run's state. */
  lemma {:induction false} RunHasATrace(bank: Bank, questions: set<string>, events: seq<Event>)
    returns (states: seq<State>)
    requires AllAllowed(bank, questions, events)
    ensures Trace(bank, questions, events, states) && states[|events|] == Run(bank, questions, events)
  {
    if events == [] {
      states := [Initial(questions)];
    } else {
      var n := |events| - 1;
      var before := RunHasATrace(bank, questions, events[..n]);
      states := before + [Run(bank, questions, events)];
      forall i: nat | i < |events| ensures StepsTo(bank, events, states, i) {
        if i < n { assert StepsTo(bank, events[..n], before, i); }
      }
    }
  }

  // ----- Events that take effect -------------------------------------------------------------------

  predicate Reads(s: State, e: Event, exam: string) { e.CompleteRead? && e.exam == exam && CanRead(s, e.user, exam) }

  predicate Saves(s: State, e: Event, exam: string) {
    e.CompleteSave? && CanSave(s, e.call) && s.pending[e.call].exam == exam
  }

  /** An abandonment or a breakdown reads the exam. */
  predicate Holds(s: State, e: Event, exam: string) {
    (e.AbandonRead? || e.BreakdownRead?) && e.exam == exam && Takes(s, e)
  }

  predicate Restores(s: State, e: Event, exam: string) {
    e.WriteBack? && CanWriteBack(s, e.call) && s.held[e.call].exam == exam
  }

  predicate Abandons(s: State, e: Event, exam: string) { Restores(s, e, exam) && s.held[e.call].row.status.Abandoned? }

  predicate AnswersCorrectly(bank: Bank, s: State, e: Event, exam: string) {
    && e.Submit? && e.exam == exam
    && var r := SubmitOutcome(bank, s, e.user, exam, e.question, e.selected); r.Graded? && r.isCorrect
  }

  predicate ReadAt(events: seq<Event>, states: seq<State>, i: nat, exam: string) {
    i < |states| && i < |events| && Reads(states[i], events[i], exam)
  }

  predicate SaveAt(events: seq<Event>, states: seq<State>, i: nat, exam: string) {
    i < |states| && i < |events| && Saves(states[i], events[i], exam)
  }

  predicate HoldAt(events: seq<Event>, states: seq<State>, i: nat, exam: string) {
    i < |states| && i < |events| && Holds(states[i], events[i], exam)
  }

  predicate RestoreAt(events: seq<Event>, states: seq<State>, i: nat, exam: string) {
    i < |states| && i < |events| && Restores(states[i], events[i], exam)
  }

  predicate AbandonAt(events: seq<Event>, states: seq<State>, i: nat, exam: string) {
    i < |states| && i < |events| && Abandons(states[i], events[i], exam)
  }

  predicate CorrectAnswerAt(bank: Bank, events: seq<Event>, states: seq<State>, i: nat, exam: string) {
    i < |states| && i < |events| && AnswersCorrectly(bank, states[i], events[i], exam)
  }

  /** The completion saved at t is the one that read at r. */
  predicate Completes(events: seq<Event>, states: seq<State>, r: nat, t: nat, exam: string) {
    && r < t && ReadAt(events, states, r, exam) && SaveAt(events, states, t, exam)
    && events[r].call == events[t].call
  }

  /** What a read took is kept for its save. */
  lemma StepKeepsPending(bank: Bank, s: State, e: Event, call: nat)
    requires Allowed(s, e) && call in s.pending
    ensures var t := Step(bank, s, e);
            call in t.pending && t.pending[call].exam == s.pending[call].exam
            && t.pending[call].snapshot == s.pending[call].snapshot
  {
  }

  lemma {:induction false} PendingStays(bank: Bank, questions: set<string>, events: seq<Event>, states: seq<State>,
                                        r: nat, n: nat, exam: string)
    requires Trace(bank, questions, events, states) && ReadAt(events, states, r, exam) && r < n <= |events|
    ensures var (s, t) := (states[r], states[n]);
            events[r].call in t.pending && t.pending[events[r].call].exam == exam
            && t.pending[events[r].call].snapshot == Of(s.answers, exam)
  {
    assert StepsTo(bank, events, states, n - 1);
    if n > r + 1 {
      PendingStays(bank, questions, events, states, r, n - 1, exam);
      StepKeepsPending(bank, states[n - 1], events[n - 1], events[r].call);
    }
  }

  lemma {:induction false} PendingWasRead(bank: Bank, questions: set<string>, events: seq<Event>, states: seq<State>,
                                          n: nat, call: nat)
    returns (r: nat)
    requires Trace(bank, questions, events, states) && n <= |events| && call in states[n].pending
    ensures r < n && ReadAt(events, states, r, states[n].pending[call].exam) && events[r].call == call
  {
    assert n > 0;
    var s := states[n - 1];
    assert StepsTo(bank, events, states, n - 1);
    if call in s.pending {
      r := PendingWasRead(bank, questions, events, states, n - 1, call);
      StepKeepsPending(bank, s, events[n - 1], call);
    } else {
      r := n - 1;
    }
  }

  // ----- How often an exam is completed -------------------------------------------------------------

  function CompletionsOf(completions: seq<Completion>, exam: string): nat {
    if completions == [] then 0
    else
      var last := |completions| - 1;
      CompletionsOf(completions[..last], exam) + if completions[last].exam == exam then 1 else 0
  }

  lemma StepCounts(bank: Bank, s: State, e: Event, exam: string)
    ensures CompletionsOf(Step(bank, s, e).completions, exam) ==
            CompletionsOf(s.completions, exam) + if Saves(s, e, exam) then 1 else 0
  {
    var t := Step(bank, s, e);
    if t.completions != s.completions { assert t.completions[..|s.completions|] == s.completions; }
  }

  /** One saved completion is one save that took effect. */
  lemma {:induction false} CountedSaves(bank: Bank, questions: set<string>, events: seq<Event>, states: seq<State>,
                                        n: nat, exam: string)
    requires Trace(bank, questions, events, states) && n <= |events|
    ensures CompletionsOf(states[n].completions, exam) >= 1 <==>
              exists t: nat | t < n :: SaveAt(events, states, t, exam)
    ensures CompletionsOf(states[n].completions, exam) >= 2 <==>
              exists s: nat, t: nat | s < t < n :: SaveAt(events, states, s, exam) && SaveAt(events, states, t, exam)
  {
    if n > 0 {
      CountedSaves(bank, questions, events, states, n - 1, exam);
      assert StepsTo(bank, events, states, n - 1);
      StepCounts(bank, states[n - 1], events[n - 1], exam);
      if SaveAt(events, states, n - 1, exam) {
        if CompletionsOf(states[n - 1].completions, exam) >= 1 {
          var t: nat :| t < n - 1 && SaveAt(events, states, t, exam);
          assert t < n - 1 < n && SaveAt(events, states, t, exam) && SaveAt(events, states, n - 1, exam);
        }
      }
    }
  }

  /** A second completion has read the exam before the first is saved, and is saved after it. */
  predicate Overlaps(events: seq<Event>, states: seq<State>, exam: string, r: nat, s: nat, t: nat) {
    r < s < t && SaveAt(events, states, s, exam) && Completes(events, states, r, t, exam)
  }

  /** After a save the exam is abandoned, and then completed again. */
  predicate Reopens(events: seq<Event>, states: seq<State>, exam: string, s: nat, a: nat, r: nat, t: nat) {
    && s < a < r && SaveAt(events, states, s, exam) && AbandonAt(events, states, a, exam)
    && Completes(events, states, r, t, exam)
  }

  lemma StepStaysCompleted(bank: Bank, s: State, e: Event, exam: string)
    requires HeldInv(s) && Allowed(s, e) && exam in s.exams && s.exams[exam].status.Completed? && !Abandons(s, e, exam)
    ensures exam in Step(bank, s, e).exams && Step(bank, s, e).exams[exam].status.Completed?
  {
    if Restores(s, e, exam) { assert SoundHeld(s.exams, s.held[e.call]); }
  }

  lemma {:induction false} LeavingCompletedIsAbandoning(bank: Bank, questions: set<string>, events: seq<Event>,
          states: seq<State>, m: nat, n: nat, exam: string)
    returns (a: nat)
    requires Trace(bank, questions, events, states) && m <= n <= |events|
    requires exam in states[m].exams && states[m].exams[exam].status.Completed?
    requires exam in states[n].exams && !states[n].exams[exam].status.Completed?
    ensures m <= a < n && AbandonAt(events, states, a, exam)
    decreases n - m
  {
    var s := states[m];
    assert StepsTo(bank, events, states, m);
    if Abandons(s, events[m], exam) {
      a := m;
    } else {
      TraceIsRun(bank, questions, events, states, m);
      StepStaysCompleted(bank, s, events[m], exam);
      a := LeavingCompletedIsAbandoning(bank, questions, events, states, m + 1, n, exam);
    }
  }

  lemma {:induction false} SavedIsCompleted(bank: Bank, questions: set<string>, events: seq<Event>, states: seq<State>,
                                            t: nat, exam: string)
    requires Trace(bank, questions, events, states) && SaveAt(events, states, t, exam)
    ensures var u := states[t + 1];
            && exam in u.exams && u.exams[exam].status.Completed?
            && u.exams[exam].score == Some(Correct(states[t].pending[events[t].call].snapshot))
            && u.answers == states[t].answers
  {
    assert StepsTo(bank, events, states, t);
  }

  /** Of two saves the later one overlaps the earlier, or was made possible by an abandonment. */
  lemma {:induction false} SecondSaveOverlapsOrReopens(bank: Bank, questions: set<string>, events: seq<Event>,
          states: seq<State>, exam: string, s: nat, t: nat)
    requires Trace(bank, questions, events, states) && s < t
    requires SaveAt(events, states, s, exam) && SaveAt(events, states, t, exam)
    ensures (exists r: nat :: Overlaps(events, states, exam, r, s, t)) ||
            (exists a: nat, r: nat :: Reopens(events, states, exam, s, a, r, t))
  {
    var r := PendingWasRead(bank, questions, events, states, t, events[t].call);
    assert Completes(events, states, r, t, exam);
    if r < s {
      assert Overlaps(events, states, exam, r, s, t);
    } else {
      assert r != s;
      SavedIsCompleted(bank, questions, events, states, s, exam);
      var a := LeavingCompletedIsAbandoning(bank, questions, events, states, s + 1, r, exam);
      assert Reopens(events, states, exam, s, a, r, t);
    }
  }

  /**
    For every interleaving an exam is completed at most once exactly if no second completion reads it before
    the first is saved, and no abandonment after a save is followed by another completion.
   */
  lemma {:induction false} AtMostOneCompletionIff(bank: Bank, questions: set<string>, events: seq<Event>,
          states: seq<State>, exam: string)
    requires Trace(bank, questions, events, states)
    ensures CompletionsOf(states[|events|].completions, exam) <= 1 <==>
            && (forall r: nat, s: nat, t: nat :: !Overlaps(events, states, exam, r, s, t))
            && (forall s: nat, a: nat, r: nat, t: nat :: !Reopens(events, states, exam, s, a, r, t))
  {
    CountedSaves(bank, questions, events, states, |events|, exam);
    if CompletionsOf(states[|events|].completions, exam) >= 2 {
      var s: nat, t: nat :| s < t < |events| && SaveAt(events, states, s, exam) && SaveAt(events, states, t, exam);
      SecondSaveOverlapsOrReopens(bank, questions, events, states, exam, s, t);
    }
  }

  // ----- What the score counts -----------------------------------------------------------------------

  lemma StepCountsCorrect(bank: Bank, s: State, e: Event, exam: string)
    ensures Correct(Of(Step(bank, s, e).answers, exam)) ==
            Correct(Of(s.answers, exam)) + if AnswersCorrectly(bank, s, e, exam) then 1 else 0
  {
    var t := Step(bank, s, e);
    if t.answers != s.answers {
      OneAnswerAtMost(bank, s, e);
      var (mine, a) := (Of(s.answers, exam), t.answers[|s.answers|]);
      OfAppended(s.answers, a, exam);
      assert t.answers == s.answers + [a];
      if a.exam == exam { assert (mine + [a])[..|mine|] == mine; }
    }
  }

  function CorrectOf(s: State, exam: string): nat { Correct(Of(s.answers, exam)) }

  lemma {:induction false} CorrectGrows(bank: Bank, questions: set<string>, events: seq<Event>, states: seq<State>,
                                        lo: nat, hi: nat, exam: string)
    requires Trace(bank, questions, events, states) && lo <= hi <= |events|
    ensures CorrectOf(states[lo], exam) <= CorrectOf(states[hi], exam)
    ensures CorrectOf(states[lo], exam) == CorrectOf(states[hi], exam) <==>
              forall i: nat | lo <= i < hi :: !CorrectAnswerAt(bank, events, states, i, exam)
  {
    if lo < hi {
      CorrectGrows(bank, questions, events, states, lo, hi - 1, exam);
      NextCorrect(bank, questions, events, states, hi - 1, exam);
    }
  }

  lemma {:induction false} NextCorrect(bank: Bank, questions: set<string>, events: seq<Event>, states: seq<State>,
                                       i: nat, exam: string)
    requires Trace(bank, questions, events, states) && i < |events|
    ensures CorrectOf(states[i + 1], exam) ==
            CorrectOf(states[i], exam) + if CorrectAnswerAt(bank, events, states, i, exam) then 1 else 0
  {
    assert StepsTo(bank, events, states, i);
    StepCountsCorrect(bank, states[i], events[i], exam);
  }

  /** The last read before n of the call that saves a whole row. */
  ghost function ReadOf(events: seq<Event>, states: seq<State>, n: nat, call: nat, exam: string): (r: nat)
    ensures r <= n
  {
    if n == 0 then 0
    else if HoldAt(events, states, n - 1, exam) && events[n - 1].call == call then n - 1
    else ReadOf(events, states, n - 1, call, exam)
  }

  /**
    The completion whose score the row holds after n events: the last save, but a row saved by an abandonment or
    a breakdown is the one its read found.
   */
  ghost function Source(events: seq<Event>, states: seq<State>, n: nat, exam: string): (t: Option<nat>)
    ensures t.Some? ==> t.value < n && SaveAt(events, states, t.value, exam)
  {
    if n == 0 then None
    else if SaveAt(events, states, n - 1, exam) then Some(n - 1)
    else if RestoreAt(events, states, n - 1, exam)
    then Source(events, states, ReadOf(events, states, n - 1, events[n - 1].call, exam), exam)
    else Source(events, states, n - 1, exam)
  }

  /** What an abandonment or a breakdown has read is kept for its save. */
  lemma StepKeepsRow(bank: Bank, s: State, e: Event, call: nat)
    requires Allowed(s, e) && call in s.held
    ensures var t := Step(bank, s, e);
            call in t.held && t.held[call].exam == s.held[call].exam && t.held[call].row == s.held[call].row
  {
  }

  predicate SameScore(row: Exam, other: Exam) { row.score == other.score && row.percent == other.percent }

  lemma {:induction false} HeldWasRead(bank: Bank, questions: set<string>, events: seq<Event>, states: seq<State>,
                                       n: nat, call: nat)
    requires Trace(bank, questions, events, states) && n <= |events| && call in states[n].held
    ensures var h := states[n].held[call];
            var r := ReadOf(events, states, n, call, h.exam);
            && r < n && HoldAt(events, states, r, h.exam) && events[r].call == call
            && SameScore(h.row, states[r].exams[h.exam])
  {
    assert n > 0;
    assert StepsTo(bank, events, states, n - 1);
    if call in states[n - 1].held {
      HeldWasRead(bank, questions, events, states, n - 1, call);
      StepKeepsRow(bank, states[n - 1], events[n - 1], call);
    }
  }

  lemma StepKeepsScore(bank: Bank, s: State, e: Event, exam: string)
    requires exam in s.exams && Allowed(s, e) && !Saves(s, e, exam) && !Restores(s, e, exam)
    ensures var t := Step(bank, s, e); exam in t.exams && SameScore(t.exams[exam], s.exams[exam])
  {
  }

  lemma StepMakesNoScore(bank: Bank, s: State, e: Event, exam: string)
    requires exam !in s.exams && Allowed(s, e) && !Restores(s, e, exam)
    ensures var t := Step(bank, s, e); exam in t.exams ==> t.exams[exam].score.None?
  {
  }

  /** The row's score is that of its source: the number of correct answers the completion saved there had read. */
  ghost predicate FromSource(events: seq<Event>, states: seq<State>, n: nat, exam: string)
    requires n < |states|
  {
    var t := Source(events, states, n, exam);
    if exam !in states[n].exams then t.None?
    else if t.None? then states[n].exams[exam].score.None?
    else
      var s := states[t.value];
      states[n].exams[exam].score == Some(Correct(s.pending[events[t.value].call].snapshot))
  }

  lemma {:induction false} ScoreIsItsSources(bank: Bank, questions: set<string>, events: seq<Event>,
                                             states: seq<State>, n: nat, exam: string)
    requires Trace(bank, questions, events, states) && n <= |events|
    ensures FromSource(events, states, n, exam)
    decreases n
  {
    if n > 0 {
      assert StepsTo(bank, events, states, n - 1);
      var (s, e) := (states[n - 1], events[n - 1]);
      if SaveAt(events, states, n - 1, exam) {
        SavedIsCompleted(bank, questions, events, states, n - 1, exam);
      } else if RestoreAt(events, states, n - 1, exam) {
        HeldWasRead(bank, questions, events, states, n - 1, e.call);
        ScoreIsItsSources(bank, questions, events, states, ReadOf(events, states, n - 1, e.call, exam), exam);
      } else {
        ScoreIsItsSources(bank, questions, events, states, n - 1, exam);
        if exam in s.exams { StepKeepsScore(bank, s, e, exam); } else { StepMakesNoScore(bank, s, e, exam); }
      }
    }
  }

  /** A completion's answers are the exam's for good. */
  lemma {:induction false} AnswersStay(bank: Bank, questions: set<string>, events: seq<Event>, states: seq<State>,
                                       t: nat, n: nat, exam: string)
    requires Trace(bank, questions, events, states) && SaveAt(events, states, t, exam) && t < n <= |events|
    ensures var (s, e) := (states[t], states[n]);
            exam in e.exams && e.exams[exam].status != InProgress && Of(e.answers, exam) == Of(s.answers, exam)
  {
    if n == t + 1 {
      SavedIsCompleted(bank, questions, events, states, t, exam);
    } else {
      AnswersStay(bank, questions, events, states, t, n - 1, exam);
      TraceIsRun(bank, questions, events, states, n - 1);
      assert StepsTo(bank, events, states, n - 1);
      StepKeepsFrozen(bank, states[n - 1], events[n - 1], exam);
    }
  }

  /**
    For every interleaving: the score of an exam is the number of its correct answers exactly if no correct answer
    was submitted between the read and the save of the completion it comes from.
   */
  lemma {:induction false} ScoreIsExactIffNothingCorrectWasMissed(bank: Bank, questions: set<string>,
          events: seq<Event>, states: seq<State>, r: nat, t: nat, exam: string)
    requires Trace(bank, questions, events, states) && Completes(events, states, r, t, exam)
    requires Source(events, states, |events|, exam) == Some(t)
    ensures var s := states[|events|];
            && exam in s.exams && s.exams[exam].score.Some?
            && (s.exams[exam].score.value == Correct(Of(s.answers, exam)) <==>
                forall i: nat | r < i < t :: !CorrectAnswerAt(bank, events, states, i, exam))
  {
    ScoreIsItsSources(bank, questions, events, states, |events|, exam);
    AnswersStay(bank, questions, events, states, t, |events|, exam);
    PendingStays(bank, questions, events, states, r, t, exam);
    CorrectGrows(bank, questions, events, states, r, t, exam);
    assert !CorrectAnswerAt(bank, events, states, r, exam);
  }

  /** An exam has a score exactly if it has such a source, and that is the save of a completion that read before it. */
  lemma {:induction false} ScoredIffThereIsASource(bank: Bank, questions: set<string>, events: seq<Event>,
          states: seq<State>, exam: string)
    requires Trace(bank, questions, events, states) && exam in states[|events|].exams
    ensures var t := Source(events, states, |events|, exam);
            && (states[|events|].exams[exam].score.Some? <==> t.Some?)
            && (t.Some? ==> exists r: nat :: Completes(events, states, r, t.value, exam))
  {
    ScoreIsItsSources(bank, questions, events, states, |events|, exam);
    var t := Source(events, states, |events|, exam);
    if t.Some? {
      var r := PendingWasRead(bank, questions, events, states, t.value, events[t.value].call);
      assert Completes(events, states, r, t.value, exam);
    }
  }

  /** The row saved at w was read after t. */
  ghost predicate ReadAfter(events: seq<Event>, states: seq<State>, t: nat, w: nat, exam: string)
    requires w < |events|
  {
    events[w].WriteBack? && t < ReadOf(events, states, w, events[w].call, exam)
  }

  /** The last completion is the source unless a row that was read before it is saved after it. */
  lemma {:induction false} LastCompletionIsTheSource(bank: Bank, questions: set<string>, events: seq<Event>,
          states: seq<State>, t: nat, n: nat, exam: string)
    requires Trace(bank, questions, events, states) && t < n <= |events| && SaveAt(events, states, t, exam)
    requires forall u: nat | t < u < n :: !SaveAt(events, states, u, exam)
    requires forall w: nat | t < w < n && RestoreAt(events, states, w, exam) :: ReadAfter(events, states, t, w, exam)
    ensures Source(events, states, n, exam) == Some(t)
    decreases n
  {
    if n - 1 > t {
      assert !SaveAt(events, states, n - 1, exam);
      if RestoreAt(events, states, n - 1, exam) {
        assert ReadAfter(events, states, t, n - 1, exam);
        var r := ReadOf(events, states, n - 1, events[n - 1].call, exam);
        LastCompletionIsTheSource(bank, questions, events, states, t, r, exam);
      } else {
        LastCompletionIsTheSource(bank, questions, events, states, t, n - 1, exam);
      }
    }
  }
}
