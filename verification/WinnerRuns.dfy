/**
  Several selections at once: each counts the winners of its round before it inserts any, so two runs that
  both count before either inserts both select winners.
 */
module WinnerRuns {
  import opened Winners

  /** A winner row by the run that inserted it. */
  datatype Mark = Mark(run: nat, round: Round)

  datatype State = State(rows: seq<Mark>, passed: map<nat, Round>)

  datatype Event = Count(run: nat, round: Round) | Insert(run: nat)

  predicate NoRows(rows: seq<Mark>, round: Round) { forall m <- rows :: m.round != round }

  function Step(s: State, e: Event): State {
    match e
    case Count(run, round) =>
      if run !in s.passed && NoRows(s.rows, round) then s.(passed := s.passed[run := round]) else s
    case Insert(run) => if run in s.passed then s.(rows := s.rows + [Mark(run, s.passed[run])]) else s
  }

  /** A run on its own selects winners exactly if its round has none. */
  lemma SelectsIffNoRows(s: State, run: nat, round: Round)
    requires run !in s.passed
    ensures var t := Step(Step(s, Count(run, round)), Insert(run));
            t.rows == if exists m <- s.rows :: m.round == round then s.rows else s.rows + [Mark(run, round)]
  {
    if exists m <- s.rows :: m.round == round {
      assert !NoRows(s.rows, round);
    } else {
      assert NoRows(s.rows, round);
    }
  }

  /** Two runs that both count before either inserts both select. */
  lemma CrossingRunsBothSelect(s: State, a: nat, b: nat, round: Round)
    requires a != b && a !in s.passed && b !in s.passed && NoRows(s.rows, round)
    ensures var t := Step(Step(Step(Step(s, Count(a, round)), Count(b, round)), Insert(a)), Insert(b));
            t.rows == s.rows + [Mark(a, round), Mark(b, round)]
  {
  }

  ghost predicate StepsTo(events: seq<Event>, states: seq<State>, i: nat)
    requires i < |events| && |states| == |events| + 1
  {
    states[i + 1] == Step(states[i], events[i])
  }

  /** The states a run of events goes through: states[i] is the one before the i-th. */
  ghost predicate Trace(events: seq<Event>, states: seq<State>) {
    |states| == |events| + 1 && states[0] == State([], map[])
    && forall i: nat | i < |events| :: StepsTo(events, states, i)
  }

  /** Every sequence of events has its trace. */
  lemma {:induction false} RunHasATrace(events: seq<Event>) returns (states: seq<State>)
    ensures Trace(events, states)
  {
    if events == [] {
      states := [State([], map[])];
    } else {
      var n := |events| - 1;
      var before := RunHasATrace(events[..n]);
      states := before + [Step(before[n], events[n])];
      forall i: nat | i < |events| ensures StepsTo(events, states, i) {
        if i < n { assert StepsTo(events[..n], before, i); }
      }
    }
  }

  predicate PassAt(events: seq<Event>, states: seq<State>, i: nat, run: nat, round: Round) {
    i < |states| && i < |events| && events[i] == Count(run, round) && run !in states[i].passed
    && NoRows(states[i].rows, round)
  }

  predicate InsertAt(events: seq<Event>, states: seq<State>, i: nat, run: nat, round: Round) {
    i < |states| && i < |events| && events[i] == Insert(run) && run in states[i].passed
    && states[i].passed[run] == round
  }

  lemma {:induction false} RowsWereInserted(events: seq<Event>, states: seq<State>, n: nat, run: nat, round: Round)
    requires Trace(events, states) && n <= |events|
    ensures Mark(run, round) in states[n].rows <==> exists i: nat | i < n :: InsertAt(events, states, i, run, round)
  {
    if n > 0 {
      RowsWereInserted(events, states, n - 1, run, round);
      assert StepsTo(events, states, n - 1);
      if InsertAt(events, states, n - 1, run, round) { assert states[n].rows[|states[n - 1].rows|] in states[n].rows; }
    }
  }

  lemma {:induction false} InserterPassed(events: seq<Event>, states: seq<State>, n: nat, run: nat) returns (c: nat)
    requires Trace(events, states) && n <= |events| && run in states[n].passed
    ensures c < n && PassAt(events, states, c, run, states[n].passed[run])
  {
    assert n > 0;
    assert StepsTo(events, states, n - 1);
    if run in states[n - 1].passed {
      c := InserterPassed(events, states, n - 1, run);
    } else {
      c := n - 1;
    }
  }

  lemma {:induction false} NothingInsertedBeforeAPass(events: seq<Event>, states: seq<State>, c: nat, i: nat, run: nat,
          other: nat, round: Round)
    requires Trace(events, states) && PassAt(events, states, c, run, round) && InsertAt(events, states, i, other, round)
    ensures c < i
  {
    RowsWereInserted(events, states, c, other, round);
  }

  /** A second run passes the count after the first has passed it and before the first inserts; both insert. */
  predicate Cross(events: seq<Event>, states: seq<State>, round: Round, a: nat, b: nat, ca: nat, cb: nat, ia: nat,
                  ib: nat) {
    && a != b && ca < cb < ia && cb < ib
    && PassAt(events, states, ca, a, round) && PassAt(events, states, cb, b, round)
    && InsertAt(events, states, ia, a, round) && InsertAt(events, states, ib, b, round)
  }

  ghost predicate TwoRunsSelect(s: State, round: Round) {
    exists a: nat, b: nat | a != b :: Mark(a, round) in s.rows && Mark(b, round) in s.rows
  }

  /**
    For every interleaving two runs select winners for one round exactly if one passes the count before the other
    inserts.
   */
  lemma {:induction false} TwoRunsSelectIff(events: seq<Event>, states: seq<State>, round: Round)
    requires Trace(events, states)
    ensures TwoRunsSelect(states[|events|], round) <==>
              exists a: nat, b: nat, ca: nat, cb: nat, ia: nat, ib: nat ::
                Cross(events, states, round, a, b, ca, cb, ia, ib)
  {
    var n := |events|;
    if TwoRunsSelect(states[n], round) {
      var a: nat, b: nat :| a != b && Mark(a, round) in states[n].rows && Mark(b, round) in states[n].rows;
      RowsWereInserted(events, states, n, a, round);
      RowsWereInserted(events, states, n, b, round);
      var ia: nat :| ia < n && InsertAt(events, states, ia, a, round);
      var ib: nat :| ib < n && InsertAt(events, states, ib, b, round);
      var ca := InserterPassed(events, states, ia, a);
      var cb := InserterPassed(events, states, ib, b);
      NothingInsertedBeforeAPass(events, states, ca, ib, a, b, round);
      NothingInsertedBeforeAPass(events, states, cb, ia, b, a, round);
      if ca < cb {
        assert Cross(events, states, round, a, b, ca, cb, ia, ib);
      } else {
        assert Cross(events, states, round, b, a, cb, ca, ib, ia);
      }
    }
    if exists a: nat, b: nat, ca: nat, cb: nat, ia: nat, ib: nat :: Cross(events, states, round, a, b, ca, cb, ia, ib) {
      var a: nat, b: nat, ca: nat, cb: nat, ia: nat, ib: nat :| Cross(events, states, round, a, b, ca, cb, ia, ib);
      RowsWereInserted(events, states, n, a, round);
      RowsWereInserted(events, states, n, b, round);
    }
  }
}
