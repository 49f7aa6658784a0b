/**
  What an audit row says in the end: which of the records that took effect on it was the last, and when
  that is the delivering send's own.
 */
module MailRecords {
  import opened Wrappers
  import opened Mail

  ghost predicate StepsTo(events: seq<Event>, states: seq<State>, i: nat)
    requires i < |events| && |states| == |events| + 1
  {
    states[i + 1] == Step(states[i], events[i])
  }

  /** The states a run goes through: states[i] is the one before the i-th event. */
  ghost predicate Trace(events: seq<Event>, states: seq<State>) {
    |states| == |events| + 1 && states[0] == Run([]) && forall i: nat | i < |events| :: StepsTo(events, states, i)
  }

  lemma {:induction false} TraceIsRun(events: seq<Event>, states: seq<State>, i: nat)
    requires Trace(events, states) && i <= |events|
    ensures Run(events[..i]) == states[i] && Inv(states[i])
  {
    if i > 0 {
      TraceIsRun(events, states, i - 1);
      assert StepsTo(events, states, i - 1);
      assert events[..i][..i - 1] == events[..i - 1];
    }
    ReachableInv(events[..i]);
  }

  /** Every run has its trace, which ends in the run's state. */
  lemma {:induction false} RunHasATrace(events: seq<Event>) returns (states: seq<State>)
    ensures Trace(events, states) && states[|events|] == Run(events)
  {
    if events == [] {
      states := [Run([])];
    } else {
      var n := |events| - 1;
      var before := RunHasATrace(events[..n]);
      states := before + [Run(events)];
      forall i: nat | i < |events| ensures StepsTo(events, states, i) {
        if i < n { assert StepsTo(events[..n], before, i); }
      }
    }
  }

  // ----- Records that take effect --------------------------------------------------------------------

  function StatusOf(table: seq<Row>, key: string): Option<Status> {
    if table == [] then None
    else if table[|table| - 1].key == Some(key) then Some(table[|table| - 1].status)
    else StatusOf(table[..|table| - 1], key)
  }

  /** The event writes an outcome into the row of this key. */
  predicate Records(s: State, e: Event, key: string) {
    && (e.RecordUpdate? || e.RecordInsert?) && Enabled(s, e) && !e.fault && s.calls[e.call].key == Some(key)
    && (e.RecordUpdate? <==> HasKey(s.table, key))
  }

  function Outcome(s: State, e: Event): Status
    requires (e.RecordUpdate? || e.RecordInsert?) && Enabled(s, e)
  {
    s.calls[e.call].pc.status
  }

  predicate Claims(s: State, e: Event, key: string) {
    e.Claim? && Enabled(s, e) && !e.fault && s.calls[e.call].key == Some(key) && !HasKey(s.table, key)
  }

  predicate RecordAt(events: seq<Event>, states: seq<State>, i: nat, key: string) {
    i < |states| && i < |events| && Records(states[i], events[i], key)
  }

  /** This send's record of 'sent' takes effect at position i. */
  predicate RecordsSentAt(events: seq<Event>, states: seq<State>, i: nat, key: string, call: nat) {
    RecordAt(events, states, i, key) && events[i].call == call && Outcome(states[i], events[i]).Sent?
  }

  lemma {:induction false} StatusOfRow(table: seq<Row>, key: string)
    ensures StatusOf(table, key).Some? <==> HasKey(table, key)
    ensures forall r :: r in table && r.key == Some(key) && UniqueKeys(table) ==> StatusOf(table, key) == Some(r.status)
  {
    if table != [] {
      var last := |table| - 1;
      StatusOfRow(table[..last], key);
      assert forall r :: r in table <==> r in table[..last] || r == table[last];
    }
  }

  lemma {:induction false} StatusUpdated(table: seq<Row>, other: string, status: Status, key: string)
    ensures StatusOf(Update(table, other, status), key) ==
            if other == key && HasKey(table, key) then Some(status) else StatusOf(table, key)
  {
    if table != [] {
      var last := |table| - 1;
      StatusUpdated(table[..last], other, status, key);
      assert Update(table, other, status)[..last] == Update(table[..last], other, status);
      assert forall r :: r in table <==> r in table[..last] || r == table[last];
    }
  }

  lemma StatusAppended(table: seq<Row>, r: Row, key: string)
    ensures StatusOf(table + [r], key) == if r.key == Some(key) then Some(r.status) else StatusOf(table, key)
  {
    assert (table + [r])[..|table|] == table;
  }

  /** What one event does to the row of a key. */
  lemma StepStatus(s: State, e: Event, key: string)
    ensures StatusOf(Step(s, e).table, key) ==
            if Records(s, e, key) then Some(Outcome(s, e))
            else if Claims(s, e, key) then Some(Pending) else StatusOf(s.table, key)
  {
    if Enabled(s, e) && !e.Begin? {
      var c := s.calls[e.call];
      match e
      case Claim(call, fault) => if c.key.Some? { StatusAppended(s.table, Row(c.key, Pending), key); }
      case RecordUpdate(call, fault) => if c.key.Some? { StatusUpdated(s.table, c.key.value, c.pc.status, key); }
      case RecordInsert(call, fault) => StatusAppended(s.table, Row(c.key, c.pc.status), key);
      case _ =>
    }
  }

  lemma {:induction false} KeepsRow(events: seq<Event>, states: seq<State>, m: nat, n: nat, key: string)
    requires Trace(events, states) && m <= n <= |events| && HasKey(states[m].table, key)
    ensures HasKey(states[n].table, key)
  {
    if m < n {
      KeepsRow(events, states, m, n - 1, key);
      assert StepsTo(events, states, n - 1);
      StepGrows(states[n - 1], events[n - 1]);
      KeepsKey(states[n - 1], states[n], key);
    }
  }

  lemma {:induction false} RecordLeavesARow(events: seq<Event>, states: seq<State>, i: nat, key: string)
    requires Trace(events, states) && RecordAt(events, states, i, key)
    ensures HasKey(states[i + 1].table, key)
  {
    assert StepsTo(events, states, i);
    StepStatus(states[i], events[i], key);
    StatusOfRow(states[i + 1].table, key);
  }

  /** Position i holds the last record for this key before n. */
  predicate LastRecord(events: seq<Event>, states: seq<State>, i: nat, n: nat, key: string) {
    i < n && RecordAt(events, states, i, key) && forall j: nat | i < j < n :: !RecordAt(events, states, j, key)
  }

  /** After the last record the row says what that record said. */
  lemma {:induction false} RowSaysItsLastRecord(events: seq<Event>, states: seq<State>, i: nat, n: nat, key: string)
    requires Trace(events, states) && n <= |events| && LastRecord(events, states, i, n, key)
    ensures StatusOf(states[n].table, key) == Some(Outcome(states[i], events[i]))
  {
    assert StepsTo(events, states, n - 1);
    StepStatus(states[n - 1], events[n - 1], key);
    if i < n - 1 {
      assert !RecordAt(events, states, n - 1, key);
      RowSaysItsLastRecord(events, states, i, n - 1, key);
      RecordLeavesARow(events, states, i, key);
      KeepsRow(events, states, i + 1, n - 1, key);
    }
  }

  /** A row that says sent has a last record, and that says sent. */
  lemma {:induction false} SentRowHasALastRecord(events: seq<Event>, states: seq<State>, n: nat, key: string)
    returns (i: nat)
    requires Trace(events, states) && n <= |events| && StatusOf(states[n].table, key) == Some(Sent)
    ensures LastRecord(events, states, i, n, key) && Outcome(states[i], events[i]).Sent?
  {
    assert n > 0;
    assert StepsTo(events, states, n - 1);
    StepStatus(states[n - 1], events[n - 1], key);
    if RecordAt(events, states, n - 1, key) {
      i := n - 1;
    } else {
      i := SentRowHasALastRecord(events, states, n - 1, key);
    }
  }

  // ----- Whose record it is ----------------------------------------------------------------------------

  lemma {:induction false} StaysAccepted(events: seq<Event>, states: seq<State>, m: nat, n: nat, call: nat)
    requires Trace(events, states) && m <= n <= |events| && call in states[m].accepted && call in states[m].calls
    ensures call in states[n].accepted && call in states[n].calls
            && states[n].calls[call].key == states[m].calls[call].key
  {
    if m < n {
      StaysAccepted(events, states, m, n - 1, call);
      assert StepsTo(events, states, n - 1);
      StepGrows(states[n - 1], events[n - 1]);
    }
  }

  lemma OneAcceptedCallPerKey(s: State, c: nat, d: nat, key: string)
    requires Inv(s) && c in s.accepted && d in s.accepted && c in s.calls && d in s.calls
    requires s.calls[c].key == Some(key) == s.calls[d].key
    ensures c == d
  {
    assert SoundCall(s, c) && SoundCall(s, d);
  }

  /** Only the send whose mail was accepted records 'sent' for its key. */
  lemma {:induction false} SentIsRecordedByTheDeliverer(events: seq<Event>, states: seq<State>, i: nat, key: string,
          call: nat)
    requires Trace(events, states) && RecordAt(events, states, i, key) && Outcome(states[i], events[i]).Sent?
    requires call in states[|events|].accepted && call in states[|events|].calls
             && states[|events|].calls[call].key == Some(key)
    ensures events[i].call == call
  {
    TraceIsRun(events, states, i);
    TraceIsRun(events, states, |events|);
    assert SoundCall(states[i], events[i].call);
    StaysAccepted(events, states, i, |events|, events[i].call);
    OneAcceptedCallPerKey(states[|events|], events[i].call, call, key);
  }

  /**
    For every interleaving: the row of a mail that the provider accepted says sent exactly if the delivering send's own
    record of it took effect, and no other record for the key, a skip or a failure, took effect after it.
   */
  lemma {:induction false} DeliveredRowSaysSentIff(events: seq<Event>, states: seq<State>, key: string, call: nat)
    requires Trace(events, states)
    requires call in states[|events|].accepted && call in states[|events|].calls
             && states[|events|].calls[call].key == Some(key)
    ensures HasKey(states[|events|].table, key)
    ensures StatusOf(states[|events|].table, key) == Some(Sent) <==>
              exists i: nat :: RecordsSentAt(events, states, i, key, call)
                && LastRecord(events, states, i, |events|, key)
  {
    var s := states[|events|];
    TraceIsRun(events, states, |events|);
    assert SoundCall(s, call) && SoundClaim(s, key);
    if StatusOf(s.table, key) == Some(Sent) {
      var i := SentRowHasALastRecord(events, states, |events|, key);
      SentIsRecordedByTheDeliverer(events, states, i, key, call);
      assert RecordsSentAt(events, states, i, key, call) && LastRecord(events, states, i, |events|, key);
    }
    if exists i: nat :: RecordsSentAt(events, states, i, key, call) && LastRecord(events, states, i, |events|, key) {
      var i: nat :| RecordsSentAt(events, states, i, key, call) && LastRecord(events, states, i, |events|, key);
      RowSaysItsLastRecord(events, states, i, |events|, key);
    }
  }
}
