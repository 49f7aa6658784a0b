/**
  Per-subject progress over runs: an update reads the rows of its subjects and later saves absolute
  values, with nothing that stops another update in between. The rows are compared with one tally of
  everything completed.
 */
module ProgressRuns {
  import opened Wrappers
  import Exams
  import opened Progress

  /** `at` is the position of the read among the events, `seenSaves` how many updates had been saved by then. */
  datatype Call = Call(update: Update, snapshot: map<Key, Row>, at: nat, seenSaves: nat, done: bool)

  /** A finished update, and the position of its save. */
  datatype Done = Done(call: nat, update: Update, at: nat)

  datatype State = State(rows: map<Key, Row>, calls: map<nat, Call>, finished: seq<Done>, now: nat)

  datatype Event = Read(call: nat, update: Update) | Save(call: nat)

  /** The save writes the row read plus the tally, whatever the row holds by now. */
  function Saved(rows: map<Key, Row>, snapshot: map<Key, Row>, tally: map<Key, Row>): map<Key, Row> {
    map k | k in rows.Keys + tally.Keys :: if k in tally then Added(RowOf(snapshot, k), tally[k]) else rows[k]
  }

  /** A row that was missing at the read and exists at the save is a unique violation, and nothing is saved. */
  predicate Refused(rows: map<Key, Row>, snapshot: map<Key, Row>, tally: map<Key, Row>) {
    exists k <- tally :: k !in snapshot && k in rows
  }

  function AfterSave(rows: map<Key, Row>, snapshot: map<Key, Row>, tally: map<Key, Row>): map<Key, Row> {
    if Refused(rows, snapshot, tally) then rows else Saved(rows, snapshot, tally)
  }

  predicate Allowed(s: State, e: Event) {
    if e.Read? then e.call !in s.calls else e.call in s.calls && !s.calls[e.call].done
  }

  function Step(s: State, e: Event): State {
    if !Allowed(s, e) then s.(now := s.now + 1)
    else
      match e
      case Read(call, update) =>
        s.(calls := s.calls[call := Call(update, s.rows, s.now, |s.finished|, false)], now := s.now + 1)
      case Save(call) =>
        var c := s.calls[call];
        s.(rows := AfterSave(s.rows, c.snapshot, Tally(c.update)), calls := s.calls[call := c.(done := true)],
           finished := s.finished + [Done(call, c.update, s.now)], now := s.now + 1)
  }

  function Run(events: seq<Event>): State {
    if events == [] then State(map[], map[], [], 0) else Step(Run(events[..|events| - 1]), events[|events| - 1])
  }

  predicate AllAllowed(events: seq<Event>) {
    events == [] ||
    (AllAllowed(events[..|events| - 1]) && Allowed(Run(events[..|events| - 1]), events[|events| - 1]))
  }

  /** Everything completed, in the order of the saves. */
  function Log(finished: seq<Done>): seq<Studied> {
    if finished == [] then [] else Log(finished[..|finished| - 1]) + Study(finished[|finished| - 1].update)
  }

  // ----- Overlapping updates ---------------------------------------------------------------------

  predicate Touches(u: Update, k: Key) { k in Tally(u) }

  ghost predicate ShareASubject(u: Update, v: Update) { exists k :: Touches(u, k) && Touches(v, k) }

  /**
    The update read at r has not been saved when another one of the same user and subject, read at q, is saved at i.
   */
  ghost predicate SavedAfterRead(events: seq<Event>, r: nat, q: nat, i: nat) {
    && r < i < |events| && q < i && events[r].Read? && events[q].Read?
    && events[i] == Save(events[q].call) && ShareASubject(events[q].update, events[r].update)
  }

  /** Between the read at r and the save at l of one update, another one of the same user and subject is saved. */
  ghost predicate Overlap(events: seq<Event>, r: nat, q: nat, i: nat, l: nat) {
    l < |events| && i < l && SavedAfterRead(events, r, q, i) && events[l] == Save(events[r].call)
  }

  ghost predicate Overlapping(events: seq<Event>) {
    exists r: nat, q: nat, i: nat, l: nat :: Overlap(events, r, q, i, l)
  }

  /** The same, as the state remembers it. */
  ghost predicate Since(s: State, c: Call, d: Done) { d.at > c.at && ShareASubject(d.update, c.update) }

  ghost predicate Collides(s: State, c: Call) { exists d <- s.finished :: Since(s, c, d) }

  ghost predicate Remembers(s: State, events: seq<Event>) {
    && s.now == |events|
    && (forall c <- s.calls :: s.calls[c].at < |events| && events[s.calls[c].at] == Read(c, s.calls[c].update))
    && (forall d <- s.finished :: d.at < |events| && events[d.at] == Save(d.call) && d.call in s.calls)
    && (forall d <- s.finished :: d.call in s.calls ==> s.calls[d.call].update == d.update && s.calls[d.call].at < d.at)
    && (forall i | 0 <= i < |events| && events[i].Read? :: events[i].call in s.calls && s.calls[events[i].call].at == i)
    && (forall i | 0 <= i < |events| && events[i].Save? :: exists d <- s.finished :: d.at == i)
  }

  /** Each position seen from a call: saves before its read come first in `finished`. */
  ghost predicate Ordered(s: State, c: Call) {
    && c.seenSaves <= |s.finished| && c.at < s.now
    && (forall p | 0 <= p < |s.finished| :: s.finished[p].at < s.now && (s.finished[p].at > c.at <==> p >= c.seenSaves))
  }

  ghost predicate AllOrdered(s: State) { forall c <- s.calls :: Ordered(s, s.calls[c]) }

  lemma StepKeepsOrdered(s: State, e: Event)
    requires AllOrdered(s) && Allowed(s, e) && forall d <- s.finished :: d.at < s.now
    ensures AllOrdered(Step(s, e)) && forall d <- Step(s, e).finished :: d.at < Step(s, e).now
  {
    var t := Step(s, e);
    forall c | c in t.calls ensures Ordered(t, t.calls[c]) {
      if c in s.calls { assert Ordered(s, s.calls[c]); }
    }
  }

  lemma {:induction false} StepRemembers(s: State, events: seq<Event>, e: Event)
    requires Remembers(s, events) && Allowed(s, e)
    ensures Remembers(Step(s, e), events + [e])
  {
    var (t, all) := (Step(s, e), events + [e]);
    forall i | 0 <= i < |all| && all[i].Save? ensures exists d <- t.finished :: d.at == i {
      if i < |events| {
        var d :| d in s.finished && d.at == i;
        assert d in t.finished;
      } else {
        assert t.finished[|s.finished|] in t.finished;
      }
    }
  }

  lemma {:induction false} RunRemembers(events: seq<Event>)
    requires AllAllowed(events)
    ensures Remembers(Run(events), events) && AllOrdered(Run(events))
    ensures forall d <- Run(events).finished :: d.at < Run(events).now
  {
    if events != [] {
      var before := events[..|events| - 1];
      assert events == before + [events[|events| - 1]];
      RunRemembers(before);
      StepRemembers(Run(before), before, events[|events| - 1]);
      StepKeepsOrdered(Run(before), events[|events| - 1]);
    }
  }

  lemma {:induction false} CollisionIsSavedAfterRead(s: State, events: seq<Event>, call: nat)
    returns (r: nat, q: nat, i: nat)
    requires Remembers(s, events) && call in s.calls && Collides(s, s.calls[call])
    ensures SavedAfterRead(events, r, q, i) && events[r].call == call
  {
    var d :| d in s.finished && Since(s, s.calls[call], d);
    r, q, i := s.calls[call].at, s.calls[d.call].at, d.at;
  }

  lemma {:induction false} SavedAfterReadCollides(s: State, events: seq<Event>, call: nat, r: nat, q: nat, i: nat)
    requires Remembers(s, events) && call in s.calls
    requires SavedAfterRead(events, r, q, i) && events[r].call == call
    ensures Collides(s, s.calls[call])
  {
    var d :| d in s.finished && d.at == i;
    assert events[q].call in s.calls && s.calls[events[q].call].at == q;
    assert Since(s, s.calls[call], d);
  }

  lemma OverlapGrows(before: seq<Event>, e: Event)
    requires Overlapping(before)
    ensures Overlapping(before + [e])
  {
    var r: nat, q: nat, i: nat, l: nat :| Overlap(before, r, q, i, l);
    assert Overlap(before + [e], r, q, i, l);
  }

  lemma OverlapNow(before: seq<Event>, e: Event, r: nat, q: nat, i: nat)
    requires e.Save? && SavedAfterRead(before, r, q, i) && before[r].call == e.call
    ensures Overlapping(before + [e])
  {
    assert Overlap(before + [e], r, q, i, |before|);
  }

  lemma OverlapWas(before: seq<Event>, e: Event) returns (r: nat, q: nat, i: nat)
    requires Overlapping(before + [e]) && !Overlapping(before)
    ensures e.Save? && SavedAfterRead(before, r, q, i) && before[r].call == e.call
  {
    var events := before + [e];
    var l: nat;
    r, q, i, l :| Overlap(events, r, q, i, l);
    if l < |before| { assert Overlap(before, r, q, i, l); }
  }

  // ----- Rows never exceed the sums --------------------------------------------------------------

  ghost predicate TopicBelow(row: Row, log: seq<Studied>, k: Key, t: string) {
    AccOf(row.topics, t).seen <= TopicTotal(log, k, t).seen
    && AccOf(row.topics, t).correct <= TopicTotal(log, k, t).correct
  }

  ghost predicate Below(row: Row, log: seq<Studied>, k: Key) {
    var total := SubjectTotal(log, k);
    && row.seen <= total.seen && row.correct <= total.correct && row.time <= total.time
    && forall t :: TopicBelow(row, log, k, t)
  }

  lemma BelowGrows(row: Row, log: seq<Studied>, more: seq<Studied>, k: Key)
    requires Below(row, log, k)
    ensures Below(row, log + more, k)
  {
    SubjectTotalIsAdditive(log, more, k);
    forall t ensures TopicBelow(row, log + more, k, t) {
      assert TopicBelow(row, log, k, t);
      TopicTotalIsAdditive(log, more, k, t);
    }
  }

  lemma AddedBelow(row: Row, log: seq<Studied>, extra: seq<Studied>, k: Key)
    requires Below(row, log, k)
    ensures Below(Added(row, RowOf(Tabulate(extra), k)), log + extra, k)
  {
    SubjectTotalIsAdditive(log, extra, k);
    TabulateSums(extra, k);
    var tally := RowOf(Tabulate(extra), k);
    forall t ensures TopicBelow(Added(row, tally), log + extra, k, t) {
      assert TopicBelow(row, log, k, t) && TopicMatches(tally.topics, extra, k, t);
      TopicTotalIsAdditive(log, extra, k, t);
    }
  }

  lemma {:induction false} LogConcat(some: seq<Done>, more: seq<Done>)
    ensures Log(some + more) == Log(some) + Log(more)
  {
    if more == [] {
      assert some + more == some;
    } else {
      var last := |more| - 1;
      LogConcat(some, more[..last]);
      assert (some + more)[..|some + more| - 1] == some + more[..last];
    }
  }

  lemma LogSplits(finished: seq<Done>, m: nat)
    requires m <= |finished|
    ensures Log(finished) == Log(finished[..m]) + Log(finished[m..])
  {
    assert finished == finished[..m] + finished[m..];
    LogConcat(finished[..m], finished[m..]);
  }

  lemma LogAppended(finished: seq<Done>, d: Done)
    ensures Log(finished + [d]) == Log(finished) + Study(d.update)
  {
    assert (finished + [d])[..|finished|] == finished;
  }

  ghost predicate SnapshotBelow(s: State, c: Call, k: Key)
    requires c.seenSaves <= |s.finished|
  {
    Below(RowOf(c.snapshot, k), Log(s.finished[..c.seenSaves]), k)
  }

  ghost predicate BelowInv(s: State, k: Key) {
    && Below(RowOf(s.rows, k), Log(s.finished), k)
    && forall c <- s.calls :: s.calls[c].seenSaves <= |s.finished| && SnapshotBelow(s, s.calls[c], k)
  }

  /** A save, or its refusal, leaves a row within the sums including the update's own. */
  lemma SavedBelow(rows: map<Key, Row>, finished: seq<Done>, c: Call, k: Key)
    requires c.seenSaves <= |finished| && Below(RowOf(rows, k), Log(finished), k)
    requires Below(RowOf(c.snapshot, k), Log(finished[..c.seenSaves]), k)
    ensures Below(RowOf(AfterSave(rows, c.snapshot, Tally(c.update)), k), Log(finished) + Study(c.update), k)
  {
    if !Refused(rows, c.snapshot, Tally(c.update)) && Touches(c.update, k) {
      LogSplits(finished, c.seenSaves);
      BelowGrows(RowOf(c.snapshot, k), Log(finished[..c.seenSaves]), Log(finished[c.seenSaves..]), k);
      AddedBelow(RowOf(c.snapshot, k), Log(finished), Study(c.update), k);
    } else {
      BelowGrows(RowOf(rows, k), Log(finished), Study(c.update), k);
    }
  }

  lemma SnapshotStaysBelow(s: State, t: State, c: Call, d: Call, k: Key)
    requires c.seenSaves <= |s.finished| && SnapshotBelow(s, c, k)
    requires s.finished <= t.finished && d.seenSaves == c.seenSaves && d.snapshot == c.snapshot
    ensures SnapshotBelow(t, d, k)
  {
    assert t.finished[..c.seenSaves] == s.finished[..c.seenSaves];
  }

  lemma SaveKeepsBelow(s: State, call: nat, k: Key)
    requires BelowInv(s, k) && Allowed(s, Save(call))
    ensures BelowInv(Step(s, Save(call)), k)
  {
    var (c, t) := (s.calls[call], Step(s, Save(call)));
    assert Below(RowOf(t.rows, k), Log(t.finished), k) by {
      assert SnapshotBelow(s, c, k);
      SavedBelow(s.rows, s.finished, c, k);
      LogAppended(s.finished, Done(call, c.update, s.now));
    }
    forall d | d in t.calls ensures t.calls[d].seenSaves <= |t.finished| && SnapshotBelow(t, t.calls[d], k) {
      SnapshotStaysBelow(s, t, s.calls[d], t.calls[d], k);
    }
  }

  lemma ReadKeepsBelow(s: State, call: nat, update: Update, k: Key)
    requires BelowInv(s, k) && Allowed(s, Read(call, update))
    ensures BelowInv(Step(s, Read(call, update)), k)
  {
    var t := Step(s, Read(call, update));
    assert s.finished[..|s.finished|] == s.finished;
    forall d | d in t.calls ensures t.calls[d].seenSaves <= |t.finished| && SnapshotBelow(t, t.calls[d], k) {
      if d != call { assert SnapshotBelow(s, s.calls[d], k); }
    }
  }

  lemma {:induction false} RunKeepsBelow(events: seq<Event>, k: Key)
    requires AllAllowed(events)
    ensures BelowInv(Run(events), k)
  {
    if events == [] {
      forall t ensures TopicBelow(EmptyRow(), [], k, t) { }
    } else {
      var (s, e) := (Run(events[..|events| - 1]), events[|events| - 1]);
      RunKeepsBelow(events[..|events| - 1], k);
      if e.Read? { ReadKeepsBelow(s, e.call, e.update, k); } else { SaveKeepsBelow(s, e.call, k); }
    }
  }

  /** For every interleaving no row, and no topic of it, ever exceeds the sums over everything completed. */
  lemma {:induction false} RowsNeverExceedTheSums(events: seq<Event>, k: Key)
    requires AllAllowed(events)
    ensures Below(RowOf(Run(events).rows, k), Log(Run(events).finished), k)
  {
    RunKeepsBelow(events, k);
  }

  // ----- And equal them exactly when no updates overlap ------------------------------------------

  ghost predicate TouchedSince(s: State, c: Call, k: Key) {
    exists d <- s.finished :: d.at > c.at && Touches(d.update, k)
  }

  predicate SameRow(rows: map<Key, Row>, others: map<Key, Row>, k: Key) {
    RowOf(rows, k) == RowOf(others, k) && (k in rows <==> k in others)
  }

  /** Until an update of a subject is saved, the subject's row is as it was read. */
  ghost predicate Steady(s: State, c: Call, k: Key) { TouchedSince(s, c, k) || SameRow(s.rows, c.snapshot, k) }

  ghost predicate SteadyInv(s: State, k: Key) { forall c <- s.calls :: Steady(s, s.calls[c], k) }

  lemma SaveTouches(s: State, call: nat, k: Key)
    requires Allowed(s, Save(call)) && !Touches(s.calls[call].update, k)
    ensures SameRow(Step(s, Save(call)).rows, s.rows, k)
  {
  }

  lemma StepKeepsSteady(s: State, e: Event, k: Key)
    requires SteadyInv(s, k) && AllOrdered(s) && Allowed(s, e)
    ensures SteadyInv(Step(s, e), k)
  {
    var t := Step(s, e);
    forall c | c in t.calls ensures Steady(t, t.calls[c], k) {
      if e.Save? {
        assert Steady(s, s.calls[c], k) && Ordered(s, s.calls[c]);
        if TouchedSince(s, s.calls[c], k) {
          var d :| d in s.finished && d.at > s.calls[c].at && Touches(d.update, k);
          assert d in t.finished;
        } else if Touches(s.calls[e.call].update, k) {
          assert t.finished[|s.finished|] in t.finished;
        } else {
          SaveTouches(s, e.call, k);
        }
      } else if c in s.calls {
        assert Steady(s, s.calls[c], k);
      }
    }
  }

  lemma {:induction false} RunKeepsSteady(events: seq<Event>, k: Key)
    requires AllAllowed(events)
    ensures SteadyInv(Run(events), k)
  {
    if events != [] {
      RunKeepsSteady(events[..|events| - 1], k);
      RunRemembers(events[..|events| - 1]);
      StepKeepsSteady(Run(events[..|events| - 1]), events[|events| - 1], k);
    }
  }

  ghost predicate Deficit(s: State, k: Key) { RowOf(s.rows, k).seen < SubjectTotal(Log(s.finished), k).seen }

  lemma TouchedIsSeen(u: Update, k: Key)
    ensures Touches(u, k) <==> SubjectTotal(Study(u), k).seen > 0
    ensures RowOf(Tally(u), k).seen == SubjectTotal(Study(u), k).seen
  {
    TabulateSums(Study(u), k);
  }

  lemma {:induction false} LogHolds(finished: seq<Done>, d: Done, k: Key)
    requires d in finished && Touches(d.update, k)
    ensures SubjectTotal(Log(finished), k).seen > 0
  {
    var last := |finished| - 1;
    SubjectTotalIsAdditive(Log(finished[..last]), Study(finished[last].update), k);
    if finished[last] == d {
      TouchedIsSeen(d.update, k);
    } else {
      assert finished == finished[..last] + [finished[last]];
      LogHolds(finished[..last], d, k);
    }
  }

  lemma TotalAfterSave(s: State, call: nat, k: Key)
    requires Allowed(s, Save(call))
    ensures SubjectTotal(Log(Step(s, Save(call)).finished), k).seen ==
            SubjectTotal(Log(s.finished), k).seen + RowOf(Tally(s.calls[call].update), k).seen
  {
    var c := s.calls[call];
    LogAppended(s.finished, Done(call, c.update, s.now));
    SubjectTotalIsAdditive(Log(s.finished), Study(c.update), k);
    TouchedIsSeen(c.update, k);
  }

  lemma RowAfterSave(s: State, call: nat, k: Key)
    requires Allowed(s, Save(call)) && Touches(s.calls[call].update, k)
    ensures var (c, row) := (s.calls[call], RowOf(Step(s, Save(call)).rows, k));
            row.seen == RowOf(s.rows, k).seen || row.seen == RowOf(c.snapshot, k).seen + RowOf(Tally(c.update), k).seen
    ensures RowOf(Tally(s.calls[call].update), k).seen > 0
  {
    TouchedIsSeen(s.calls[call].update, k);
  }

  /** What was saved since the read counts for something. */
  lemma MissedIsSeen(s: State, c: Call, k: Key)
    requires Ordered(s, c) && SnapshotBelow(s, c, k) && TouchedSince(s, c, k)
    ensures RowOf(c.snapshot, k).seen < SubjectTotal(Log(s.finished), k).seen
  {
    var m := c.seenSaves;
    LogSplits(s.finished, m);
    SubjectTotalIsAdditive(Log(s.finished[..m]), Log(s.finished[m..]), k);
    var d := LaterDone(s, c, k);
    LogHolds(s.finished[m..], d, k);
  }

  lemma LaterDone(s: State, c: Call, k: Key) returns (d: Done)
    requires Ordered(s, c) && TouchedSince(s, c, k)
    ensures d in s.finished[c.seenSaves..] && Touches(d.update, k)
  {
    d :| d in s.finished && d.at > c.at && Touches(d.update, k);
    var p :| 0 <= p < |s.finished| && s.finished[p] == d;
    assert s.finished[c.seenSaves..][p - c.seenSaves] == d;
  }

  /** Saving over a row that was saved since it was read, or being refused, loses answers of that subject. */
  lemma LateSaveLoses(s: State, call: nat, k: Key)
    requires BelowInv(s, k) && AllOrdered(s) && Allowed(s, Save(call))
    requires Touches(s.calls[call].update, k) && TouchedSince(s, s.calls[call], k)
    ensures Deficit(Step(s, Save(call)), k)
  {
    var c := s.calls[call];
    assert Ordered(s, c) && SnapshotBelow(s, c, k);
    MissedIsSeen(s, c, k);
    TotalAfterSave(s, call, k);
    RowAfterSave(s, call, k);
  }

  lemma TimelyDeficitStays(s: State, call: nat, k: Key)
    requires Allowed(s, Save(call)) && Deficit(s, k)
    requires Touches(s.calls[call].update, k) ==> SameRow(s.rows, s.calls[call].snapshot, k)
    ensures Deficit(Step(s, Save(call)), k)
  {
    TotalAfterSave(s, call, k);
    if Touches(s.calls[call].update, k) { RowAfterSave(s, call, k); } else { SaveTouches(s, call, k); }
  }

  /** What a subject has lost it never gets back. */
  lemma DeficitStays(s: State, e: Event, k: Key)
    requires BelowInv(s, k) && SteadyInv(s, k) && AllOrdered(s) && Allowed(s, e) && Deficit(s, k)
    ensures Deficit(Step(s, e), k)
  {
    if e.Save? {
      var c := s.calls[e.call];
      assert Steady(s, c, k);
      if Touches(c.update, k) && TouchedSince(s, c, k) {
        LateSaveLoses(s, e.call, k);
      } else {
        TimelyDeficitStays(s, e.call, k);
      }
    }
  }

  lemma TimelySaveIsExact(s: State, call: nat)
    requires (forall k :: SteadyInv(s, k)) && AllOrdered(s) && Allowed(s, Save(call))
    requires !Collides(s, s.calls[call]) && s.rows == Tabulate(Log(s.finished))
    ensures var t := Step(s, Save(call)); t.rows == Tabulate(Log(t.finished))
  {
    var c := s.calls[call];
    var (t, tally) := (Step(s, Save(call)), Tally(c.update));
    forall k | k in tally ensures SameRow(s.rows, c.snapshot, k) {
      assert Touches(c.update, k) && SteadyInv(s, k);
      assert Steady(s, c, k);
      forall d | d in s.finished && d.at > c.at ensures !Touches(d.update, k) { assert !Since(s, c, d); }
    }
    SavedIsMerge(s.rows, c.snapshot, tally);
    LogAppended(s.finished, Done(call, c.update, s.now));
    MergeIsOneBatch(Log(s.finished), Study(c.update));
  }

  lemma SavedIsMerge(rows: map<Key, Row>, snapshot: map<Key, Row>, tally: map<Key, Row>)
    requires forall k <- tally :: SameRow(rows, snapshot, k)
    ensures AfterSave(rows, snapshot, tally) == Merge(rows, tally)
  {
    forall k | k in rows && k !in tally ensures rows[k] == Added(rows[k], EmptyRow()) { AddingNothing(rows[k]); }
  }

  lemma {:induction false} ExactUnlessOverlapping(events: seq<Event>)
    requires AllAllowed(events) && !Overlapping(events)
    ensures Run(events).rows == Tabulate(Log(Run(events).finished))
  {
    if events != [] {
      var (before, e) := (events[..|events| - 1], events[|events| - 1]);
      var s := Run(before);
      assert before + [e] == events;
      if Overlapping(before) { OverlapGrows(before, e); }
      ExactUnlessOverlapping(before);
      if e.Save? {
        RunRemembers(before);
        if Collides(s, s.calls[e.call]) {
          var r, q, i := CollisionIsSavedAfterRead(s, before, e.call);
          OverlapNow(before, e, r, q, i);
        }
        forall k ensures SteadyInv(s, k) { RunKeepsSteady(before, k); }
        TimelySaveIsExact(s, e.call);
      }
    }
  }

  /** Overlapping updates of one user and subject lose answers, and they stay lost. */
  lemma {:induction false} OverlapLosesAnswers(events: seq<Event>) returns (k: Key)
    requires AllAllowed(events) && Overlapping(events)
    ensures Deficit(Run(events), k)
  {
    var (before, e) := (events[..|events| - 1], events[|events| - 1]);
    var s := Run(before);
    assert before + [e] == events;
    RunRemembers(before);
    if Overlapping(before) {
      k := OverlapLosesAnswers(before);
      RunKeepsBelow(before, k);
      RunKeepsSteady(before, k);
      DeficitStays(s, e, k);
    } else {
      var r, q, i := OverlapWas(before, e);
      SavedAfterReadCollides(s, before, e.call, r, q, i);
      k := CollidingSubject(s, s.calls[e.call]);
      RunKeepsBelow(before, k);
      LateSaveLoses(s, e.call, k);
    }
  }

  lemma CollidingSubject(s: State, c: Call) returns (k: Key)
    requires Collides(s, c)
    ensures Touches(c.update, k) && TouchedSince(s, c, k)
  {
    var d :| d in s.finished && Since(s, c, d);
    k :| Touches(d.update, k) && Touches(c.update, k);
  }

  /**
    For every interleaving: the rows are one pass over everything completed exactly if between the read
    and the save of an update no other update of the same user and subject was saved.
   */
  lemma {:induction false} IncrementalIsBatchIff(events: seq<Event>)
    requires AllAllowed(events)
    ensures Run(events).rows == Tabulate(Log(Run(events).finished)) <==> !Overlapping(events)
  {
    if Overlapping(events) {
      var k := OverlapLosesAnswers(events);
      TabulateSums(Log(Run(events).finished), k);
    } else {
      ExactUnlessOverlapping(events);
    }
  }

  /** Rows that are one pass over everything completed hold the sums over it, for every subject and topic. */
  lemma RowsAreSums(s: State, k: Key)
    requires s.rows == Tabulate(Log(s.finished))
    ensures RowMatches(s.rows, Log(s.finished), k)
  {
    TabulateSums(Log(s.finished), k);
  }

  // ----- Topics within their subject, overlaps or not --------------------------------------------

  ghost predicate WithinInv(s: State, k: Key, topics: seq<string>) {
    && Within(RowOf(s.rows, k), topics)
    && forall c <- s.calls :: Within(RowOf(s.calls[c].snapshot, k), topics)
  }

  lemma StepKeepsWithin(s: State, e: Event, k: Key, topics: seq<string>)
    requires WithinInv(s, k, topics) && Allowed(s, e) && Distinct(topics)
    ensures WithinInv(Step(s, e), k, topics)
  {
    if e.Save? {
      var c := s.calls[e.call];
      assert Within(RowOf(c.snapshot, k), topics);
      TallyWithin(Study(c.update), k, topics);
      AddedWithin(RowOf(c.snapshot, k), RowOf(Tally(c.update), k), topics);
      if !Touches(c.update, k) { SaveTouches(s, e.call, k); }
    }
  }

  lemma NothingIsWithin(topics: seq<string>)
    requires Distinct(topics)
    ensures Within(EmptyRow(), topics)
  {
    TallyWithin([], Key("", ""), topics);
  }

  /** For every interleaving correct never exceeds seen, and different topics together never exceed their subject. */
  lemma {:induction false} TopicsStayWithinSubjects(events: seq<Event>, k: Key, topics: seq<string>)
    requires AllAllowed(events) && Distinct(topics)
    ensures WithinInv(Run(events), k, topics)
  {
    if events == [] {
      NothingIsWithin(topics);
    } else {
      TopicsStayWithinSubjects(events[..|events| - 1], k, topics);
      StepKeepsWithin(Run(events[..|events| - 1]), events[|events| - 1], k, topics);
    }
  }

  // ----- What is completed is what the exams completed ---------------------------------------------

  /** Every update is for one saved completion of an exam: its user and the answers its completion read. */
  ghost predicate Tied(events: seq<Event>, completions: seq<Exams.Completion>) {
    forall e <- events :: e.Read? ==>
      e.call < |completions| && e.update.user == completions[e.call].user
      && e.update.answers == completions[e.call].snapshot
  }

  ghost predicate DoneOnce(finished: seq<Done>) {
    forall i, j | 0 <= i < j < |finished| :: finished[i].call != finished[j].call
  }

  lemma {:induction false} SavedOnce(events: seq<Event>)
    requires AllAllowed(events)
    ensures DoneOnce(Run(events).finished)
    ensures forall d <- Run(events).finished :: d.call in Run(events).calls && Run(events).calls[d.call].done
  {
    if events != [] { SavedOnce(events[..|events| - 1]); }
  }

  /**
    Everything that counts is a completion of an exam, counted once: its own user, and answers that are
    answers to that exam's questions, one each.
   */
  lemma {:induction false} EverythingWasCompleted(bank: Exams.Bank, questions: set<string>,
          examEvents: seq<Exams.Event>, events: seq<Event>, d: Done)
    requires Exams.AllAllowed(bank, questions, examEvents) && AllAllowed(events)
    requires Tied(events, Exams.Run(bank, questions, examEvents).completions) && d in Run(events).finished
    ensures DoneOnce(Run(events).finished)
    ensures var s := Exams.Run(bank, questions, examEvents);
            && d.call < |s.completions| && s.completions[d.call].exam in s.exams
            && d.update.user == s.exams[s.completions[d.call].exam].user
            && d.update.answers <= Exams.Of(s.answers, s.completions[d.call].exam)
            && Exams.Questions(d.update.answers) <= Exams.Ids(s.exams[s.completions[d.call].exam].questionIds)
  {
    var s := Exams.Run(bank, questions, examEvents);
    SavedOnce(events);
    RunRemembers(events);
    assert events[Run(events).calls[d.call].at] in events;
    var c := s.completions[d.call];
    Exams.ReachableInv(bank, questions, examEvents);
    assert Exams.SoundCompletion(s.exams, s.answers, c);
    Exams.AnswersFit(s, c.exam);
    var mine := Exams.Of(s.answers, c.exam);
    forall a | a in d.update.answers ensures a.question in Exams.Questions(mine) { assert a in mine; }
  }

  // ----- Two runs that lose answers -----------------------------------------------------------------

  lemma {:induction false} Appended(events: seq<Event>, e: Event)
    requires AllAllowed(events) && Allowed(Run(events), e)
    ensures AllAllowed(events + [e]) && Run(events + [e]) == Step(Run(events), e)
  {
    var more := events + [e];
    assert more[..|more| - 1] == events && more[|more| - 1] == e;
    assert Run(more) == Step(Run(more[..|more| - 1]), more[|more| - 1]);
  }

  function OneAnswer(user: string, subject: string, q: string): Update {
    Update(user, [Exams.Answer("", q, true, None)], map[q := Info(subject, None)])
  }

  lemma TallyOfOne(user: string, subject: string, q: string)
    ensures Study(OneAnswer(user, subject, q)) == [Studied(Key(user, subject), None, true, 0)]
    ensures Tally(OneAnswer(user, subject, q)) == map[Key(user, subject) := Row(1, 1, 0, map[])]
  {
    var u := OneAnswer(user, subject, q);
    var x := Studied(Key(user, subject), None, true, 0);
    assert u.answers[..|u.answers| - 1] == [];
    assert Tagged(user, u.answers[..|u.answers| - 1], u.questions) == [];
    assert Study(u) == [x];
    assert [x][..0] == [];
    assert Tabulate([x][..0]) == map[];
  }

  lemma SaveOfOne(rows: map<Key, Row>, snapshot: map<Key, Row>, k: Key)
    ensures var after := AfterSave(rows, snapshot, map[k := Row(1, 1, 0, map[])]);
            && RowOf(after, k).seen ==
                 (if k !in snapshot && k in rows then RowOf(rows, k).seen else RowOf(snapshot, k).seen + 1)
            && k in after
  {
  }

  /** What this many one-answer updates should come to, and what the row has. */
  ghost predicate Holds(events: seq<Event>, k: Key, saves: nat, seen: nat) {
    && AllAllowed(events) && |Run(events).finished| == saves && SubjectTotal(Log(Run(events).finished), k).seen == saves
    && RowOf(Run(events).rows, k).seen == seen && (k in Run(events).rows <==> seen > 0)
  }

  lemma {:induction false} ThenRead(events: seq<Event>, k: Key, saves: nat, seen: nat, call: nat, q: string)
    returns (more: seq<Event>)
    requires Holds(events, k, saves, seen) && call !in Run(events).calls
    ensures more == events + [Read(call, OneAnswer(k.user, k.subject, q))] && Holds(more, k, saves, seen)
    ensures Run(more).calls ==
              Run(events).calls[call := Call(OneAnswer(k.user, k.subject, q), Run(events).rows, Run(events).now, saves,
                                             false)]
  {
    more := events + [Read(call, OneAnswer(k.user, k.subject, q))];
    Appended(events, Read(call, OneAnswer(k.user, k.subject, q)));
  }

  lemma {:induction false} ThenSave(events: seq<Event>, k: Key, saves: nat, seen: nat, call: nat, q: string)
    returns (more: seq<Event>)
    requires Holds(events, k, saves, seen) && Allowed(Run(events), Save(call))
    requires Run(events).calls[call].update == OneAnswer(k.user, k.subject, q)
    ensures more == events + [Save(call)]
    ensures var (c, s) := (Run(events).calls[call], Run(events));
            && Holds(more, k, saves + 1,
                     if k !in c.snapshot && k in s.rows then seen else RowOf(c.snapshot, k).seen + 1)
            && Run(more).calls == s.calls[call := c.(done := true)]
  {
    more := events + [Save(call)];
    Appended(events, Save(call));
    TallyOfOne(k.user, k.subject, q);
    SaveOfOne(Run(events).rows, Run(events).calls[call].snapshot, k);
    TotalAfterSave(Run(events), call, k);
  }

  /** A lost update: of three completions the last two overlap, and the row ends with two answers. */
  lemma LostUpdate(k: Key, q: string) returns (events: seq<Event>)
    ensures AllAllowed(events)
    ensures RowOf(Run(events).rows, k).seen == 2 && SubjectTotal(Log(Run(events).finished), k).seen == 3
  {
    events := ThenRead([], k, 0, 0, 0, q);
    events := ThenSave(events, k, 0, 0, 0, q);
    events := ThenRead(events, k, 1, 1, 1, q);
    events := ThenRead(events, k, 1, 1, 2, q);
    events := ThenSave(events, k, 1, 1, 1, q);
    events := ThenSave(events, k, 2, 2, 2, q);
  }

  /** A refused insert: two completions of a subject new to the user overlap, and the second is not counted at all. */
  lemma RefusedInsert(k: Key, q: string) returns (events: seq<Event>)
    ensures AllAllowed(events)
    ensures RowOf(Run(events).rows, k).seen == 1 && SubjectTotal(Log(Run(events).finished), k).seen == 2
  {
    events := ThenRead([], k, 0, 0, 0, q);
    events := ThenRead(events, k, 0, 0, 1, q);
    events := ThenSave(events, k, 0, 0, 0, q);
    events := ThenSave(events, k, 1, 1, 1, q);
  }

  // ----- The service -------------------------------------------------------------------------------

  function Buckets(existing: map<Key, Row>, bySubject: map<Key, Row>): map<Key, Row> {
    map k | k in bySubject :: Added(RowOf(existing, k), bySubject[k])
  }

  ghost function SavedAcc(current: map<string, Acc>, extra: map<string, Acc>, done: set<string>, t: string): Acc {
    var (a, b) := (AccOf(current, t), AccOf(extra, t));
    if t in done then Acc(a.seen + b.seen, a.correct + b.correct) else a
  }

  lemma SavedIsAdded(current: map<string, Acc>, extra: map<string, Acc>, done: set<string>, merged: map<string, Acc>)
    requires forall t :: t in extra <==> t in done
    requires forall t :: t in merged <==> t in current || t in done
    requires forall t :: AccOf(merged, t) == SavedAcc(current, extra, done, t)
    ensures merged == AddedTopics(current, extra)
  {
    forall t | t in merged ensures merged[t] == AddedTopics(current, extra)[t] {
      assert AccOf(merged, t) == SavedAcc(current, extra, done, t);
    }
  }

  lemma TabulateNext(user: string, answers: seq<Exams.Answer>, i: nat, questions: map<string, Info>)
    requires i < |answers|
    ensures var a := answers[i];
            var before := Tabulate(Tagged(user, answers[..i], questions));
            var after := Tabulate(Tagged(user, answers[..i + 1], questions));
            if a.question !in questions then after == before
            else
              var k := Key(user, questions[a.question].subject);
              var x := Studied(k, questions[a.question].topic, a.correct, if a.timeMs.Some? then a.timeMs.value else 0);
              after == before[k := Bumped(RowOf(before, k), x)]
  {
    var before := Tagged(user, answers[..i], questions);
    assert answers[..i + 1][..i] == answers[..i];
    var after := Tagged(user, answers[..i + 1], questions);
    if answers[i].question in questions { assert after[..|before|] == before; }
  }

  class ProgressService {
    var rows: map<Key, Row>

    constructor ()
      ensures rows == map[]
    {
      rows := map[];
    }

    /** The two halves with nothing in between: the tally is added to the rows. */
    method UpdateSubjectProgress(user: string, answers: seq<Exams.Answer>, questions: map<string, Info>)
      modifies this
      ensures rows == Merge(old(rows), Tabulate(Tagged(user, answers, questions)))
    {
      var bySubject := Collect(user, answers, questions);
      if bySubject.Keys == {} {
        assert Merge(rows, map[]) == rows by {
          forall k | k in rows ensures rows[k] == Added(rows[k], EmptyRow()) { AddingNothing(rows[k]); }
        }
        return;
      }
      var existing := Load(bySubject);
      var toSave := Accumulate(existing, bySubject);
      var ok := SaveAll(existing, bySubject, toSave);
      assert forall k <- bySubject :: SameRow(old(rows), existing, k);
      SavedIsMerge(old(rows), existing, bySubject);
    }

    /** Tallies the answers by subject and topic. */
    static method Collect(user: string, answers: seq<Exams.Answer>, questions: map<string, Info>)
      returns (bySubject: map<Key, Row>)
      ensures bySubject == Tabulate(Tagged(user, answers, questions))
    {
      bySubject := map[];
      for i := 0 to |answers|
        invariant bySubject == Tabulate(Tagged(user, answers[..i], questions))
      {
        var a := answers[i];
        TabulateNext(user, answers, i, questions);
        if a.question in questions {
          var info := questions[a.question];
          var k := Key(user, info.subject);
          var bucket := RowOf(bySubject, k);
          var time := if a.timeMs.Some? then a.timeMs.value else 0;
          bucket := bucket.(seen := bucket.seen + 1, correct := bucket.correct + if a.correct then 1 else 0,
                            time := bucket.time + time);
          if info.topic.Some? {
            var tacc := AccOf(bucket.topics, info.topic.value);
            tacc := tacc.(seen := tacc.seen + 1, correct := tacc.correct + if a.correct then 1 else 0);
            bucket := bucket.(topics := bucket.topics[info.topic.value := tacc]);
          }
          bySubject := bySubject[k := bucket];
        }
      }
      assert answers[..|answers|] == answers;
    }

    /** The rows of the touched subjects, in one query. */
    method Load(bySubject: map<Key, Row>) returns (existing: map<Key, Row>)
      ensures existing == map k | k in bySubject && k in rows :: rows[k]
    {
      existing := map k | k in bySubject && k in rows :: rows[k];
    }

    /** Adds each bucket to the row that was read. */
    static method Accumulate(existing: map<Key, Row>, bySubject: map<Key, Row>) returns (toSave: map<Key, Row>)
      ensures toSave == Buckets(existing, bySubject)
    {
      toSave := map[];
      var todo := bySubject.Keys;
      while todo != {}
        invariant todo <= bySubject.Keys
        invariant forall k :: k in toSave <==> k in bySubject && k !in todo
        invariant forall k <- toSave :: toSave[k] == Added(RowOf(existing, k), bySubject[k])
        decreases |todo|
      {
        var k :| k in todo;
        var progress, bucket := RowOf(existing, k), bySubject[k];
        var topics := MergeTopics(progress.topics, bucket.topics);
        toSave := toSave[k := Row(progress.seen + bucket.seen, progress.correct + bucket.correct,
                                  progress.time + bucket.time, topics)];
        todo := todo - {k};
      }
    }

    /** Writes all of them, or none if a row taken to be new has appeared. */
    method SaveAll(existing: map<Key, Row>, bySubject: map<Key, Row>, toSave: map<Key, Row>) returns (ok: bool)
      requires toSave == Buckets(existing, bySubject)
      modifies this
      ensures rows == AfterSave(old(rows), existing, bySubject)
      ensures ok <==> !Refused(old(rows), existing, bySubject)
    {
      ok := !exists k <- toSave :: k !in existing && k in rows;
      if ok { rows := rows + toSave; }
    }

    static method MergeTopics(current: map<string, Acc>, extra: map<string, Acc>) returns (merged: map<string, Acc>)
      ensures merged == AddedTopics(current, extra)
    {
      merged := current;
      var todo := extra.Keys;
      ghost var done: set<string> := {};
      while todo != {}
        invariant forall t :: t in extra <==> t in done || t in todo
        invariant forall t <- todo :: t !in done
        invariant forall t :: t in merged <==> t in current || t in done
        invariant forall t :: AccOf(merged, t) == SavedAcc(current, extra, done, t)
        decreases |todo|
      {
        var t :| t in todo;
        ghost var was := merged;
        var acc := AccOf(merged, t);
        merged := merged[t := Acc(acc.seen + extra[t].seen, acc.correct + extra[t].correct)];
        forall u ensures AccOf(merged, u) == SavedAcc(current, extra, done + {t}, u) {
          assert AccOf(was, u) == SavedAcc(current, extra, done, u);
        }
        todo, done := todo - {t}, done + {t};
      }
      SavedIsAdded(current, extra, done, merged);
    }
  }
}
