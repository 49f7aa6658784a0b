/**
  Per-subject progress, the tables: a completion's answers are tallied by subject and topic, and tallies
  are added. A tally is determined by the sums it holds.
 */
module Progress {
  import opened Wrappers
  import opened Exams

  datatype Key = Key(user: string, subject: string)

  datatype Acc = Acc(seen: nat, correct: nat)

  datatype Row = Row(seen: nat, correct: nat, time: nat, topics: map<string, Acc>)

  /** What the questions table says about a question. */
  datatype Info = Info(subject: string, topic: Option<string>)

  /** An answer as it counts towards progress. */
  datatype Studied = Studied(key: Key, topic: Option<string>, correct: bool, time: nat)

  /** A completion's update: its answers, and the questions found for the exam at that time. */
  datatype Update = Update(user: string, answers: seq<Answer>, questions: map<string, Info>)

  /** Answers whose question was not found are skipped; a missing time counts as 0. */
  function Tagged(user: string, answers: seq<Answer>, questions: map<string, Info>): seq<Studied> {
    if answers == [] then []
    else
      var before := Tagged(user, answers[..|answers| - 1], questions);
      var a := answers[|answers| - 1];
      if a.question !in questions then before
      else before + [Studied(Key(user, questions[a.question].subject), questions[a.question].topic, a.correct,
                             if a.timeMs.Some? then a.timeMs.value else 0)]
  }

  function EmptyRow(): Row { Row(0, 0, 0, map[]) }

  function RowOf(rows: map<Key, Row>, k: Key): Row { if k in rows then rows[k] else EmptyRow() }

  function AccOf(topics: map<string, Acc>, t: string): Acc { if t in topics then topics[t] else Acc(0, 0) }

  function One(b: bool): nat { if b then 1 else 0 }

  // ----- One pass over the answers -----------------------------------------------------------

  function WithTopic(topics: map<string, Acc>, t: Option<string>, correct: bool): map<string, Acc> {
    if t.None? then topics
    else topics[t.value := Acc(AccOf(topics, t.value).seen + 1, AccOf(topics, t.value).correct + One(correct))]
  }

  function Bumped(row: Row, x: Studied): Row {
    Row(row.seen + 1, row.correct + One(x.correct), row.time + x.time, WithTopic(row.topics, x.topic, x.correct))
  }

  function Tabulate(log: seq<Studied>): map<Key, Row> {
    if log == [] then map[]
    else
      var before := Tabulate(log[..|log| - 1]);
      before[log[|log| - 1].key := Bumped(RowOf(before, log[|log| - 1].key), log[|log| - 1])]
  }

  function AddedTopics(a: map<string, Acc>, b: map<string, Acc>): map<string, Acc> {
    map t | t in a.Keys + b.Keys :: Acc(AccOf(a, t).seen + AccOf(b, t).seen, AccOf(a, t).correct + AccOf(b, t).correct)
  }

  function Added(a: Row, b: Row): Row {
    Row(a.seen + b.seen, a.correct + b.correct, a.time + b.time, AddedTopics(a.topics, b.topics))
  }

  function Merge(rows: map<Key, Row>, more: map<Key, Row>): map<Key, Row> {
    map k | k in rows.Keys + more.Keys :: Added(RowOf(rows, k), RowOf(more, k))
  }

  function Study(u: Update): seq<Studied> { Tagged(u.user, u.answers, u.questions) }

  function Tally(u: Update): map<Key, Row> { Tabulate(Study(u)) }

  // ----- What a table should hold ----------------------------------------------------------------

  datatype Total = Total(seen: nat, correct: nat, time: nat)

  function SubjectTotal(log: seq<Studied>, k: Key): Total {
    if log == [] then Total(0, 0, 0)
    else
      var before := SubjectTotal(log[..|log| - 1], k);
      var x := log[|log| - 1];
      if x.key == k then Total(before.seen + 1, before.correct + One(x.correct), before.time + x.time) else before
  }

  function TopicTotal(log: seq<Studied>, k: Key, t: string): Acc {
    if log == [] then Acc(0, 0)
    else
      var before := TopicTotal(log[..|log| - 1], k, t);
      var x := log[|log| - 1];
      if x.key == k && x.topic == Some(t) then Acc(before.seen + 1, before.correct + One(x.correct)) else before
  }

  ghost predicate TopicMatches(topics: map<string, Acc>, log: seq<Studied>, k: Key, t: string) {
    AccOf(topics, t) == TopicTotal(log, k, t) && (t in topics <==> TopicTotal(log, k, t).seen > 0)
  }

  ghost predicate RowMatches(rows: map<Key, Row>, log: seq<Studied>, k: Key) {
    && Total(RowOf(rows, k).seen, RowOf(rows, k).correct, RowOf(rows, k).time) == SubjectTotal(log, k)
    && (k in rows <==> SubjectTotal(log, k).seen > 0)
    && forall t :: TopicMatches(RowOf(rows, k).topics, log, k, t)
  }

  /** A table is determined by the sums it holds. */
  lemma SameSumsSameTable(rows: map<Key, Row>, others: map<Key, Row>, log: seq<Studied>)
    requires forall k :: RowMatches(rows, log, k) && RowMatches(others, log, k)
    ensures rows == others
  {
    forall k ensures k in rows <==> k in others { assert RowMatches(rows, log, k) && RowMatches(others, log, k); }
    forall k | k in rows ensures rows[k] == others[k] {
      assert RowMatches(rows, log, k) && RowMatches(others, log, k);
      SameTopics(RowOf(rows, k).topics, RowOf(others, k).topics, log, k);
    }
  }

  lemma SameTopics(topics: map<string, Acc>, others: map<string, Acc>, log: seq<Studied>, k: Key)
    requires forall t :: TopicMatches(topics, log, k, t) && TopicMatches(others, log, k, t)
    ensures topics == others
  {
    forall t ensures (t in topics <==> t in others) && AccOf(topics, t) == AccOf(others, t) {
      assert TopicMatches(topics, log, k, t) && TopicMatches(others, log, k, t);
    }
    assert forall t <- topics :: topics[t] == AccOf(topics, t);
    assert forall t <- others :: others[t] == AccOf(others, t);
  }

  lemma {:induction false} TabulateSums(log: seq<Studied>, k: Key)
    ensures RowMatches(Tabulate(log), log, k)
  {
    if log != [] {
      var before := log[..|log| - 1];
      var x := log[|log| - 1];
      TabulateSums(before, k);
      if x.key == k {
        var row := RowOf(Tabulate(before), k);
        assert RowOf(Tabulate(log), k) == Bumped(row, x);
        forall t ensures TopicMatches(Bumped(row, x).topics, log, k, t) {
          assert TopicMatches(row.topics, before, k, t);
        }
      } else {
        assert RowOf(Tabulate(log), k) == RowOf(Tabulate(before), k);
        forall t ensures TopicMatches(RowOf(Tabulate(log), k).topics, log, k, t) {
          assert TopicMatches(RowOf(Tabulate(before), k).topics, before, k, t);
        }
      }
    }
  }

  lemma {:induction false} SubjectTotalIsAdditive(log: seq<Studied>, more: seq<Studied>, k: Key)
    ensures var (a, b) := (SubjectTotal(log, k), SubjectTotal(more, k));
            SubjectTotal(log + more, k) == Total(a.seen + b.seen, a.correct + b.correct, a.time + b.time)
  {
    if more == [] {
      assert log + more == log;
    } else {
      assert (log + more)[..|log + more| - 1] == log + more[..|more| - 1];
      SubjectTotalIsAdditive(log, more[..|more| - 1], k);
    }
  }

  lemma {:induction false} TopicTotalIsAdditive(log: seq<Studied>, more: seq<Studied>, k: Key, t: string)
    ensures var (a, b) := (TopicTotal(log, k, t), TopicTotal(more, k, t));
            TopicTotal(log + more, k, t) == Acc(a.seen + b.seen, a.correct + b.correct)
  {
    if more == [] {
      assert log + more == log;
    } else {
      assert (log + more)[..|log + more| - 1] == log + more[..|more| - 1];
      TopicTotalIsAdditive(log, more[..|more| - 1], k, t);
    }
  }

  lemma MergeSums(rows: map<Key, Row>, more: map<Key, Row>, log: seq<Studied>, extra: seq<Studied>, k: Key)
    requires RowMatches(rows, log, k) && RowMatches(more, extra, k)
    ensures RowMatches(Merge(rows, more), log + extra, k)
  {
    SubjectTotalIsAdditive(log, extra, k);
    var (a, b) := (RowOf(rows, k), RowOf(more, k));
    var merged := RowOf(Merge(rows, more), k);
    if k !in rows && k !in more { assert merged == EmptyRow(); } else { assert merged == Added(a, b); }
    forall t ensures TopicMatches(merged.topics, log + extra, k, t) {
      assert TopicMatches(a.topics, log, k, t) && TopicMatches(b.topics, extra, k, t);
      TopicTotalIsAdditive(log, extra, k, t);
    }
  }

  // ----- Incremental equals batch ----------------------------------------------------------------

  /** Adding one batch's tallies to another's is the tally of both together. */
  lemma MergeIsOneBatch(log: seq<Studied>, extra: seq<Studied>)
    ensures Merge(Tabulate(log), Tabulate(extra)) == Tabulate(log + extra)
  {
    forall k
      ensures RowMatches(Merge(Tabulate(log), Tabulate(extra)), log + extra, k)
      ensures RowMatches(Tabulate(log + extra), log + extra, k)
    {
      TabulateSums(log, k);
      TabulateSums(extra, k);
      MergeSums(Tabulate(log), Tabulate(extra), log, extra, k);
      TabulateSums(log + extra, k);
    }
    SameSumsSameTable(Merge(Tabulate(log), Tabulate(extra)), Tabulate(log + extra), log + extra);
  }

  function SeenIn(row: Row, topics: seq<string>): nat {
    if topics == [] then 0 else SeenIn(row, topics[..|topics| - 1]) + AccOf(row.topics, topics[|topics| - 1]).seen
  }

  function CorrectIn(row: Row, topics: seq<string>): nat {
    if topics == [] then 0 else CorrectIn(row, topics[..|topics| - 1]) + AccOf(row.topics, topics[|topics| - 1]).correct
  }

  ghost predicate Distinct(topics: seq<string>) { forall i, j | 0 <= i < j < |topics| :: topics[i] != topics[j] }

  ghost predicate Within(row: Row, topics: seq<string>) {
    && row.correct <= row.seen
    && (forall t :: AccOf(row.topics, t).correct <= AccOf(row.topics, t).seen)
    && SeenIn(row, topics) <= row.seen && CorrectIn(row, topics) <= row.correct
  }

  /** In one batch's tally correct never exceeds seen, and different topics together never exceed their subject. */
  lemma TallyWithin(log: seq<Studied>, k: Key, topics: seq<string>)
    requires Distinct(topics)
    ensures Within(RowOf(Tabulate(log), k), topics)
  {
    var row := RowOf(Tabulate(log), k);
    TabulateSums(log, k);
    CorrectWithinSeen(log, k);
    forall t ensures AccOf(row.topics, t).correct <= AccOf(row.topics, t).seen {
      assert TopicMatches(row.topics, log, k, t);
      TopicCorrectWithinSeen(log, k, t);
    }
    ListedTopics(row, log, k, topics);
    ListedWithinSubject(log, k, topics);
  }

  lemma {:induction false} AddedTopicsAdd(a: Row, b: Row, topics: seq<string>)
    ensures SeenIn(Added(a, b), topics) == SeenIn(a, topics) + SeenIn(b, topics)
    ensures CorrectIn(Added(a, b), topics) == CorrectIn(a, topics) + CorrectIn(b, topics)
  {
    if topics != [] { AddedTopicsAdd(a, b, topics[..|topics| - 1]); }
  }

  lemma AddedWithin(a: Row, b: Row, topics: seq<string>)
    requires Within(a, topics) && Within(b, topics)
    ensures Within(Added(a, b), topics)
  {
    AddedTopicsAdd(a, b, topics);
    forall t ensures AccOf(Added(a, b).topics, t).correct <= AccOf(Added(a, b).topics, t).seen {
      assert AccOf(a.topics, t).correct <= AccOf(a.topics, t).seen;
      assert AccOf(b.topics, t).correct <= AccOf(b.topics, t).seen;
    }
  }

  lemma {:induction false} CorrectWithinSeen(log: seq<Studied>, k: Key)
    ensures SubjectTotal(log, k).correct <= SubjectTotal(log, k).seen
  {
    if log != [] { CorrectWithinSeen(log[..|log| - 1], k); }
  }

  lemma {:induction false} TopicCorrectWithinSeen(log: seq<Studied>, k: Key, t: string)
    ensures TopicTotal(log, k, t).correct <= TopicTotal(log, k, t).seen
  {
    if log != [] { TopicCorrectWithinSeen(log[..|log| - 1], k, t); }
  }

  /** The answers of the listed topics, counted in the log. */
  function Listed(log: seq<Studied>, k: Key, topics: seq<string>): Acc {
    if topics == [] then Acc(0, 0)
    else
      var before := Listed(log, k, topics[..|topics| - 1]);
      var last := TopicTotal(log, k, topics[|topics| - 1]);
      Acc(before.seen + last.seen, before.correct + last.correct)
  }

  lemma {:induction false} ListedTopics(row: Row, log: seq<Studied>, k: Key, topics: seq<string>)
    requires forall t :: TopicMatches(row.topics, log, k, t)
    ensures Acc(SeenIn(row, topics), CorrectIn(row, topics)) == Listed(log, k, topics)
  {
    if topics != [] {
      ListedTopics(row, log, k, topics[..|topics| - 1]);
      assert TopicMatches(row.topics, log, k, topics[|topics| - 1]);
    }
  }

  lemma {:induction false} ListedNothing(k: Key, topics: seq<string>)
    ensures Listed([], k, topics) == Acc(0, 0)
  {
    if topics != [] { ListedNothing(k, topics[..|topics| - 1]); }
  }

  /** One more answer adds to at most one of the listed topics. */
  lemma {:induction false} ListedOneMore(log: seq<Studied>, k: Key, topics: seq<string>)
    requires log != [] && Distinct(topics)
    ensures var x := log[|log| - 1];
            var hit := x.key == k && x.topic.Some? && x.topic.value in topics;
            var before := Listed(log[..|log| - 1], k, topics);
            Listed(log, k, topics) == Acc(before.seen + One(hit), before.correct + One(hit && x.correct))
  {
    if topics != [] {
      var last := |topics| - 1;
      ListedOneMore(log, k, topics[..last]);
      assert topics == topics[..last] + [topics[last]];
    }
  }

  lemma {:induction false} ListedWithinSubject(log: seq<Studied>, k: Key, topics: seq<string>)
    requires Distinct(topics)
    ensures Listed(log, k, topics).seen <= SubjectTotal(log, k).seen
    ensures Listed(log, k, topics).correct <= SubjectTotal(log, k).correct
  {
    if log == [] {
      ListedNothing(k, topics);
    } else {
      ListedWithinSubject(log[..|log| - 1], k, topics);
      ListedOneMore(log, k, topics);
    }
  }

  lemma AddingNothing(row: Row)
    ensures Added(row, EmptyRow()) == row
  {
    assert AddedTopics(row.topics, map[]) == row.topics;
  }
}
