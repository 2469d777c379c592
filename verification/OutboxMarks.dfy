/** When the marked events are the oldest ones. */
module OutboxMarks {
  import opened Common
  import opened Entities
  import opened Outbox
  import opened OutboxTheorems

  /** The published rows are a prefix of the table. */
  predicate PublishedFirst(rows: seq<Row>) {
    forall i, j :: 0 <= i < j < |rows| && rows[j].published ==> rows[i].published
  }

  predicate MarksPastAt(s: State, ps: seq<nat>, now: int, k: nat, i: nat) {
    k < |ps| && i < ps[k] && ps[k] < |s.rows| && LiveClaim(s.rows[i], now)
  }

  /** The step marks a row past one whose claim is still live, or stores one before a published row. */
  ghost predicate MarksPast(s: State, batchSize: int, step: Step) {
    Enabled(s, step) &&
    match step
    case Inserted(e) => exists j :: Place(s.rows, e.createdAt) <= j < |s.rows| && s.rows[j].published
    case Polled(p) => exists k, i :: MarksPastAt(s, MarkedRows(s, batchSize, p), p.now, k, i)
  }

  lemma InsertMarks(s: State, e: OutboxEvent)
    requires PublishedFirst(s.rows)
    ensures PublishedFirst(AfterInsert(s, e).rows) <==>
            !exists j :: Place(s.rows, e.createdAt) <= j < |s.rows| && s.rows[j].published
  {
    var p, rows, rows' := Place(s.rows, e.createdAt), s.rows, AfterInsert(s, e).rows;
    assert !rows'[p].published;
    assert forall i :: 0 <= i < p ==> rows'[i] == rows[i];
    assert forall j :: p <= j < |rows| ==> rows'[j + 1] == rows[j];
    assert forall j :: p < j < |rows'| ==> rows'[j] == rows[j - 1];
  }

  lemma MarkedAreBatch(s: State, batchSize: int, p: Poll)
    ensures var ps, batch := MarkedRows(s, batchSize, p), Batch(s.rows, p.now, batchSize);
            |ps| <= |batch| && ps == batch[..|ps|]
  {
  }

  lemma RowMarks(s: State, batchSize: int, p: Poll, i: nat)
    requires Inv(s) && i < |s.rows|
    ensures |AfterPoll(s, batchSize, p).rows| == |s.rows|
    ensures AfterPoll(s, batchSize, p).rows[i].published <==> s.rows[i].published || i in MarkedRows(s, batchSize, p)
  {
    RowAfterPoll(s, batchSize, p, i);
  }

  lemma MarkedPast(s: State, batchSize: int, p: Poll, k: nat, i: nat)
    requires Inv(s) && MarksPastAt(s, MarkedRows(s, batchSize, p), p.now, k, i)
    ensures !PublishedFirst(AfterPoll(s, batchSize, p).rows)
  {
    var ps := MarkedRows(s, batchSize, p);
    MarkedAreBatch(s, batchSize, p);
    RowMarks(s, batchSize, p, i);
    RowMarks(s, batchSize, p, ps[k]);
    if i in ps {
      BatchIsEligible(s.rows, p.now, batchSize, i);
    }
  }

  lemma EarlierIsMarked(s: State, batchSize: int, p: Poll, i: nat, j: nat)
    requires Inv(s) && PublishedFirst(s.rows) && i < j < |s.rows|
    requires !exists k, i :: MarksPastAt(s, MarkedRows(s, batchSize, p), p.now, k, i)
    ensures |AfterPoll(s, batchSize, p).rows| == |s.rows|
    ensures AfterPoll(s, batchSize, p).rows[j].published ==> AfterPoll(s, batchSize, p).rows[i].published
  {
    var ps := MarkedRows(s, batchSize, p);
    MarkedAreBatch(s, batchSize, p);
    RowMarks(s, batchSize, p, i);
    RowMarks(s, batchSize, p, j);
    if j in ps && !s.rows[i].published {
      var k :| 0 <= k < |ps| && ps[k] == j;
      assert !MarksPastAt(s, ps, p.now, k, i);
      EarlierEligibleIsInBatch(s.rows, p.now, batchSize, |ps|, k, i);
    }
  }

  lemma PollMarks(s: State, batchSize: int, p: Poll)
    requires Inv(s) && PublishedFirst(s.rows)
    ensures PublishedFirst(AfterPoll(s, batchSize, p).rows) <==> !MarksPast(s, batchSize, Polled(p))
  {
    if k, i :| MarksPastAt(s, MarkedRows(s, batchSize, p), p.now, k, i) {
      MarkedPast(s, batchSize, p, k, i);
    } else {
      PollRows(s, batchSize, p);
      forall i, j | 0 <= i < j < |s.rows|
        ensures AfterPoll(s, batchSize, p).rows[j].published ==> AfterPoll(s, batchSize, p).rows[i].published
      {
        EarlierIsMarked(s, batchSize, p, i, j);
      }
    }
  }

  lemma StepMarks(s: State, batchSize: int, step: Step)
    requires Inv(s) && PublishedFirst(s.rows)
    ensures PublishedFirst(Apply(s, batchSize, step).rows) <==> !MarksPast(s, batchSize, step)
  {
    if Enabled(s, step) {
      match step
      case Inserted(e) => InsertMarks(s, e);
      case Polled(p) => PollMarks(s, batchSize, p);
    }
  }

  ghost predicate NoneMarksPast(batchSize: int, steps: seq<Step>) {
    steps != [] ==>
      var n := |steps| - 1;
      NoneMarksPast(batchSize, steps[..n]) && !MarksPast(Run(EMPTY, batchSize, steps[..n]), batchSize, steps[n])
  }

  ghost predicate AlwaysPublishedFirst(batchSize: int, steps: seq<Step>) {
    && PublishedFirst(Run(EMPTY, batchSize, steps).rows)
    && (steps != [] ==> AlwaysPublishedFirst(batchSize, steps[..|steps| - 1]))
  }

  /** All along a run the marked events are a prefix of the stored ones exactly when no step marks past a live
      claim or stores an event before a marked one. */
  lemma {:induction false} MarkedPrefixIff(batchSize: int, steps: seq<Step>)
    ensures AlwaysPublishedFirst(batchSize, steps) <==> NoneMarksPast(batchSize, steps)
    decreases |steps|
  {
    if steps != [] {
      var n := |steps| - 1;
      MarkedPrefixIff(batchSize, steps[..n]);
      if AlwaysPublishedFirst(batchSize, steps[..n]) {
        RunKeepsInv(EMPTY, batchSize, steps[..n]);
        StepMarks(Run(EMPTY, batchSize, steps[..n]), batchSize, steps[n]);
      }
    }
  }

  /** The event that overtakes a failed publish is also marked first: the marked events are then no prefix. */
  lemma FailedPublishIsMarkedPast(a: OutboxEvent, b: OutboxEvent, t: int, t': int)
    requires a.id != b.id && a.createdAt <= b.createdAt && t <= t' <= t + 120000
    ensures var steps := [Inserted(a), Inserted(b), Polled(Poll(t, Fetched, 0, false, true)),
                          Polled(Poll(t', Fetched, 1, false, true))];
            OnlySecondMarked(Run(EMPTY, 1, steps).rows, a, b) && !PublishedFirst(Run(EMPTY, 1, steps).rows)
  {
    RunFour(EMPTY, 1, Inserted(a), Inserted(b),
            Polled(Poll(t, Fetched, 0, false, true)), Polled(Poll(t', Fetched, 1, false, true)));
    FourStepsMarkPast(a, b, t, t');
  }

  ghost predicate OnlySecondMarked(rows: seq<Row>, a: OutboxEvent, b: OutboxEvent) {
    |rows| == 2 && rows[0].event == a && rows[1].event == b && !rows[0].published && rows[1].published
  }

  lemma FourStepsMarkPast(a: OutboxEvent, b: OutboxEvent, t: int, t': int)
    requires a.id != b.id && a.createdAt <= b.createdAt && t <= t' <= t + 120000
    ensures var first, second := Polled(Poll(t, Fetched, 0, false, true)), Polled(Poll(t', Fetched, 1, false, true));
            OnlySecondMarked(
              Apply(Apply(Apply(Apply(EMPTY, 1, Inserted(a)), 1, Inserted(b)), 1, first), 1, second).rows, a, b)
  {
    InsertTwo(a, b);
    FirstPollFails(a, b, t);
    SecondPollMarks(a, b, t, t');
  }

  lemma SecondPollMarks(a: OutboxEvent, b: OutboxEvent, t: int, t': int)
    requires a.id != b.id && t <= t' <= t + 120000
    ensures OnlySecondMarked(Apply(State([Row(a, false, Some(t)), Row(b, false, None)], [], 400), 1,
                                   Polled(Poll(t', Fetched, 1, false, true))).rows, a, b)
  {
    var s := State([Row(a, false, Some(t)), Row(b, false, None)], [], 400);
    var p := Poll(t', Fetched, 1, false, true);
    TwoRows(s.rows, t');
    assert MarkedRows(s, 1, p) == [1] && ClaimedRows(s, 1, p) == [1];
    RowAfterPoll(s, 1, p, 0);
    RowAfterPoll(s, 1, p, 1);
  }
}
