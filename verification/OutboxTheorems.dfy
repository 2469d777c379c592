/** Order, duplication and draining of the outbox, with the exact role of claims that are still live. */
module OutboxTheorems {
  import opened Common
  import opened Entities
  import opened DeliveryOrder
  import opened Outbox

  // --- Order ---------------------------------------------------------------------------------------

  /** Each event is first delivered after every event stored before it in created_at order. */
  ghost predicate InOrder(s: State) {
    Ordered(Events(s.rows), s.delivered)
  }

  ghost predicate OvertakenAt(s: State, ps: seq<nat>, now: int, k: nat, i: nat) {
    && k < |ps| && i < ps[k] && ps[k] < |s.rows|
    && LiveClaim(s.rows[i], now) && s.rows[i].event !in s.delivered
  }

  /** The step delivers past an undelivered event: one whose claim is still live when a batch is fetched,
      or one that is stored with an older created_at than an event already delivered. */
  ghost predicate Overtakes(s: State, batchSize: int, step: Step) {
    Enabled(s, step) &&
    match step
    case Inserted(e) =>
      exists j :: Place(s.rows, e.createdAt) <= j < |s.rows| && s.rows[j].event in s.delivered
    case Polled(p) =>
      p.fetch.Fetched? &&
      exists k, i :: OvertakenAt(s, DeliveredRows(Batch(s.rows, p.now, batchSize), p), p.now, k, i)
  }

  /** A batch leaves out no eligible row that precedes one of its own. */
  lemma EarlierEligibleIsInBatch(rows: seq<Row>, now: int, batchSize: int, n: nat, k: nat, i: nat)
    requires var batch := Batch(rows, now, batchSize); n <= |batch| && k < n && i < batch[k]
    requires i < |rows| && Eligible(rows[i], now)
    ensures i in Batch(rows, now, batchSize)[..n]
  {
    EligiblePositions(rows, now);
    var all := EligibleRows(rows, now);
    assert i in all;
    var l :| 0 <= l < |all| && all[l] == i;
    var batch := Batch(rows, now, batchSize);
    assert batch[k] == all[k];
    assert l < k;
    assert batch[..n][l] == i;
  }

  lemma BatchIsEligible(rows: seq<Row>, now: int, batchSize: int, i: nat)
    requires i in Batch(rows, now, batchSize)
    ensures i < |rows| && Eligible(rows[i], now)
  {
    EligiblePositions(rows, now);
    assert i in EligibleRows(rows, now);
  }

  lemma SkippedIffOvertaken(s: State, batchSize: int, p: Poll)
    requires Inv(s)
    ensures var ps := DeliveredRows(Batch(s.rows, p.now, batchSize), p);
            && Ascending(ps, |s.rows|)
            && (NothingSkipped(Events(s.rows), s.delivered, ps) <==> !exists k, i :: OvertakenAt(s, ps, p.now, k, i))
  {
    PollRows(s, batchSize, p);
    var batch := Batch(s.rows, p.now, batchSize);
    var ps := DeliveredRows(batch, p);
    var es := Events(s.rows);
    if NothingSkipped(es, s.delivered, ps) {
      forall k: nat, i: nat
        ensures !OvertakenAt(s, ps, p.now, k, i)
      {
        if k < |ps| && i < ps[k] && i in ps {
          BatchIsEligible(s.rows, p.now, batchSize, i);
        }
      }
    }
    if !exists k, i :: OvertakenAt(s, ps, p.now, k, i) {
      forall k: nat, i: nat | k < |ps| && i < ps[k]
        ensures i in ps || es[i] in s.delivered
      {
        assert !OvertakenAt(s, ps, p.now, k, i);
        if Eligible(s.rows[i], p.now) {
          EarlierEligibleIsInBatch(s.rows, p.now, batchSize, |ps|, k, i);
        }
      }
    }
  }

  lemma PollOrder(s: State, batchSize: int, p: Poll)
    requires Inv(s)
    ensures InOrder(AfterPoll(s, batchSize, p)) <==> InOrder(s) && !Overtakes(s, batchSize, Polled(p))
  {
    PollRows(s, batchSize, p);
    SkippedIffOvertaken(s, batchSize, p);
    DistinctEvents(s.rows);
    var ps := DeliveredRows(Batch(s.rows, p.now, batchSize), p);
    DeliveredAfterPoll(s, batchSize, p);
    OrderedBatch(Events(s.rows), s.delivered, ps);
    if p.fetch.FetchFailed? || Batch(s.rows, p.now, batchSize) == [] {
      assert AfterPoll(s, batchSize, p).delivered == s.delivered;
    }
  }

  lemma InsertOrder(s: State, batchSize: int, e: OutboxEvent)
    requires Inv(s) && Enabled(s, Inserted(e))
    ensures InOrder(AfterInsert(s, e)) <==> InOrder(s) && !Overtakes(s, batchSize, Inserted(e))
  {
    var p := Place(s.rows, e.createdAt);
    EventsAfterInsert(s.rows, p, Row(e, false, None));
    OrderedInsert(Events(s.rows), p, e, s.delivered);
  }

  /** One step keeps the order exactly when it overtakes nothing. */
  lemma StepOrder(s: State, batchSize: int, step: Step)
    requires Inv(s)
    ensures InOrder(Apply(s, batchSize, step)) <==> InOrder(s) && !Overtakes(s, batchSize, step)
  {
    if Enabled(s, step) {
      match step
      case Inserted(e) => InsertOrder(s, batchSize, e);
      case Polled(p) => PollOrder(s, batchSize, p);
    }
  }

  /** No step of the run overtakes. */
  ghost predicate NoneOvertakes(batchSize: int, steps: seq<Step>) {
    steps != [] ==>
      var n := |steps| - 1;
      NoneOvertakes(batchSize, steps[..n]) && !Overtakes(Run(EMPTY, batchSize, steps[..n]), batchSize, steps[n])
  }

  /** Over a whole run, the log of deliveries reduced to first occurrences is a prefix of the stored events
      exactly when no step overtook an undelivered one. */
  lemma {:induction false} OrderIffNoneOvertakes(batchSize: int, steps: seq<Step>)
    ensures InOrder(Run(EMPTY, batchSize, steps)) <==> NoneOvertakes(batchSize, steps)
    ensures var s := Run(EMPTY, batchSize, steps);
            FirstOccurrences(s.delivered) <= Events(s.rows) <==> NoneOvertakes(batchSize, steps)
    decreases |steps|
  {
    var s := Run(EMPTY, batchSize, steps);
    RunKeepsInv(EMPTY, batchSize, steps);
    if steps != [] {
      var n := |steps| - 1;
      OrderIffNoneOvertakes(batchSize, steps[..n]);
      RunKeepsInv(EMPTY, batchSize, steps[..n]);
      StepOrder(Run(EMPTY, batchSize, steps[..n]), batchSize, steps[n]);
    }
    DistinctEvents(s.rows);
    OrderedIffPrefix(Events(s.rows), s.delivered);
  }

  /** A publish that fails leaves its claim behind: until the claim is two minutes old the worker delivers
      later events first. Here the first of two events is overtaken by the second. */
  lemma FailedPublishIsOvertaken(a: OutboxEvent, b: OutboxEvent, t: int, t': int)
    requires a.id != b.id && a.createdAt <= b.createdAt && t <= t' <= t + 120000
    ensures var steps := [Inserted(a), Inserted(b), Polled(Poll(t, Fetched, 0, false, true)),
                          Polled(Poll(t', Fetched, 1, false, true))];
            OnlyLaterDelivered(Run(EMPTY, 1, steps), a, b)
  {
    RunFour(EMPTY, 1, Inserted(a), Inserted(b),
            Polled(Poll(t, Fetched, 0, false, true)), Polled(Poll(t', Fetched, 1, false, true)));
    FourStepsOvertake(a, b, t, t');
  }

  ghost predicate OnlyLaterDelivered(s: State, a: OutboxEvent, b: OutboxEvent) {
    && Events(s.rows) == [a, b] && s.delivered == [b]
    && !(FirstOccurrences(s.delivered) <= Events(s.rows))
  }

  lemma FourStepsOvertake(a: OutboxEvent, b: OutboxEvent, t: int, t': int)
    requires a.id != b.id && a.createdAt <= b.createdAt && t <= t' <= t + 120000
    ensures var first, second := Polled(Poll(t, Fetched, 0, false, true)), Polled(Poll(t', Fetched, 1, false, true));
            OnlyLaterDelivered(
              Apply(Apply(Apply(Apply(EMPTY, 1, Inserted(a)), 1, Inserted(b)), 1, first), 1, second), a, b)
  {
    InsertTwo(a, b);
    FirstPollFails(a, b, t);
    SecondPollOvertakes(a, b, t, t');
  }

  lemma RunFour(s: State, batchSize: int, x0: Step, x1: Step, x2: Step, x3: Step)
    ensures Run(s, batchSize, [x0, x1, x2, x3]) ==
            Apply(Apply(Apply(Apply(s, batchSize, x0), batchSize, x1), batchSize, x2), batchSize, x3)
  {
    assert [x0][..0] == [] && [x0, x1][..1] == [x0];
    assert [x0, x1, x2][..2] == [x0, x1] && [x0, x1, x2, x3][..3] == [x0, x1, x2];
    assert Run(s, batchSize, [x0]) == Apply(s, batchSize, x0);
    assert Run(s, batchSize, [x0, x1]) == Apply(Run(s, batchSize, [x0]), batchSize, x1);
    assert Run(s, batchSize, [x0, x1, x2]) == Apply(Run(s, batchSize, [x0, x1]), batchSize, x2);
  }

  lemma InsertTwo(a: OutboxEvent, b: OutboxEvent)
    requires a.id != b.id && a.createdAt <= b.createdAt
    ensures Apply(Apply(EMPTY, 1, Inserted(a)), 1, Inserted(b)) ==
            State([Row(a, false, None), Row(b, false, None)], [], FIRST_BACKOFF)
  {
    var s1 := Apply(EMPTY, 1, Inserted(a));
    assert s1.rows == [Row(a, false, None)];
    assert Apply(s1, 1, Inserted(b)).rows == [Row(a, false, None), Row(b, false, None)];
  }

  lemma FirstPollFails(a: OutboxEvent, b: OutboxEvent, t: int)
    ensures Apply(State([Row(a, false, None), Row(b, false, None)], [], FIRST_BACKOFF), 1,
                  Polled(Poll(t, Fetched, 0, false, true))) ==
            State([Row(a, false, Some(t)), Row(b, false, None)], [], 400)
  {
    var rows := [Row(a, false, None), Row(b, false, None)];
    TwoRows(rows, t);
    assert Batch(rows, t, 1) == [0];
    ClaimsOne(rows, 0, t);
  }

  lemma SecondPollOvertakes(a: OutboxEvent, b: OutboxEvent, t: int, t': int)
    requires a.id != b.id && t <= t' <= t + 120000
    ensures var s := Apply(State([Row(a, false, Some(t)), Row(b, false, None)], [], 400), 1,
                           Polled(Poll(t', Fetched, 1, false, true)));
            OnlyLaterDelivered(s, a, b)
  {
    var s3 := State([Row(a, false, Some(t)), Row(b, false, None)], [], 400);
    var p := Poll(t', Fetched, 1, false, true);
    SecondIsDue(s3, p);
    DeliversOne(s3, 1, p, 1);
    assert Events(s3.rows) == [a, b];
    PollRows(s3, 1, p);
    SecondIsOutOfOrder(AfterPoll(s3, 1, p), a, b);
  }

  lemma SecondIsDue(s: State, p: Poll)
    requires |s.rows| == 2 && !Eligible(s.rows[0], p.now) && Eligible(s.rows[1], p.now)
    requires p.fetch.Fetched? && p.accepted == 1
    ensures RoundDelivers(s, 1, p) == [1]
  {
    TwoRows(s.rows, p.now);
  }

  lemma DeliversOne(s: State, batchSize: int, p: Poll, i: nat)
    requires IdsDistinct(s.rows) && s.delivered == [] && i < |s.rows| && RoundDelivers(s, batchSize, p) == [i]
    ensures AfterPoll(s, batchSize, p).delivered == [s.rows[i].event]
  {
    DeliveredAfterPoll(s, batchSize, p);
    assert Pick(Events(s.rows), [i]) == [s.rows[i].event];
  }

  lemma SecondIsOutOfOrder(s4: State, a: OutboxEvent, b: OutboxEvent)
    requires a.id != b.id
    ensures Events(s4.rows) == [a, b] && s4.delivered == [b] ==> OnlyLaterDelivered(s4, a, b)
  {
    assert [b][..0] == [];
    assert FirstOccurrences([b]) == [b];
  }

  lemma SendsOne(log: seq<OutboxEvent>, rows: seq<Row>, i: nat)
    requires i < |rows|
    ensures Sent(log, Events(rows), [i][..1]) == log + [rows[i].event]
    ensures Sent(log, Events(rows), [i][..0]) == log
  {
    assert [i][..1] == [i] && [i][..0] == [];
  }

  lemma ClaimsOne(rows: seq<Row>, i: nat, now: int)
    requires i < |rows|
    ensures Claimed(rows, [i], now) == rows[i := rows[i].(claimedAt := Some(now))]
  {
    forall j: nat | j < |rows|
      ensures Claimed(rows, [i], now)[j] == rows[i := rows[i].(claimedAt := Some(now))][j]
    {
      ClaimedAt(rows, [i], now, j);
    }
  }

  lemma TwoRows(rows: seq<Row>, now: int)
    requires |rows| == 2
    ensures EligibleRows(rows, now) ==
            (if Eligible(rows[0], now) then [0] else []) + (if Eligible(rows[1], now) then [1] else [])
  {
    var one := rows[..1];
    assert one[..0] == [];
    assert EligibleRows(one[..0], now) == [];
    assert EligibleRows(one, now) == if Eligible(rows[0], now) then [0] else [];
  }
}
